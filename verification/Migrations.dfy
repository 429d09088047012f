/** Ordered, run-once schema migrations (store/db.py). */
module Migrations {
  /** A file of the migrations directory and whether its script executes without a database error. */
  datatype File = File(name: string, works: bool)

  // ---------- names ----------

  predicate IsDigit(c: char) {
    '0' <= c <= '9'
  }

  const SUFFIX := ".sql"

  /** The pattern `^(\d{3})_.*\.sql$`, for ASCII digits and names without line breaks. */
  predicate IsMigration(name: string) {
    && |name| >= 8
    && IsDigit(name[0]) && IsDigit(name[1]) && IsDigit(name[2]) && name[3] == '_'
    && name[|name| - 4..] == SUFFIX && '\n' !in name
  }

  function DigitValue(c: char): int {
    c as int - '0' as int
  }

  function Version(name: string): int
    requires |name| >= 3
  {
    100 * DigitValue(name[0]) + 10 * DigitValue(name[1]) + DigitValue(name[2])
  }

  /** Python's string order: by code point, a prefix first. */
  predicate AtMost(a: string, b: string) {
    a == "" || (b != "" && (a[0] < b[0] || (a[0] == b[0] && AtMost(a[1..], b[1..]))))
  }

  lemma {:induction false} AtMostTotal(a: string, b: string)
    ensures AtMost(a, b) || AtMost(b, a)
  {
    if a != "" && b != "" && a[0] == b[0] {
      AtMostTotal(a[1..], b[1..]);
    }
  }

  function Digit(d: int): char
    requires 0 <= d <= 9
  {
    "0123456789"[d]
  }

  /** A name that starts with the three decimal digits of a number has that number as its version. */
  lemma VersionIsWritten(name: string, v: int)
    requires 0 <= v < 1000 && |name| >= 3
    requires name[0] == Digit(v / 100) && name[1] == Digit(v / 10 % 10) && name[2] == Digit(v % 10)
    ensures Version(name) == v
  {
    DigitIsRead(v / 100);
    DigitIsRead(v / 10 % 10);
    DigitIsRead(v % 10);
    assert v / 10 == 10 * (v / 100) + v / 10 % 10;
    assert v == 10 * (v / 10) + v % 10;
  }

  lemma DigitIsRead(d: int)
    requires 0 <= d <= 9
    ensures DigitValue(Digit(d)) == d
  {
    assert d == 0 || d == 1 || d == 2 || d == 3 || d == 4 || d == 5 || d == 6 || d == 7 || d == 8 || d == 9;
  }

  /** Which names the pattern accepts, said of a name taken apart. */
  lemma PatternAccepts(digits: string, middle: string)
    requires |digits| == 3 && '\n' !in middle
    ensures IsMigration(digits + "_" + middle + ".sql")
            <==> forall i :: 0 <= i < 3 ==> '0' <= digits[i] <= '9'
  {
    var name := digits + "_" + middle + ".sql";
    assert name[0] == digits[0] && name[1] == digits[1] && name[2] == digits[2] && name[3] == '_';
    assert name[|name| - 4..] == ".sql";
    assert forall c :: c in name ==> c in digits || c == '_' || c in middle || c in ".sql";
  }

  /** Python's string order: a prefix comes first, else the first difference decides. */
  lemma {:induction false} AtMostIs(a: string, b: string)
    ensures AtMost(a, b)
            <==> a <= b || exists k :: 0 <= k < |a| && k < |b| && a[..k] == b[..k] && a[k] < b[k]
  {
    if a != "" && b != "" {
      AtMostIs(a[1..], b[1..]);
      if a[0] == b[0] {
        if k :| 0 <= k < |a[1..]| && k < |b[1..]| && a[1..][..k] == b[1..][..k] && a[1..][k] < b[1..][k] {
          assert a[..k + 1] == [a[0]] + a[1..][..k] && b[..k + 1] == [b[0]] + b[1..][..k];
          assert a[k + 1] < b[k + 1];
        }
        if k :| 0 <= k < |a| && k < |b| && a[..k] == b[..k] && a[k] < b[k] {
          assert k > 0 && a[1..][..k - 1] == a[..k][1..] && b[1..][..k - 1] == b[..k][1..];
          assert a[1..][k - 1] < b[1..][k - 1];
        }
      } else if a[0] < b[0] {
        assert a[..0] == b[..0];
      } else if k :| 0 <= k < |a| && k < |b| && a[..k] == b[..k] && a[k] < b[k] {
        assert k > 0 ==> a[..k][0] == b[..k][0];
      }
    }
  }

  /** Name order is version order. */
  lemma NameOrderIsVersionOrder(a: string, b: string)
    requires IsMigration(a) && IsMigration(b) && AtMost(a, b)
    ensures Version(a) <= Version(b)
  {
    assert a[0] == b[0] ==> AtMost(a[1..], b[1..]);
    assert a[0] == b[0] && a[1] == b[1] ==> AtMost(a[1..][1..], b[1..][1..]);
    assert a[1..][1..] == a[2..] && b[1..][1..] == b[2..];
  }

  // ---------- the sorted listing ----------

  ghost predicate SortedNames(fs: seq<File>) {
    |fs| <= 1 || (AtMost(fs[0].name, fs[1].name) && SortedNames(fs[1..]))
  }

  function InsertByName(f: File, fs: seq<File>): (r: seq<File>)
    ensures |r| == |fs| + 1
    ensures forall g :: g in r <==> g == f || g in fs
    ensures multiset(r) == multiset(fs) + multiset{f}
  {
    if fs == [] then [f]
    else if AtMost(f.name, fs[0].name) then [f] + fs
    else
      assert fs == [fs[0]] + fs[1..];
      [fs[0]] + InsertByName(f, fs[1..])
  }

  lemma {:induction false} InsertKeepsOrder(f: File, fs: seq<File>)
    requires SortedNames(fs)
    ensures SortedNames(InsertByName(f, fs))
    ensures InsertByName(f, fs)[0] == f || (fs != [] && InsertByName(f, fs)[0] == fs[0])
  {
    var r := InsertByName(f, fs);
    if fs != [] {
      AtMostTotal(f.name, fs[0].name);
      if AtMost(f.name, fs[0].name) {
        assert r[1..] == fs;
      } else {
        InsertKeepsOrder(f, fs[1..]);
        assert r[1..] == InsertByName(f, fs[1..]);
      }
    }
  }

  /** `sorted(p for p in ... if pattern matches)`. */
  function Listing(dir: seq<File>): (fs: seq<File>)
    ensures forall f :: f in fs <==> f in dir && IsMigration(f.name)
    ensures forall f :: multiset(fs)[f] == if IsMigration(f.name) then multiset(dir)[f] else 0
  {
    if dir == [] then []
    else
      assert dir == dir[..|dir| - 1] + [dir[|dir| - 1]];
      var rest := Listing(dir[..|dir| - 1]);
      var f := dir[|dir| - 1];
      if IsMigration(f.name) then InsertByName(f, rest) else rest
  }

  lemma {:induction false} ListingSorted(dir: seq<File>)
    ensures SortedNames(Listing(dir)) && AllMigrations(Listing(dir))
  {
    if dir != [] {
      ListingSorted(dir[..|dir| - 1]);
      InsertKeepsOrder(dir[|dir| - 1], Listing(dir[..|dir| - 1]));
    }
    forall i | 0 <= i < |Listing(dir)| ensures IsMigration(Listing(dir)[i].name) {
      assert Listing(dir)[i] in Listing(dir);
    }
  }

  ghost predicate AllMigrations(fs: seq<File>) {
    forall i :: 0 <= i < |fs| ==> IsMigration(fs[i].name)
  }

  /** Sorted by name, migrations come in nondecreasing version order. */
  lemma {:induction false} ListingAscends(fs: seq<File>, i: nat, j: nat)
    requires AllMigrations(fs) && SortedNames(fs) && i <= j < |fs|
    ensures Version(fs[i].name) <= Version(fs[j].name)
    decreases j
  {
    if i > 0 {
      ListingAscends(fs[1..], i - 1, j - 1);
    } else if j > 0 {
      NameOrderIsVersionOrder(fs[0].name, fs[1].name);
      ListingAscends(fs[1..], 0, j - 1);
    }
  }

  // ---------- which files are due ----------

  /** Positions of the files a run starting at version v would execute if none failed. */
  function Due(fs: seq<File>, i: nat, v: int): seq<nat>
    requires i <= |fs| && AllMigrations(fs)
    decreases |fs| - i
  {
    if i == |fs| then []
    else if v >= Version(fs[i].name) then Due(fs, i + 1, v)
    else [i] + Due(fs, i + 1, Version(fs[i].name))
  }

  predicate Record(fs: seq<File>, i: nat, v: int, k: int)
    requires i <= |fs| && AllMigrations(fs)
  {
    && i <= k < |fs| && Version(fs[k].name) > v
    && forall j :: i <= j < k ==> Version(fs[j].name) < Version(fs[k].name)
  }

  /** Due are exactly the files whose version beats the start and every earlier file, in any order of names. */
  lemma {:induction false} DueAreRecords(fs: seq<File>, i: nat, v: int, k: int)
    requires i <= |fs| && AllMigrations(fs)
    ensures k in Due(fs, i, v) <==> Record(fs, i, v, k)
    decreases |fs| - i
  {
    if i < |fs| {
      var w := Version(fs[i].name);
      if v >= w {
        DueAreRecords(fs, i + 1, v, k);
      } else {
        DueAreRecords(fs, i + 1, w, k);
        assert k in Due(fs, i, v) <==> k == i || k in Due(fs, i + 1, w);
      }
    }
  }

  predicate InRange(fs: seq<File>, d: seq<nat>) {
    forall a :: 0 <= a < |d| ==> d[a] < |fs|
  }

  ghost predicate RunsUp(fs: seq<File>, d: seq<nat>, v: int)
    requires AllMigrations(fs) && InRange(fs, d)
  {
    && (forall a :: 0 <= a < |d| ==> Version(fs[d[a]].name) > v)
    && (forall a, b :: 0 <= a < b < |d| ==> Version(fs[d[a]].name) < Version(fs[d[b]].name))
  }

  lemma RunsUpCons(fs: seq<File>, i: nat, rest: seq<nat>, v: int)
    requires i < |fs| && AllMigrations(fs) && Version(fs[i].name) > v
    requires InRange(fs, rest) && RunsUp(fs, rest, Version(fs[i].name))
    ensures InRange(fs, [i] + rest) && RunsUp(fs, [i] + rest, v)
  {
    var d := [i] + rest;
    forall a | 0 <= a < |d| ensures d[a] < |fs| && Version(fs[d[a]].name) > v {
      assert a > 0 ==> d[a] == rest[a - 1];
    }
    forall a, b | 0 <= a < b < |d| ensures Version(fs[d[a]].name) < Version(fs[d[b]].name) {
      assert d[b] == rest[b - 1];
      assert a > 0 ==> d[a] == rest[a - 1];
    }
  }

  /** Executed versions strictly ascend, so no version runs twice. */
  lemma {:induction false} DueAscends(fs: seq<File>, i: nat, v: int)
    requires i <= |fs| && AllMigrations(fs)
    ensures InRange(fs, Due(fs, i, v)) && RunsUp(fs, Due(fs, i, v), v)
    decreases |fs| - i
  {
    if i < |fs| {
      var w := Version(fs[i].name);
      if v >= w {
        DueAscends(fs, i + 1, v);
      } else {
        DueAscends(fs, i + 1, w);
        RunsUpCons(fs, i, Due(fs, i + 1, w), v);
      }
    }
  }

  /** The version reached by running everything due. */
  function Reached(fs: seq<File>, d: seq<nat>, v: int): int
    requires AllMigrations(fs) && InRange(fs, d)
  {
    if d == [] then v else Version(fs[d[|d| - 1]].name)
  }

  lemma {:induction false} ReachedIsLargest(fs: seq<File>, i: nat, v: int)
    requires i <= |fs| && AllMigrations(fs)
    ensures var d := Due(fs, i, v);
            && InRange(fs, d)
            && Reached(fs, d, v) >= v
            && (forall k :: i <= k < |fs| ==> Version(fs[k].name) <= Reached(fs, d, v))
            && (Reached(fs, d, v) == v || exists k :: i <= k < |fs| && Version(fs[k].name) == Reached(fs, d, v))
    decreases |fs| - i
  {
    DueAscends(fs, i, v);
    if i < |fs| {
      var w := Version(fs[i].name);
      var v' := if v >= w then v else w;
      ReachedIsLargest(fs, i + 1, v');
      var d, rest := Due(fs, i, v), Due(fs, i + 1, v');
      assert Reached(fs, d, v) == Reached(fs, rest, v') by {
        if v < w && rest != [] {
          assert d[|d| - 1] == rest[|rest| - 1];
        }
      }
    }
  }

  lemma {:induction false} NothingDue(fs: seq<File>, i: nat, v: int)
    requires i <= |fs| && AllMigrations(fs)
    requires forall k :: i <= k < |fs| ==> Version(fs[k].name) <= v
    ensures Due(fs, i, v) == []
    decreases |fs| - i
  {
    if i < |fs| {
      NothingDue(fs, i + 1, v);
    }
  }

  /** Over a sorted listing, due are the first files of the distinct versions above the start. */
  lemma {:induction false} DueAreFirsts(dir: seq<File>, v: int, k: int)
    requires 0 <= k < |Listing(dir)|
    ensures var fs := Listing(dir);
            AllMigrations(fs)
            && (k in Due(fs, 0, v)
                <==> Version(fs[k].name) > v
                     && forall j :: 0 <= j < k ==> Version(fs[j].name) != Version(fs[k].name))
  {
    var fs := Listing(dir);
    ListingSorted(dir);
    DueAreRecords(fs, 0, v, k);
    forall j | 0 <= j < k ensures Version(fs[j].name) <= Version(fs[k].name) {
      ListingAscends(fs, j, k);
    }
  }

  /** After a successful open another one has nothing to run. */
  lemma {:induction false} SecondOpenRunsNothing(dir: seq<File>, v: int)
    ensures var fs := Listing(dir);
            AllMigrations(fs)
            && InRange(fs, Due(fs, 0, v))
            && Due(fs, 0, Reached(fs, Due(fs, 0, v), v)) == []
  {
    var fs := Listing(dir);
    ListingSorted(dir);
    ReachedIsLargest(fs, 0, v);
    NothingDue(fs, 0, Reached(fs, Due(fs, 0, v), v));
  }

  function Picked(fs: seq<File>, d: seq<nat>): (r: seq<File>)
    requires InRange(fs, d)
    ensures |r| == |d| && forall a :: 0 <= a < |d| ==> r[a] == fs[d[a]]
  {
    if d == [] then [] else Picked(fs, d[..|d| - 1]) + [fs[d[|d| - 1]]]
  }

  class Database {
    var schemaVersion: int
    var executed: seq<File>  // scripts run to completion, in order

    constructor (schemaVersion: int)
      ensures this.schemaVersion == schemaVersion && executed == []
    {
      this.schemaVersion, executed := schemaVersion, [];
    }

    /**
     `_apply_migrations`: runs a prefix `done` of what is due, all of it unless a script fails; the stored
     version is that of the last script that went through.
     */
    method ApplyMigrations(dir: seq<File>) returns (ok: bool, ghost done: nat)
      modifies this
      ensures var fs := Listing(dir);
              AllMigrations(fs)
              && var d := Due(fs, 0, old(schemaVersion));
                 && InRange(fs, d) && done <= |d|
                 && (ok <==> done == |d|)
                 && (forall a :: 0 <= a < done ==> fs[d[a]].works)
                 && (!ok ==> !fs[d[done]].works)
                 && executed == old(executed) + Picked(fs, d[..done])
                 && schemaVersion == Reached(fs, d[..done], old(schemaVersion))
    {
      ListingSorted(dir);
      ok, done := RunFiles(Listing(dir));
    }

    method RunFiles(fs: seq<File>) returns (ok: bool, ghost done: nat)
      requires AllMigrations(fs)
      modifies this
      ensures var d := Due(fs, 0, old(schemaVersion));
              && InRange(fs, d) && done <= |d|
              && (ok <==> done == |d|)
              && (forall a :: 0 <= a < done ==> fs[d[a]].works)
              && (!ok ==> !fs[d[done]].works)
              && executed == old(executed) + Picked(fs, d[..done])
              && schemaVersion == Reached(fs, d[..done], old(schemaVersion))
    {
      ghost var d := Due(fs, 0, schemaVersion);
      DueAscends(fs, 0, schemaVersion);
      done := 0;
      for i := 0 to |fs|
        invariant done <= |d| && d[done..] == Due(fs, i, schemaVersion)
        invariant forall a :: 0 <= a < done ==> fs[d[a]].works
        invariant executed == old(executed) + Picked(fs, d[..done])
        invariant schemaVersion == Reached(fs, d[..done], old(schemaVersion))
      {
        var version := Version(fs[i].name);
        if schemaVersion >= version { continue; }
        DueHead(d, done, Due(fs, i + 1, version), i);
        if !fs[i].works { return false, done; }
        executed := executed + [fs[i]];
        schemaVersion := version;
        done := done + 1;
      }
      ok := true;
    }
  }

  const INITIAL := File("001_initial.sql", true)

  /** A fresh database over the one shipped migration has exactly that to run, and ends at version 1. */
  lemma FreshRunsInitial()
    ensures Listing([INITIAL]) == [INITIAL] && AllMigrations([INITIAL])
    ensures Due([INITIAL], 0, 0) == [0] && Reached([INITIAL], [0], 0) == 1
  {
    var name := INITIAL.name;
    assert name == "001" + "_" + "initial" + ".sql";
    PatternAccepts("001", "initial");
    VersionIsWritten(name, 1);
    assert [INITIAL][..0] == [];
    assert Listing([INITIAL]) == InsertByName(INITIAL, Listing([INITIAL][..0]));
  }

  method OpenFresh() returns (db: Database, ok: bool)
    ensures ok && fresh(db) && db.executed == [INITIAL] && db.schemaVersion == 1
  {
    db := new Database(0);
    ghost var done;
    ok, done := db.ApplyMigrations([INITIAL]);
    FreshRunsInitial();
  }

  lemma DueHead(d: seq<nat>, done: nat, rest: seq<nat>, i: nat)
    requires done <= |d| && d[done..] == [i] + rest
    ensures done < |d| && d[done] == i && d[done + 1..] == rest
    ensures d[..done + 1][..done] == d[..done] && d[..done + 1][done] == i
  {
    assert d[done..][0] == d[done];
    assert d[done + 1..] == d[done..][1..];
  }
}
