/** The daily-rotating JSONL archive (archive/jsonl_writer.py): buffered handles over one file a day. */
module Archive {
  import opened Prelude

  const DAY_MS := 86_400_000

  /** The UTC day of a timestamp. */
  function DayOf(ts: int): int {
    ts / DAY_MS
  }

  /** A day is 86 400 000 ms, for times before the epoch too. */
  lemma DayIs(ts: int, d: int)
    ensures DayOf(ts) == d <==> d * 86_400_000 <= ts < (d + 1) * 86_400_000
  {
  }

  // ---------- lines and text ----------

  const NEWLINE := "\n"

  function Join(lines: seq<string>): string {
    if lines == [] then "" else Join(lines[..|lines| - 1]) + lines[|lines| - 1] + NEWLINE
  }

  /** Splitting a text on newlines; a final newline does not start another line. */
  function Split(text: string): seq<string> {
    if text == "" then []
    else
      var rest := Split(text[1..]);
      if text[0] == '\n' then [""] + rest
      else if rest == [] then [[text[0]]]
      else [[text[0]] + rest[0]] + rest[1..]
  }

  predicate Complete(text: string) {
    text == "" || text[|text| - 1] == '\n'
  }

  lemma {:induction false} JoinComplete(lines: seq<string>)
    ensures Complete(Join(lines))
  {
  }

  lemma {:induction false} SplitLine(line: string)
    requires '\n' !in line
    ensures Split(line + NEWLINE) == [line]
  {
    if line == "" {
      assert line + NEWLINE == NEWLINE && Split(NEWLINE[1..]) == [];
    } else {
      assert (line + NEWLINE)[1..] == line[1..] + NEWLINE;
      SplitLine(line[1..]);
      assert [line[0]] + line[1..] == line;
    }
  }

  lemma {:induction false} SplitConcat(a: string, b: string)
    requires Complete(a)
    ensures Split(a + b) == Split(a) + Split(b)
  {
    if a == "" {
      assert a + b == b;
    } else {
      assert (a + b)[1..] == a[1..] + b;
      SplitConcat(a[1..], b);
      if a[0] != '\n' {
        assert a[1..] != "" && Split(a[1..]) != [];
      }
    }
  }

  lemma {:induction false} PiecesHaveNoNewline(text: string)
    ensures forall i :: 0 <= i < |Split(text)| ==> '\n' !in Split(text)[i]
  {
    if text != "" {
      PiecesHaveNoNewline(text[1..]);
    }
  }

  lemma {:induction false} SplitJoined(lines: seq<string>)
    requires forall i :: 0 <= i < |lines| ==> '\n' !in lines[i]
    ensures Split(Join(lines)) == lines
  {
    if lines != [] {
      var n := |lines| - 1;
      SplitJoined(lines[..n]);
      JoinComplete(lines[..n]);
      var front := Join(lines[..n]);
      assert Join(lines) == front + (lines[n] + NEWLINE);
      SplitConcat(front, lines[n] + NEWLINE);
      SplitLine(lines[n]);
      assert lines[..n] + [lines[n]] == lines;
    }
  }

  /** Reading a file back by lines returns its records if and only if no encoded record has a newline. */
  lemma {:induction false} RoundTripExactly(lines: seq<string>)
    ensures Split(Join(lines)) == lines <==> forall i :: 0 <= i < |lines| ==> '\n' !in lines[i]
  {
    PiecesHaveNoNewline(Join(lines));
    if forall i :: 0 <= i < |lines| ==> '\n' !in lines[i] {
      SplitJoined(lines);
    }
  }

  // ---------- the writer ----------

  /** An encoded record and the day it belongs to. */
  datatype Record = Record(day: int, line: string)

  /** The lines of one day, in append order. */
  function LinesOf(history: seq<Record>, day: int): seq<string> {
    if history == [] then []
    else
      var r := history[|history| - 1];
      LinesOf(history[..|history| - 1], day) + if r.day == day then [r.line] else []
  }

  lemma LinesOfNext(history: seq<Record>, r: Record, day: int)
    ensures LinesOf(history + [r], day) == if r.day == day then LinesOf(history, day) + [r.line] else LinesOf(history, day)
  {
    assert (history + [r])[..|history|] == history;
  }

  /** An open file: which one, and what it has been given but not yet written out. */
  datatype Handle = Handle(serial: nat, day: int, pending: string)

  function Content(disk: map<int, string>, day: int): string {
    if day in disk then disk[day] else ""
  }

  class JsonlWriter {
    var disk: map<int, string>
    var currentDay: Option<int>
    var handle: Option<Handle>
    var nextSerial: nat

    ghost var base: map<int, string>  // the files as this writer found them
    ghost var history: seq<Record>    // the records appended since
    ghost var open: set<nat>          // serial numbers of the handles open

    function Unwritten(day: int): string
      reads this
    {
      if handle.Some? && handle.value.day == day then handle.value.pending else ""
    }

    /** What a day's file holds once everything handed over has been written out. */
    ghost predicate Holds(day: int)
      reads this
    {
      Content(disk, day) + Unwritten(day) == Content(base, day) + Join(LinesOf(history, day))
    }

    ghost predicate Valid()
      reads this
    {
      && (handle.None? <==> currentDay.None?)
      && (handle.Some? ==> currentDay == Some(handle.value.day) && handle.value.serial < nextSerial)
      && open == (if handle.Some? then {handle.value.serial} else {})
      && forall day :: Holds(day)
    }

    constructor (disk: map<int, string>)
      ensures Valid() && this.disk == disk && base == disk && history == [] && open == {}
    {
      this.disk, base := disk, disk;
      currentDay, handle, nextSerial, history, open := None, None, 0, [], {};
    }

    /** Closing writes out what is pending. */
    method CloseHandle()
      requires Valid() && handle.Some?
      modifies this
      ensures open == {} && handle.None? && currentDay.None? && Valid()
      ensures base == old(base) && history == old(history) && nextSerial == old(nextSerial)
    {
      WriteOut();
      open := open - {handle.value.serial};
      handle, currentDay := None, None;
      forall day ensures Holds(day) {
        assert Unwritten(day) == "" && Content(disk, day) + "" == Content(disk, day);
      }
    }

    method WriteOut()
      requires Valid() && handle.Some?
      modifies this`disk, this`handle
      ensures Valid() && handle == Some(old(handle).value.(pending := ""))
      ensures forall day :: Content(disk, day) == Content(base, day) + Join(LinesOf(history, day))
    {
      var h := handle.value;
      disk := disk[h.day := Content(disk, h.day) + h.pending];
      handle := Some(h.(pending := ""));
      forall day ensures Holds(day) {
        assert old(Holds(day));
        assert Content(disk, day) + "" == Content(disk, day);
      }
      AllWritten();
    }

    /** With nothing pending, the files are exactly what was appended to them. */
    lemma AllWritten()
      requires Valid() && (handle.Some? ==> handle.value.pending == "")
      ensures forall day :: Content(disk, day) == Content(base, day) + Join(LinesOf(history, day))
    {
      forall day ensures Content(disk, day) == Content(base, day) + Join(LinesOf(history, day)) {
        assert Holds(day);
        assert Content(disk, day) + "" == Content(disk, day);
      }
    }

    /** `_ensure_day`: keep the handle if it is that day's, else close it and open the day's file to append. */
    method EnsureDay(day: int)
      requires Valid()
      modifies this
      ensures Valid() && currentDay == Some(day) && handle.Some?
      ensures base == old(base) && history == old(history)
      ensures old(handle).Some? && old(handle).value.day == day ==> handle == old(handle) && disk == old(disk)
    {
      if currentDay == Some(day) && handle.Some? { return; }
      if handle.Some? {
        CloseHandle();
      }
      label closed:
      disk := disk[day := Content(disk, day)];
      handle := Some(Handle(nextSerial, day, ""));
      open := open + {nextSerial};
      nextSerial := nextSerial + 1;
      currentDay := Some(day);
      forall d ensures Holds(d) {
        assert old@closed(Holds(d));
      }
    }

    /** `append`; the stream may write out any `spill` leading characters of what it holds at once. */
    method Append(line: string, ts: int, spill: nat)
      requires Valid()
      modifies this
      ensures Valid() && history == old(history) + [Record(DayOf(ts), line)] && base == old(base)
      ensures currentDay == Some(DayOf(ts)) && |open| == 1
    {
      EnsureDay(DayOf(ts));
      WriteLine(line, spill);
    }

    method WriteLine(line: string, spill: nat)
      requires Valid() && handle.Some?
      modifies this
      ensures Valid() && history == old(history) + [Record(old(handle).value.day, line)] && base == old(base)
      ensures currentDay == old(currentDay) && open == old(open)
    {
      var h := handle.value;
      var out, kept := Cut(h.pending + line + NEWLINE, spill);
      ghost var d0, h0, c0 := disk, history, Content(disk, h.day);
      assert Holds(h.day);
      Appended(c0, h.pending, line, Content(base, h.day), LinesOf(history, h.day), out, kept);
      disk := disk[h.day := Content(disk, h.day) + out];
      handle := Some(h.(pending := kept));
      history := history + [Record(h.day, line)];
      assert Content(disk, h.day) == c0 + out && Unwritten(h.day) == kept;
      LinesOfNext(h0, Record(h.day, line), h.day);
      assert Holds(h.day);
      forall d | d != h.day ensures Holds(d) {
        assert old(Holds(d));
        assert Content(disk, d) == Content(d0, d);
        LinesOfNext(h0, Record(h.day, line), d);
      }
    }

    method FlushFile()
      requires Valid()
      modifies this
      ensures Valid() && history == old(history) && base == old(base)
      ensures currentDay == old(currentDay) && open == old(open)
      // every file is now exactly what was appended to it
      ensures forall day :: Content(disk, day) == Content(base, day) + Join(LinesOf(history, day))
    {
      if handle.Some? {
        WriteOut();
      }
      AllWritten();
    }

    method Close()
      requires Valid()
      modifies this
      ensures Valid() && history == old(history) && base == old(base)
      ensures handle.None? && currentDay.None? && open == {}
      ensures forall day :: Content(disk, day) == Content(base, day) + Join(LinesOf(history, day))
    {
      if handle.Some? {
        CloseHandle();
      }
      AllWritten();
    }
  }

  /** Splitting a day's text anywhere between file and buffer changes nothing. */
  lemma Appended(file: string, pending: string, line: string, found: string, lines: seq<string>, out: string, kept: string)
    requires file + pending == found + Join(lines) && out + kept == pending + line + NEWLINE
    ensures (file + out) + kept == found + Join(lines + [line])
  {
    assert (file + out) + kept == file + (out + kept);
    assert file + (pending + line + NEWLINE) == (file + pending) + line + NEWLINE;
    assert (lines + [line])[..|lines|] == lines;
    assert found + Join(lines) + line + NEWLINE == found + (Join(lines) + line + NEWLINE);
  }

  /** The stream writes out some leading part of what it holds. */
  method Cut(text: string, spill: nat) returns (out: string, kept: string)
    ensures out + kept == text
  {
    var n := if spill <= |text| then spill else |text|;
    out, kept := text[..n], text[n..];
  }

  /**
   What can be on disk at any moment, a crash included: of each day's text a prefix, complete for every
   day but the current one.
   */
  lemma DiskHoldsPrefixes(w: JsonlWriter, day: int)
    requires w.Valid()
    ensures Content(w.disk, day) <= Content(w.base, day) + Join(LinesOf(w.history, day))
    ensures w.currentDay != Some(day) ==>
              Content(w.disk, day) == Content(w.base, day) + Join(LinesOf(w.history, day))
  {
    assert w.Holds(day);
    assert Content(w.disk, day) + "" == Content(w.disk, day);
  }
}
