/** Hide patterns (privacy/hide_matcher.py). A compiled pattern is the predicate of its full matches. */
module Privacy {
  import opened Prelude

  type Pattern = string -> bool
  type Matcher = seq<Pattern>

  /** `any(c.fullmatch(entity_id) for c in self._compiled)`. */
  predicate Matches(m: Matcher, id: string) {
    exists i :: 0 <= i < |m| && m[i](id)
  }

  ghost predicate HidesAtLeast(m: Matcher, base: Matcher) {
    forall id :: Matches(base, id) ==> Matches(m, id)
  }

  /** Adding patterns, in any positions, can only hide more. */
  lemma MorePatternsHideMore(m: Matcher, base: Matcher)
    requires forall i :: 0 <= i < |base| ==> exists j :: 0 <= j < |m| && m[j] == base[i]
    ensures HidesAtLeast(m, base)
  {
    forall id | Matches(base, id) ensures Matches(m, id) {
      var i :| 0 <= i < |base| && base[i](id);
      var j :| 0 <= j < |m| && m[j] == base[i];
      assert m[j](id);
    }
  }

  /** The constructor: the first risky or malformed pattern raises, and no matcher results. */
  method CompileAll(patterns: seq<string>, risky: string -> bool, compile: string -> Option<Pattern>)
    returns (m: Option<Matcher>)
    ensures m.Some? <==> forall i :: 0 <= i < |patterns| ==> !risky(patterns[i]) && compile(patterns[i]).Some?
    ensures m.Some? ==>
              forall id :: Matches(m.value, id)
                           <==> exists i :: 0 <= i < |patterns| && compile(patterns[i]).Some?
                                            && compile(patterns[i]).value(id)
  {
    var compiled: Matcher := [];
    for i := 0 to |patterns|
      invariant |compiled| == i
      invariant forall j :: 0 <= j < i ==>
                  !risky(patterns[j]) && compile(patterns[j]).Some? && compiled[j] == compile(patterns[j]).value
    {
      if risky(patterns[i]) { return None; }
      var c := compile(patterns[i]);
      if c.None? { return None; }
      compiled := compiled + [c.value];
    }
    m := Some(compiled);
    forall id
      ensures Matches(compiled, id)
              <==> exists i :: 0 <= i < |patterns| && compile(patterns[i]).Some? && compile(patterns[i]).value(id)
    {
      if i :| 0 <= i < |patterns| && compile(patterns[i]).Some? && compile(patterns[i]).value(id) {
        assert compiled[i](id);
      }
    }
  }
}
