/** The reconnecting WebSocket client (ha_adapter/ws_client.py) against a scripted server. */
module WsClient {
  import opened Prelude

  /** The values of a message's `type` that the client tells apart. */
  datatype Kind = KAuthRequired | KAuthOk | KAuthInvalid | KEvent | KOther(name: string)

  /** A received text: either no JSON object, or one with a type and a body. */
  datatype Frame<T> = Malformed | Msg(kind: Kind, body: T)

  /** What ends the stream of frames: the connection, or a stop request while waiting for more. */
  datatype End = Dropped | Stopped

  /**
   One turn of the reconnect loop as the outside world shapes it: whether the time budget is used up
   before it, whether the connection opens, which frames arrive, how many sends succeed, how it ends,
   and whether a stop request arrives in the wait after it.
   */
  datatype Session<T> = Session(
    timeUp: bool, connects: bool, incoming: seq<Frame<T>>, sends: nat, end: End, stopInWait: bool)

  /** The two values of `last_error_kind`: "auth-invalid" and "ws-disconnected". */
  datatype ErrorKind = AuthRefused | WsDisconnected

  datatype Exit = AuthInvalid | Failed | StopReturn

  /** Result of one connection attempt starting from message id n. */
  datatype Attempted<T> = Attempted(exit: Exit, events: seq<T>, ids: seq<int>, nextId: int, subscribed: bool)

  const SUBSCRIPTIONS := 4

  /** The ids the four subscriptions carry: one id is skipped after the first. */
  function SubscriptionId(n: int, i: nat): int {
    if i == 0 then n else n + i + 1
  }

  function SubscriptionIds(n: int, k: nat): (ids: seq<int>)
    ensures |ids| == k && forall i :: 0 <= i < k ==> ids[i] == SubscriptionId(n, i)
  {
    seq(k, i requires 0 <= i < k => SubscriptionId(n, i))
  }

  predicate KindIs<T>(frames: seq<Frame<T>>, i: nat, kind: Kind) {
    i < |frames| && frames[i].Msg? && frames[i].kind == kind
  }

  /** Bodies of the event messages before the first malformed frame. */
  function EventsIn<T>(frames: seq<Frame<T>>): seq<T> {
    if frames == [] || frames[0].Malformed? then []
    else (if frames[0].kind == KEvent then [frames[0].body] else []) + EventsIn(frames[1..])
  }

  predicate AllWellFormed<T>(frames: seq<Frame<T>>) {
    forall i :: 0 <= i < |frames| ==> frames[i].Msg?
  }

  function Attempt<T>(s: Session<T>, n: int): Attempted<T> {
    if !s.connects || !KindIs(s.incoming, 0, KAuthRequired) || s.sends == 0 then
      Attempted(Failed, [], [], n, false)
    else if KindIs(s.incoming, 1, KAuthInvalid) then
      Attempted(AuthInvalid, [], [], n, false)
    else if !KindIs(s.incoming, 1, KAuthOk) then
      Attempted(Failed, [], [], n, false)
    else if s.sends - 1 < SUBSCRIPTIONS then
      Attempted(Failed, [], SubscriptionIds(n, s.sends - 1), n + s.sends, false)
    else
      var rest := s.incoming[2..];
      Attempted(if AllWellFormed(rest) && s.end.Stopped? then StopReturn else Failed,
                EventsIn(rest), SubscriptionIds(n, SUBSCRIPTIONS), n + SUBSCRIPTIONS, true)
  }

  /** Within one connection the ids strictly increase and all lie in the range the counter moved over. */
  lemma IdsIncrease<T>(s: Session<T>, n: int)
    ensures var a := Attempt(s, n);
            && (forall i, j :: 0 <= i < j < |a.ids| ==> a.ids[i] < a.ids[j])
            && (forall i :: 0 <= i < |a.ids| ==> n <= a.ids[i] <= a.nextId)
  {
  }

  /** Across connections they do not: a full subscription's last id is the next connection's first. */
  lemma IdReusedAcrossConnections<T>(s: Session<T>, t: Session<T>, n: int)
    requires Attempt(s, n).subscribed && Attempt(t, Attempt(s, n).nextId).ids != []
    ensures var a := Attempt(s, n);
            a.ids[|a.ids| - 1] == Attempt(t, a.nextId).ids[0]
  {
  }

  /**
   Ids increase from one attempt to the next if and only if it is not the case that the first subscribed
   in full and the next sends any.
   */
  lemma {:induction false} IdsIncreaseAcrossExactly<T>(s: Session<T>, t: Session<T>, n: int)
    ensures var a := Attempt(s, n);
            var b := Attempt(t, a.nextId);
            (forall i, j :: 0 <= i < |a.ids| && 0 <= j < |b.ids| ==> a.ids[i] < b.ids[j])
            <==> !(a.subscribed && b.ids != [])
  {
    var a := Attempt(s, n);
    var b := Attempt(t, a.nextId);
    if a.subscribed && b.ids != [] {
      assert a.ids[|a.ids| - 1] == b.ids[0];
    }
  }

  /** An attempt ends other than by an exception only when a stop request is what ended it. */
  lemma ReturnsOnlyOnStop<T>(s: Session<T>, n: int)
    ensures Attempt(s, n).exit.StopReturn? ==> s.end.Stopped? && Attempt(s, n).subscribed
    ensures Attempt(s, n).events != [] ==> Attempt(s, n).subscribed
  {
  }

  // ---------- which sessions end how ----------

  /** The server asks for credentials and they are sent. */
  predicate Authenticates<T>(s: Session<T>) {
    && s.connects && s.sends >= 1
    && |s.incoming| >= 1 && s.incoming[0].Msg? && s.incoming[0].kind == KAuthRequired
  }

  /** The server refuses them. */
  predicate Refuses<T>(s: Session<T>) {
    Authenticates(s) && |s.incoming| >= 2 && s.incoming[1].Msg? && s.incoming[1].kind == KAuthInvalid
  }

  /** The server accepts them, and the four subscriptions are sent as well. */
  predicate Subscribes<T>(s: Session<T>) {
    && Authenticates(s) && s.sends >= 5
    && |s.incoming| >= 2 && s.incoming[1].Msg? && s.incoming[1].kind == KAuthOk
  }

  /** How an attempt ends, and whether it got to receive events, is decided by these shapes. */
  lemma AttemptExactly<T>(s: Session<T>, n: int)
    ensures var a := Attempt(s, n);
            && (a.exit.AuthInvalid? <==> Refuses(s))
            && (a.subscribed <==> Subscribes(s))
            && (a.exit.StopReturn? <==> Subscribes(s) && s.end.Stopped?
                                        && forall i :: 2 <= i < |s.incoming| ==> s.incoming[i].Msg?)
            && (a.exit.Failed? <==> !a.exit.AuthInvalid? && !a.exit.StopReturn?)
            && (!Subscribes(s) ==> a.events == [] && n <= a.nextId <= n + 4 && a.ids <= [n, n + 2, n + 3])
            && (Subscribes(s) ==>
                  a.events == EventsIn(s.incoming[2..]) && a.ids == [n, n + 2, n + 3, n + 4] && a.nextId == n + 4)
  {
    if |s.incoming| >= 2 {
      assert forall i :: 2 <= i < |s.incoming| ==> s.incoming[i] == s.incoming[2..][i - 2];
    }
  }

  /** What is delivered of one frame, of a malformed one and what follows, and of well-formed frames and what follows. */
  lemma {:induction false} EventsInAre<T>(frames: seq<Frame<T>>, rest: seq<Frame<T>>, kind: Kind, body: T)
    ensures EventsIn([Msg(kind, body)]) == if kind == KEvent then [body] else []
    ensures EventsIn([Malformed] + rest) == []
    ensures (forall i :: 0 <= i < |frames| ==> frames[i].Msg?)
            ==> EventsIn(frames + rest) == EventsIn(frames) + EventsIn(rest)
  {
    if frames == [] {
      assert frames + rest == rest;
    } else {
      assert (frames + rest)[1..] == frames[1..] + rest;
      EventsInAre(frames[1..], rest, kind, body);
    }
  }

  // ---------- the delay sequence ----------

  function Doubled(initial: real, k: nat): real {
    if k == 0 then initial else 2.0 * Doubled(initial, k - 1)
  }

  function Min(a: real, b: real): real {
    if a <= b then a else b
  }

  /** The k-th wait: the first is the initial delay as it is, each later one doubles up to the cap. */
  function Wait(initial: real, max: real, k: nat): real {
    if k == 0 then initial else Min(max, Wait(initial, max, k - 1) * 2.0)
  }

  /** For 0 < initial <= max every wait is min(max, initial * 2^k), and waits never shrink. */
  lemma {:induction false} WaitsGrow(initial: real, max: real, k: nat)
    requires 0.0 < initial <= max
    ensures Wait(initial, max, k) == Min(max, Doubled(initial, k))
    ensures Doubled(initial, k) > 0.0
    ensures Wait(initial, max, k) <= Wait(initial, max, k + 1) <= max
  {
    if k > 0 {
      WaitsGrow(initial, max, k - 1);
    }
  }

  /** Every wait respects the cap if and only if the first does: the initial delay itself is never capped. */
  lemma {:induction false} WaitsCappedIff(initial: real, max: real)
    ensures (forall k: nat :: Wait(initial, max, k) <= max) <==> initial <= max
  {
    assert Wait(initial, max, 0) == initial;
  }

  /** With the default delays of one second and a minute. */
  lemma {:induction false} DefaultWaits(k: nat)
    ensures Wait(1.0, 60.0, 0) == 1.0 && Wait(1.0, 60.0, 1) == 2.0 && Wait(1.0, 60.0, 2) == 4.0
    ensures Wait(1.0, 60.0, 3) == 8.0 && Wait(1.0, 60.0, 4) == 16.0 && Wait(1.0, 60.0, 5) == 32.0
    ensures k >= 6 ==> Wait(1.0, 60.0, k) == 60.0
  {
    assert Wait(1.0, 60.0, 3) == 8.0;
    assert Wait(1.0, 60.0, 5) == 32.0;
    if k > 6 {
      DefaultWaits(k - 1);
    }
  }

  // ---------- whole runs ----------

  /** Ghost record of a run: the attempts made, in order, each going on with the id counter of the one before. */
  ghost predicate Chained<T>(sessions: seq<Session<T>>, made: seq<Attempted<T>>, n0: int) {
    |made| <= |sessions| &&
    (made == [] ||
     var n := |made| - 1;
     Chained(sessions, made[..n], n0) && made[n] == Attempt(sessions[n], IdAfter(made[..n], n0)))
  }

  function AllEvents<T>(made: seq<Attempted<T>>): seq<T> {
    if made == [] then [] else AllEvents(made[..|made| - 1]) + made[|made| - 1].events
  }

  function IdAfter<T>(made: seq<Attempted<T>>, n0: int): int {
    if made == [] then n0 else made[|made| - 1].nextId
  }

  predicate AllFailed<T>(made: seq<Attempted<T>>) {
    forall i :: 0 <= i < |made| ==> made[i].exit.Failed?
  }

  predicate FailedBeforeLast<T>(made: seq<Attempted<T>>) {
    forall i :: 0 <= i < |made| - 1 ==> made[i].exit.Failed?
  }

  predicate LastExitIs<T>(made: seq<Attempted<T>>, exit: Exit) {
    made != [] && made[|made| - 1].exit == exit
  }

  ghost predicate DoublingWaits(waits: seq<real>, initial: real, max: real) {
    forall k :: 0 <= k < |waits| ==> waits[k] == Wait(initial, max, k)
  }

  /** n attempts were made one after the other: the time budget lasted, and no wait between them was cut short. */
  predicate WentOn<T>(sessions: seq<Session<T>>, n: nat) {
    n <= |sessions|
    && (forall i :: 0 <= i < n ==> !sessions[i].timeUp)
    && (forall i :: 0 <= i < n - 1 ==> !sessions[i].stopInWait)
  }

  /** Of these attempts exactly the last, if any, met a session that refuses the credentials. */
  predicate RefusedOnlyLast<T>(sessions: seq<Session<T>>, n: nat, refused: bool)
    requires n <= |sessions|
  {
    forall i :: 0 <= i < n ==> (Refuses(sessions[i]) <==> refused && i == n - 1)
  }

  /** Every attempt on record is that of its session. */
  lemma {:induction false} ChainedAt<T>(sessions: seq<Session<T>>, made: seq<Attempted<T>>, n0: int, i: nat)
    requires Chained(sessions, made, n0) && i < |made|
    ensures made[i] == Attempt(sessions[i], IdAfter(made[..i], n0))
    decreases |made|
  {
    var n := |made| - 1;
    if i < n {
      ChainedAt(sessions, made[..n], n0, i);
      assert made[..n][..i] == made[..i];
    }
  }

  lemma RefusalEnds<T>(sessions: seq<Session<T>>, made: seq<Attempted<T>>, n0: int)
    requires Chained(sessions, made, n0) && FailedBeforeLast(made)
    ensures RefusedOnlyLast(sessions, |made|, LastExitIs(made, AuthInvalid))
  {
    forall i | 0 <= i < |made| ensures Refuses(sessions[i]) <==> made[i].exit.AuthInvalid? {
      ChainedAt(sessions, made, n0, i);
      AttemptExactly(sessions[i], IdAfter(made[..i], n0));
    }
  }

  lemma WentOnNext<T>(sessions: seq<Session<T>>, n: nat)
    requires WentOn(sessions, n) && n < |sessions| && !sessions[n].timeUp && (n > 0 ==> !sessions[n - 1].stopInWait)
    ensures WentOn(sessions, n + 1)
  {
  }

  lemma WaitsNext(waits: seq<real>, initial: real, max: real)
    requires DoublingWaits(waits, initial, max)
    ensures DoublingWaits(waits + [Wait(initial, max, |waits|)], initial, max)
  {
  }

  /** What ends a run before its script: the time budget, a stop during a session or a wait, or refused credentials. */
  predicate Over<T>(sessions: seq<Session<T>>, made: seq<Attempted<T>>)
    requires |made| < |sessions|
  {
    || sessions[|made|].timeUp
    || (made != [] && (!made[|made| - 1].exit.Failed? || sessions[|made| - 1].stopInWait))
  }

  lemma ChainedNext<T>(sessions: seq<Session<T>>, made: seq<Attempted<T>>, n0: int) returns (more: seq<Attempted<T>>)
    requires Chained(sessions, made, n0) && |made| < |sessions|
    ensures Chained(sessions, more, n0)
    ensures var a := Attempt(sessions[|made|], IdAfter(made, n0));
            && |more| == |made| + 1 && more[..|made|] == made && more[|made|] == a
            && AllEvents(more) == AllEvents(made) + a.events
  {
    more := made + [Attempt(sessions[|made|], IdAfter(made, n0))];
    assert more[..|made|] == made;
  }

  class HAWSClient<T> {
    const initialBackoff: real
    const maxBackoff: real
    var nextId: int
    var disconnectCount: int
    var lastErrorKind: Option<ErrorKind>
    var connected: bool
    var stopped: bool      // the stop event
    var delivered: seq<T>  // arguments of the on_event calls, in order

    /** Between runs only a stopped client still carries the connected flag. */
    ghost predicate Valid()
      reads this
    {
      connected ==> stopped
    }

    constructor (initialBackoff: real, maxBackoff: real)
      ensures this.initialBackoff == initialBackoff && this.maxBackoff == maxBackoff
      ensures nextId == 1 && disconnectCount == 0 && lastErrorKind.None? && !connected && delivered == []
      ensures Valid() && !stopped
    {
      this.initialBackoff, this.maxBackoff := initialBackoff, maxBackoff;
      nextId, disconnectCount, lastErrorKind, connected, delivered := 1, 0, None, false, [];
      stopped := false;
    }

    method Stop()
      requires Valid()
      modifies this`stopped
      ensures Valid() && stopped
    {
      stopped := true;
    }

    /** `_connect_and_loop`; exceptions and the plain return are the three exits. */
    method ConnectAndLoop(s: Session<T>) returns (exit: Exit, ids: seq<int>)
      modifies this`nextId, this`connected, this`delivered
      ensures var a := Attempt(s, old(nextId));
              && exit == a.exit && ids == a.ids && nextId == a.nextId
              && delivered == old(delivered) + a.events
              && connected == (old(connected) || a.subscribed)
    {
      ids := [];
      if !s.connects || !KindIs(s.incoming, 0, KAuthRequired) || s.sends == 0 { return Failed, ids; }
      if KindIs(s.incoming, 1, KAuthInvalid) { return AuthInvalid, ids; }
      if !KindIs(s.incoming, 1, KAuthOk) { return Failed, ids; }
      var all;
      all, ids := SendSubscriptions(s.sends - 1);
      if !all { return Failed, ids; }
      connected := true;
      var clean := ReadFrames(s.incoming[2..]);
      exit := if clean && s.end.Stopped? then StopReturn else Failed;
    }

    /** The four subscription messages; send number `sends` raises if it comes to that. */
    method SendSubscriptions(sends: nat) returns (all: bool, ids: seq<int>)
      modifies this`nextId
      ensures all <==> sends >= SUBSCRIPTIONS
      ensures ids == SubscriptionIds(old(nextId), if all then SUBSCRIPTIONS else sends)
      ensures nextId == old(nextId) + if all then SUBSCRIPTIONS else sends + 1
    {
      var subId := nextId;
      ids := [];
      nextId := nextId + 1;
      if sends < 1 { return false, ids; }
      ids := ids + [subId];
      for kind := 1 to SUBSCRIPTIONS
        invariant ids == SubscriptionIds(old(nextId), kind) && nextId == old(nextId) + kind && kind <= sends
      {
        nextId := nextId + 1;
        if sends < kind + 1 { return false, ids; }
        ids := ids + [nextId];
      }
      all := true;
    }

    /** The receive loop up to the first malformed frame; what `on_event` raises is swallowed. */
    method ReadFrames(frames: seq<Frame<T>>) returns (clean: bool)
      modifies this`delivered
      ensures delivered == old(delivered) + EventsIn(frames)
      ensures clean <==> AllWellFormed(frames)
    {
      var i := 0;
      assert frames[0..] == frames;
      while i < |frames|
        invariant 0 <= i <= |frames|
        invariant AllWellFormed(frames[..i])
        invariant old(delivered) + EventsIn(frames) == delivered + EventsIn(frames[i..])
      {
        if frames[i].Malformed? { return false; }
        if frames[i].kind == KEvent {
          delivered := delivered + [frames[i].body];
        }
        assert frames[i..][1..] == frames[i + 1..];
        assert frames[..i + 1] == frames[..i] + [frames[i]];
        i := i + 1;
      }
      assert frames[..i] == frames;
      clean := true;
    }

    /** One attempt of `run` with its exception handlers, added to the record. */
    method Turn(ghost sessions: seq<Session<T>>, s: Session<T>, ghost made: seq<Attempted<T>>, ghost n0: int)
      returns (exit: Exit, ghost more: seq<Attempted<T>>)
      requires |made| < |sessions| && s == sessions[|made|] && Chained(sessions, made, n0)
      requires nextId == IdAfter(made, n0) && !connected
      modifies this`nextId, this`connected, this`delivered, this`disconnectCount, this`lastErrorKind
      ensures Chained(sessions, more, n0) && nextId == IdAfter(more, n0)
      ensures |more| == |made| + 1 && more[..|made|] == made && LastExitIs(more, exit)
      ensures delivered == old(delivered) + more[|made|].events
      ensures AllEvents(more) == AllEvents(made) + more[|made|].events
      ensures AllFailed(made) ==> FailedBeforeLast(more) && (exit.Failed? ==> AllFailed(more))
      ensures (exit.AuthInvalid? <==> Refuses(s)) && (connected <==> exit.StopReturn?)
      ensures disconnectCount == old(disconnectCount) + if exit.Failed? then 1 else 0
      ensures lastErrorKind == if exit.Failed? then Some(WsDisconnected)
                               else if exit.AuthInvalid? then Some(AuthRefused) else old(lastErrorKind)
    {
      more := ChainedNext(sessions, made, n0);
      var ids;
      exit, ids := ConnectAndLoop(s);
      AttemptExactly(s, IdAfter(made, n0));
      assert forall i :: 0 <= i < |made| ==> more[i] == more[..|made|][i];
      match exit
      case StopReturn =>
      case AuthInvalid =>
        lastErrorKind := Some(AuthRefused);
      case Failed =>
        lastErrorKind, connected := Some(WsDisconnected), false;
        disconnectCount := disconnectCount + 1;
    }

    /** The loop of `run`: when the script is used up the run is simply unfinished. */
    method Reconnect(sessions: seq<Session<T>>) returns (waits: seq<real>, ghost made: seq<Attempted<T>>)
      requires Valid()
      modifies this
      ensures Valid() && |made| <= |sessions|
      ensures old(stopped) ==> made == [] && connected == old(connected)
      ensures Chained(sessions, made, old(nextId))
      ensures DoublingWaits(waits, initialBackoff, maxBackoff)
      ensures WentOn(sessions, |made|) && (|made| < |sessions| ==> old(stopped) || Over(sessions, made))
      ensures FailedBeforeLast(made)
      ensures |waits| == |made| - (if LastExitIs(made, Failed) || made == [] then 0 else 1)
      ensures disconnectCount == old(disconnectCount) + |waits|
      ensures LastExitIs(made, AuthInvalid) ==> lastErrorKind == Some(AuthRefused)
      ensures LastExitIs(made, Failed) ==> lastErrorKind == Some(WsDisconnected)
      ensures delivered == old(delivered) + AllEvents(made)
      ensures !old(stopped) ==> (connected <==> LastExitIs(made, StopReturn))
      ensures stopped <==> old(stopped) || LastExitIs(made, StopReturn)
                           || (LastExitIs(made, Failed) && sessions[|made| - 1].stopInWait)
    {
      var backoff := initialBackoff;
      waits, made := [], [];
      var turn := 0;
      while !stopped && turn < |sessions|
        invariant stopped == old(stopped)
        invariant turn == |made| == |waits| <= |sessions|
        invariant Chained(sessions, made, old(nextId)) && nextId == IdAfter(made, old(nextId))
        invariant backoff == Wait(initialBackoff, maxBackoff, |waits|)
        invariant DoublingWaits(waits, initialBackoff, maxBackoff)
        invariant AllFailed(made) && WentOn(sessions, |made|)
        invariant made != [] ==> !sessions[|made| - 1].stopInWait
        invariant disconnectCount == old(disconnectCount) + |waits|
        invariant made != [] ==> lastErrorKind == Some(WsDisconnected)
        invariant delivered == old(delivered) + AllEvents(made)
        invariant if stopped then made == [] && connected == old(connected) else !connected
      {
        if sessions[turn].timeUp { return; }
        WentOnNext(sessions, turn);
        var exit;
        exit, made := Turn(sessions, sessions[turn], made, old(nextId));
        if exit.StopReturn? {
          backoff, stopped := initialBackoff, true;
          return;
        }
        if exit.AuthInvalid? { return; }
        WaitsNext(waits, initialBackoff, maxBackoff);
        waits := waits + [backoff];
        if sessions[turn].stopInWait {
          stopped := true;
          return;
        }
        backoff := Min(maxBackoff, backoff * 2.0);
        turn := turn + 1;
      }
    }

    /**
     `run`, over any sequence of sessions; when the script is used up the run is simply unfinished.
     Every failure is followed by exactly one wait, so the waits number the failures.
     */
    method Run(sessions: seq<Session<T>>) returns (waits: seq<real>, ghost made: seq<Attempted<T>>)
      requires Valid()
      modifies this
      ensures Valid() && |made| <= |sessions|
      // a session that refuses the credentials is the last one attempted, and is what the run reports
      ensures RefusedOnlyLast(sessions, |made|, LastExitIs(made, AuthInvalid))
      // a stopped client does nothing
      ensures old(stopped) ==> made == [] && connected == old(connected)
      ensures Chained(sessions, made, old(nextId))
      // delays double up to the cap and never restart, whatever the sessions delivered
      ensures DoublingWaits(waits, initialBackoff, maxBackoff)
      // it goes on until the time is up, a stop is requested or the credentials are refused, and no longer
      ensures WentOn(sessions, |made|) && (|made| < |sessions| ==> old(stopped) || Over(sessions, made))
      // only failures are followed by another attempt
      ensures FailedBeforeLast(made)
      ensures |waits| == |made| - (if LastExitIs(made, Failed) || made == [] then 0 else 1)
      ensures disconnectCount == old(disconnectCount) + |waits|
      ensures LastExitIs(made, AuthInvalid) ==> lastErrorKind == Some(AuthRefused)
      ensures LastExitIs(made, Failed) ==> lastErrorKind == Some(WsDisconnected)
      // on_event has seen exactly the event messages of subscribed sessions, in order
      ensures delivered == old(delivered) + AllEvents(made)
      ensures !old(stopped) ==> (connected <==> LastExitIs(made, StopReturn))
      ensures stopped <==> old(stopped) || LastExitIs(made, StopReturn)
                           || (LastExitIs(made, Failed) && sessions[|made| - 1].stopInWait)
    {
      waits, made := Reconnect(sessions);
      RefusalEnds(sessions, made, old(nextId));
    }
  }
}
