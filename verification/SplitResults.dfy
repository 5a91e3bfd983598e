/** Folding the results of the parts of a split message into one outcome (gw/bb_smscconn.c and
    gw/smscconn.c): the sending loop and the result callbacks of the driver, interleaved. */
module SplitResults {

  const SUCCESS := 0
  const FAILED_SHUTDOWN := 2
  const FAILED_REJECTED := 3
  const FAILED_MALFORMED := 4
  const FAILED_TEMPORARILY := 5
  const FAILED_DISCARDED := 6

  /** The result codes of a connection; those without a name here are treated alike. */
  type Reason = r: int | 0 <= r <= 8

  predicate Hard(r: Reason) { r == FAILED_DISCARDED || r == FAILED_REJECTED || r == FAILED_MALFORMED }

  // ----- the status of the split

  /** A hard reason always wins; any other failure only if nothing failed before. */
  function Merge(status: Reason, reason: Reason): Reason {
    if Hard(reason) then reason
    else if reason == SUCCESS then status
    else if status == SUCCESS then reason else status
  }

  function Fold(log: seq<Reason>): Reason {
    if log == [] then SUCCESS else Merge(Fold(log[..|log| - 1]), log[|log| - 1])
  }

  predicate AllSucceeded(log: seq<Reason>) { forall r :: r in log ==> r == SUCCESS }

  predicate SomeHard(log: seq<Reason>) { exists r :: r in log && Hard(r) }

  /** Success means that everything succeeded; a hard reason anywhere makes the status hard; and a
      failed status is one of the reasons. */
  lemma {:induction false} FoldMeaning(log: seq<Reason>)
    ensures Fold(log) == SUCCESS <==> AllSucceeded(log)
    ensures Hard(Fold(log)) <==> SomeHard(log)
    ensures Fold(log) != SUCCESS ==> Fold(log) in log
  {
    if log != [] {
      var front, last := log[..|log| - 1], log[|log| - 1];
      FoldMeaning(front);
      assert log == front + [last];
      assert forall r :: r in log <==> r in front || r == last;
      assert AllSucceeded(log) <==> AllSucceeded(front) && last == SUCCESS by {
        if AllSucceeded(log) {
          assert last in log;
          forall r | r in front ensures r == SUCCESS { assert r in log; }
        }
      }
      assert SomeHard(log) <==> SomeHard(front) || Hard(last);
    }
  }

  // ----- the protocol

  /** A part: not yet given to the driver, with the driver, waiting for a retry, or done. */
  datatype Part = Unsent | Out(tries: int) | Waiting(tries: int) | Gone(reason: Reason)

  /** The sending loop: about to send part `i`; all sent; part `i` refused and the status set; the
      count corrected too; or the very first part refused, so that no split exists. */
  datatype Loop = Sending(i: nat) | AllSent | Marked(i: nat) | Cut(i: nat) | Abandoned

  /** `first` is the retry count of the original message, with which every part starts, `log` every reason
      that was merged into the status, `finals` the outcomes reported for the original message, `late`
      whether a part finished after the count was corrected. */
  datatype State = State(first: int, parts: seq<Part>, loop: Loop, status: Reason, left: nat, log: seq<Reason>,
                         finals: seq<Reason>, late: bool)

  function Init(n: nat, first: int): State {
    State(first, seq(n, _ => Unsent), Sending(0), SUCCESS, n, [], [], false)
  }

  datatype Event =
    | SendStep(ok: bool)                                // next statement of the sending loop
    | Result(p: nat, reason: Reason, active: bool)      // driver callback for a part
    | Retry(p: nat)                                     // the router gives a waiting part to the driver again

  /** counter_decrease returns the value before and stops at zero. */
  function Decreased(n: nat): nat { if n > 0 then n - 1 else 0 }

  /** A part is finished; the last one reports the outcome. */
  function Finish(s: State, p: nat, reason: Reason): State
    requires p < |s.parts|
  {
    var status := Merge(s.status, reason);
    var s' := s.(parts := s.parts[p := Gone(reason)], status := status, left := Decreased(s.left),
                 log := s.log + [reason], late := s.late || s.loop.Cut?);
    if s.left <= 1 then s'.(finals := s.finals + [status]) else s'
  }

  /** handle_split. `limit` is the configured number of retries, negative for no limit. */
  function HandleSplit(s: State, p: nat, reason: Reason, active: bool, limit: int): State
    requires p < |s.parts| && s.parts[p].Out?
  {
    var tries := s.parts[p].tries;
    if reason != FAILED_TEMPORARILY then Finish(s, p, reason)
    else if !active then s.(parts := s.parts[p := Waiting(tries)])
    else if limit >= 0 && tries >= limit then Finish(s, p, FAILED_DISCARDED)
    else s.(parts := s.parts[p := Waiting(Again(tries))])
  }

  /** The loop in smscconn_send, one statement at a time. */
  function SendNext(s: State, ok: bool): State {
    match s.loop
    case Sending(i) =>
      if i >= |s.parts| then s.(loop := AllSent)
      else if ok then s.(parts := s.parts[i := Out(s.first)], loop := Sending(i + 1))
      else if i == 0 then s.(loop := Abandoned)
      else s.(status := FAILED_REJECTED, log := s.log + [FAILED_REJECTED], loop := Marked(i))
    case Marked(i) =>
      var gap := |s.parts| - i;
      s.(left := if s.left >= gap >= 0 then s.left - gap else 0, loop := Cut(i))
    case _ => s
  }

  function Next(s: State, e: Event, limit: int): State {
    match e
    case SendStep(ok) => SendNext(s, ok)
    case Result(p, reason, active) =>
      if p < |s.parts| && s.parts[p].Out? then HandleSplit(s, p, reason, active, limit) else s
    case Retry(p) =>
      if p < |s.parts| && s.parts[p].Waiting? then s.(parts := s.parts[p := Out(s.parts[p].tries)]) else s
  }

  // ----- invariants

  function Done(parts: seq<Part>): nat {
    if parts == [] then 0 else (if parts[0].Gone? then 1 else 0) + Done(parts[1..])
  }

  lemma {:induction false} DoneUpdate(parts: seq<Part>, p: nat, x: Part)
    requires p < |parts|
    ensures Done(parts[p := x]) + (if parts[p].Gone? then 1 else 0) == Done(parts) + (if x.Gone? then 1 else 0)
  {
    if p == 0 {
      assert parts[p := x][1..] == parts[1..];
    } else {
      DoneUpdate(parts[1..], p - 1, x);
      assert parts[p := x][1..] == parts[1..][p - 1 := x];
    }
  }

  /** How many parts the driver was given. */
  function Given(s: State): nat {
    match s.loop
    case Sending(i) => i
    case AllSent => |s.parts|
    case Marked(i) => i
    case Cut(i) => i
    case Abandoned => 0
  }

  predicate SentFirst(s: State) {
    Given(s) <= |s.parts| && forall p :: 0 <= p < |s.parts| ==> (s.parts[p].Unsent? <==> p >= Given(s))
  }

  lemma {:induction false} DoneBound(parts: seq<Part>, n: nat)
    requires n <= |parts| && forall p :: n <= p < |parts| ==> !parts[p].Gone?
    ensures Done(parts) <= n
    ensures Done(parts) == n <==> forall p :: 0 <= p < n ==> parts[p].Gone?
  {
    if parts != [] {
      if n == 0 {
        DoneBound(parts[1..], 0);
      } else {
        DoneBound(parts[1..], n - 1);
        assert (forall p :: 0 <= p < n ==> parts[p].Gone?)
          <==> parts[0].Gone? && forall p :: 0 <= p < n - 1 ==> parts[1..][p].Gone?;
      }
    }
  }

  predicate CountRight(s: State) {
    if s.loop.Cut? then 1 <= s.loop.i < |s.parts| && s.left + Done(s.parts) == Given(s)
    else if s.loop.Marked? then 1 <= s.loop.i < |s.parts| && s.left + Done(s.parts) == |s.parts|
    else s.left + Done(s.parts) == |s.parts|
  }

  /** When the outcome of the original was reported. */
  predicate Reported(s: State) {
    && Done(s.parts) == Given(s)
    && ((s.loop.AllSent? && |s.parts| > 0) || (s.loop.Sending? && s.loop.i == |s.parts| > 0) || (s.loop.Cut? && s.late))
  }

  /** The reasons of finished parts are exactly what went into the status, plus the mark of a cut send. */
  predicate LogRight(s: State) {
    && s.status == Fold(s.log)
    && (forall p :: 0 <= p < |s.parts| && s.parts[p].Gone? ==> s.parts[p].reason in s.log)
    && (s.loop.Marked? || s.loop.Cut? ==> FAILED_REJECTED in s.log)
    && forall r :: r in s.log ==>
         || (exists p :: 0 <= p < |s.parts| && s.parts[p] == Gone(r))
         || (r == FAILED_REJECTED && (s.loop.Marked? || s.loop.Cut?))
  }

  predicate FinalsRight(s: State) {
    if Reported(s) then s.finals == [s.status] else s.finals == []
  }

  predicate Inv(s: State) { Counted(s) && LogRight(s) }

  lemma InitGood(n: nat, first: int)
    ensures Inv(Init(n, first))
  {
    DoneBound(Init(n, first).parts, 0);
  }

  lemma FoldAppend(log: seq<Reason>, r: Reason)
    ensures Fold(log + [r]) == Merge(Fold(log), r)
  {
    assert (log + [r])[..|log|] == log;
  }

  /** What is in the log after a part has finished. */
  lemma FinishLog(s: State, p: nat, reason: Reason)
    requires LogRight(s) && p < |s.parts| && s.parts[p].Out?
    ensures LogRight(Finish(s, p, reason))
  {
    var s' := Finish(s, p, reason);
    FoldAppend(s.log, reason);
    forall r | r in s'.log
      ensures (exists q :: 0 <= q < |s'.parts| && s'.parts[q] == Gone(r))
           || (r == FAILED_REJECTED && (s'.loop.Marked? || s'.loop.Cut?))
    {
      if r == reason {
        assert s'.parts[p] == Gone(r);
      } else if exists q :: 0 <= q < |s.parts| && s.parts[q] == Gone(r) {
        var q :| 0 <= q < |s.parts| && s.parts[q] == Gone(r);
        assert s'.parts[q] == Gone(r);
      }
    }
  }

  predicate Counted(s: State) { SentFirst(s) && CountRight(s) && FinalsRight(s) && (s.late ==> s.loop.Cut?) }

  /** While a part is out, the outcome is still open. */
  lemma OutMeansOpen(s: State, p: nat)
    requires Counted(s) && p < |s.parts| && s.parts[p].Out?
    ensures Done(s.parts) < Given(s) && s.finals == [] && p < Given(s) && s.left >= 1
  {
    DoneBound(s.parts, Given(s));
  }

  lemma FinishCounted(s: State, p: nat, reason: Reason)
    requires Counted(s) && p < |s.parts| && s.parts[p].Out?
    ensures Counted(Finish(s, p, reason))
  {
    OutMeansOpen(s, p);
    DoneUpdate(s.parts, p, Gone(reason));
  }

  lemma FinishKeeps(s: State, p: nat, reason: Reason)
    requires Inv(s) && p < |s.parts| && s.parts[p].Out?
    ensures Inv(Finish(s, p, reason))
  {
    FinishLog(s, p, reason);
    FinishCounted(s, p, reason);
  }

  /** Moving a part between the driver and the retry queue changes no count. */
  lemma MoveKeeps(s: State, p: nat, x: Part)
    requires Inv(s) && p < |s.parts| && !s.parts[p].Gone? && !s.parts[p].Unsent? && !x.Gone? && !x.Unsent?
    ensures Inv(s.(parts := s.parts[p := x]))
  {
    var s' := s.(parts := s.parts[p := x]);
    DoneUpdate(s.parts, p, x);
    forall r | r in s'.log
      ensures (exists q :: 0 <= q < |s'.parts| && s'.parts[q] == Gone(r))
           || (r == FAILED_REJECTED && (s'.loop.Marked? || s'.loop.Cut?))
    {
      if exists q :: 0 <= q < |s.parts| && s.parts[q] == Gone(r) {
        var q :| 0 <= q < |s.parts| && s.parts[q] == Gone(r);
        assert s'.parts[q] == Gone(r);
      }
    }
  }

  lemma SendOkKeeps(s: State)
    requires Inv(s) && s.loop.Sending? && s.loop.i < |s.parts|
    ensures Inv(SendNext(s, true))
  {
    var s' := SendNext(s, true);
    var i := s.loop.i;
    DoneUpdate(s.parts, i, Out(s.first));
    DoneBound(s.parts, i);
    forall r | r in s'.log ensures exists q :: 0 <= q < |s'.parts| && s'.parts[q] == Gone(r) {
      var q :| 0 <= q < |s.parts| && s.parts[q] == Gone(r);
      assert s'.parts[q] == Gone(r);
    }
  }

  lemma SendCutKeeps(s: State)
    requires Inv(s) && s.loop.Sending? && 0 < s.loop.i < |s.parts|
    ensures Inv(SendNext(s, false))
  {
    FoldAppend(s.log, FAILED_REJECTED);
    DoneBound(s.parts, s.loop.i);
  }

  lemma SendKeeps(s: State, ok: bool)
    requires Inv(s)
    ensures Inv(SendNext(s, ok))
  {
    if s.loop.Sending? && s.loop.i < |s.parts| {
      if ok { SendOkKeeps(s); } else if s.loop.i > 0 { SendCutKeeps(s); }
    } else if s.loop.Marked? {
      DoneBound(s.parts, s.loop.i);
    }
  }

  lemma NextKeeps(s: State, e: Event, limit: int)
    requires Inv(s)
    ensures Inv(Next(s, e, limit))
  {
    match e
    case SendStep(ok) => SendKeeps(s, ok);
    case Result(p, reason, active) =>
      if p < |s.parts| && s.parts[p].Out? {
        var tries := s.parts[p].tries;
        if reason != FAILED_TEMPORARILY { FinishKeeps(s, p, reason); }
        else if !active { MoveKeeps(s, p, Waiting(tries)); }
        else if limit >= 0 && tries >= limit { FinishKeeps(s, p, FAILED_DISCARDED); }
        else { MoveKeeps(s, p, Waiting(Again(tries))); }
      }
    case Retry(p) =>
      if p < |s.parts| && s.parts[p].Waiting? { MoveKeeps(s, p, Out(s.parts[p].tries)); }
  }

  // ----- whole runs

  function Run(s: State, events: seq<Event>, limit: int): State
    decreases |events|
  {
    if events == [] then s else Run(Next(s, events[0], limit), events[1..], limit)
  }

  lemma {:induction false} RunLength(s: State, events: seq<Event>, limit: int)
    ensures |Run(s, events, limit).parts| == |s.parts|
    decreases |events|
  {
    if events != [] {
      assert |Next(s, events[0], limit).parts| == |s.parts|;
      RunLength(Next(s, events[0], limit), events[1..], limit);
    }
  }

  lemma {:induction false} RunKeeps(s: State, events: seq<Event>, limit: int)
    requires Inv(s)
    ensures Inv(Run(s, events, limit))
    decreases |events|
  {
    if events != [] {
      NextKeeps(s, events[0], limit);
      RunKeeps(Next(s, events[0], limit), events[1..], limit);
    }
  }

  /** The send loop is over and every part the driver was given has finished. */
  predicate Settled(s: State) {
    (s.loop.AllSent? || s.loop.Cut?) && forall p :: 0 <= p < Given(s) && p < |s.parts| ==> s.parts[p].Gone?
  }

  // ----- how often a part is tried

  function Again(tries: int): int { if tries > 0 then tries + 1 else 1 }

  /** How many temporary failures on an active link a part survives, counted one by one. */
  function Survives(tries: int, limit: int): nat
    requires limit >= 0
    decreases if tries >= limit then 0 else if tries > 0 then limit - tries else limit + 1
  {
    if tries >= limit then 0 else 1 + Survives(Again(tries), limit)
  }

  lemma AgainOrDiscarded(s: State, p: nat, limit: int)
    requires p < |s.parts| && s.parts[p].Out?
    ensures var tries, s' := s.parts[p].tries, HandleSplit(s, p, FAILED_TEMPORARILY, true, limit);
            s'.parts[p] == if limit >= 0 && Survives(tries, limit) == 0 then Gone(FAILED_DISCARDED)
                           else Waiting(Again(tries))
  {
  }

  /** A part that was tried before has the rest of the limit left. One that was not is sent again as often
      as the limit says, but at least once: a limit of zero does not make a single shot. */
  lemma {:induction false} SurvivesIs(tries: int, limit: int)
    requires limit >= 0
    ensures Survives(tries, limit)
         == if tries >= limit then 0 else if tries > 0 then limit - tries else if limit == 0 then 1 else limit
    decreases if tries >= limit then 0 else if tries > 0 then limit - tries else limit + 1
  {
    if tries < limit { SurvivesIs(Again(tries), limit); }
  }

  // ----- what becomes of the original

  /** In every run the original gets at most one outcome, and never before all its parts are
      finished. Once everything is settled it has one, exactly unless the send loop was cut short
      and all results were already in when the count was corrected: then it gets none. A second try at
      routing the original after a failed return is not an outcome in this sense; `Fates` counts it. */
  lemma OneOutcome(n: nat, first: int, events: seq<Event>, limit: int)
    requires n > 0
    ensures var s := Run(Init(n, first), events, limit);
            && |s.finals| <= 1
            && (s.finals != [] ==> forall p :: 0 <= p < |s.parts| ==> s.parts[p].Gone? || s.parts[p].Unsent?)
            && (Settled(s) ==> (s.finals != [] <==> s.loop.AllSent? || s.late))
  {
    InitGood(n, first);
    RunKeeps(Init(n, first), events, limit);
    RunLength(Init(n, first), events, limit);
    var s := Run(Init(n, first), events, limit);
    DoneBound(s.parts, Given(s));
  }

  lemma FinishDone(s: State, p: nat, reason: Reason)
    requires p < |s.parts| && s.parts[p].Out? && s.loop.Cut?
    ensures var s' := Finish(s, p, reason);
            Done(s'.parts) == Done(s.parts) + 1 && s'.late && s'.loop == s.loop
  {
    DoneUpdate(s.parts, p, Gone(reason));
  }

  /** After the correction a result is late, and nothing else finishes a part. */
  lemma LateStep(s: State, e: Event, limit: int)
    requires s.loop.Cut?
    ensures var s' := Next(s, e, limit);
            && s'.loop == s.loop && Done(s'.parts) >= Done(s.parts)
            && (s'.late <==> s.late || Done(s'.parts) > Done(s.parts))
  {
    if e.Result? && e.p < |s.parts| && s.parts[e.p].Out? {
      var tries := s.parts[e.p].tries;
      if e.reason != FAILED_TEMPORARILY { FinishDone(s, e.p, e.reason); }
      else if e.active && limit >= 0 && tries >= limit { FinishDone(s, e.p, FAILED_DISCARDED); }
      else { DoneUpdate(s.parts, e.p, Next(s, e, limit).parts[e.p]); }
    } else if e.Retry? && e.p < |s.parts| && s.parts[e.p].Waiting? {
      DoneUpdate(s.parts, e.p, Out(s.parts[e.p].tries));
    }
  }

  lemma {:induction false} LateRun(s: State, events: seq<Event>, limit: int)
    requires s.loop.Cut?
    ensures var s' := Run(s, events, limit);
            && s'.loop == s.loop && Done(s'.parts) >= Done(s.parts)
            && (s'.late <==> s.late || Done(s'.parts) > Done(s.parts))
    decreases |events|
  {
    if events != [] {
      LateStep(s, events[0], limit);
      LateRun(Next(s, events[0], limit), events[1..], limit);
    }
  }

  /** A send that was cut short at part `i`: the original gets its outcome exactly when, at the moment
      the count is corrected, not all of the parts before `i` have finished. */
  lemma CutOutcomeIff(n: nat, first: int, before: seq<Event>, ok: bool, after: seq<Event>, limit: int)
    requires n > 0 && Run(Init(n, first), before, limit).loop.Marked?
    ensures var s := Run(Init(n, first), before, limit);
            var s' := Run(Next(s, SendStep(ok), limit), after, limit);
            Settled(s') ==> |s'.finals| == if Done(s.parts) < s.loop.i then 1 else 0
  {
    var s := Run(Init(n, first), before, limit);
    InitGood(n, first);
    RunKeeps(Init(n, first), before, limit);
    NextKeeps(s, SendStep(ok), limit);
    var cut := Next(s, SendStep(ok), limit);
    RunKeeps(cut, after, limit);
    LateRun(cut, after, limit);
    var s' := Run(cut, after, limit);
    DoneBound(s'.parts, Given(s'));
  }

  // ----- the original after a failed return

  /** The sending loop has come to its end. */
  predicate Returned(s: State) { s.loop.AllSent? || s.loop.Cut? || s.loop.Abandoned? }

  /** What happens to the original: the outcomes reported for it, and one more route if the loop
      returned a failure, upon which smsc2_rout starts again. */
  function Fates(s: State): nat
    requires Returned(s)
  {
    |s.finals| + if s.loop.AllSent? then 0 else 1
  }

  /** In every settled run the original has one fate, except after a send that was cut short with results
      still to come: then it is routed again and reported as well. */
  lemma FatesIff(n: nat, first: int, events: seq<Event>, limit: int)
    requires n > 0
    ensures var s := Run(Init(n, first), events, limit);
            && (Settled(s) ==> Fates(s) == if s.loop.Cut? && s.late then 2 else 1)
            && (s.loop.Abandoned? ==> Fates(s) == 1)
  {
    RunCounted(n, first, events, limit);
    RunLength(Init(n, first), events, limit);
    FatesOf(Run(Init(n, first), events, limit));
  }

  lemma FatesOf(s: State)
    requires Counted(s) && s.parts != []
    ensures Settled(s) ==> Fates(s) == if s.loop.Cut? && s.late then 2 else 1
    ensures s.loop.Abandoned? ==> Fates(s) == 1
  {
    DoneBound(s.parts, Given(s));
  }

  lemma RunCounted(n: nat, first: int, events: seq<Event>, limit: int)
    ensures Counted(Run(Init(n, first), events, limit))
  {
    InitGood(n, first);
    RunKeeps(Init(n, first), events, limit);
  }

  /** The run: part 1 is accepted and part 2 refused, then part 1 succeeds. */
  lemma TwoFates(first: int, limit: int)
    ensures var events := [SendStep(true), SendStep(false), SendStep(false), Result(0, SUCCESS, true)];
            var s := Run(Init(2, first), events, limit);
            Settled(s) && s.finals == [FAILED_REJECTED] && Fates(s) == 2
  {
    var e1, e2, e4 := SendStep(true), SendStep(false), Result(0, SUCCESS, true);
    var s0 := Init(2, first);
    var s1 := Next(s0, e1, limit);
    var s2 := Next(s1, e2, limit);
    var s3 := Next(s2, e2, limit);
    var s4 := Next(s3, e4, limit);
    assert s1.parts == s2.parts == s3.parts == [Out(first), Unsent] && s4.parts == [Gone(SUCCESS), Unsent];
    assert s2.loop == Marked(1) && s3.loop == Cut(1) && s3.left == 1;
    assert [e1, e2, e2, e4][1..] == [e2, e2, e4] && [e2, e2, e4][1..] == [e2, e4] && [e2, e4][1..] == [e4];
    assert Run(s3, [e4], limit) == s4;
    assert Run(s2, [e2, e4], limit) == s4;
    assert Run(s1, [e2, e2, e4], limit) == s4;
  }

  predicate AllPartsSucceeded(s: State) { forall p :: 0 <= p < |s.parts| ==> s.parts[p] == Gone(SUCCESS) }

  predicate SomePartHard(s: State) { exists p :: 0 <= p < |s.parts| && s.parts[p].Gone? && Hard(s.parts[p].reason) }

  /** The outcome is success exactly when every part was sent and succeeded; it carries a discarded,
      rejected or malformed reason whenever some part had one; and a failed outcome is the reason of
      some part, unless the send loop was cut short. */
  lemma OutcomeMeaning(n: nat, first: int, events: seq<Event>, limit: int)
    requires n > 0
    ensures var s := Run(Init(n, first), events, limit);
            |s.parts| == n && forall f :: f in s.finals ==>
              && (f == SUCCESS <==> AllPartsSucceeded(s))
              && (SomePartHard(s) ==> Hard(f))
              && (f != SUCCESS ==> s.loop.Cut? || exists p :: 0 <= p < |s.parts| && s.parts[p] == Gone(f))
  {
    InitGood(n, first);
    RunKeeps(Init(n, first), events, limit);
    RunLength(Init(n, first), events, limit);
    var s := Run(Init(n, first), events, limit);
    if s.finals != [] { StatusMeaning(s); }
  }

  lemma StatusMeaning(s: State)
    requires Inv(s) && Reported(s)
    ensures s.status == SUCCESS <==> AllPartsSucceeded(s)
    ensures SomePartHard(s) ==> Hard(s.status)
    ensures s.status != SUCCESS ==> s.loop.Cut? || exists p :: 0 <= p < |s.parts| && s.parts[p] == Gone(s.status)
  {
    FoldMeaning(s.log);
    DoneBound(s.parts, Given(s));
    assert s.loop.Cut? ==> !AllPartsSucceeded(s) by { if s.loop.Cut? { assert s.parts[s.loop.i].Unsent?; } }
    if AllSucceeded(s.log) {
      assert !s.loop.Cut?;
      forall p | 0 <= p < |s.parts| ensures s.parts[p] == Gone(SUCCESS) { assert s.parts[p].reason in s.log; }
    }
  }

  /** The first failure among the reasons, in the order in which they were merged. */
  function FirstFailure(log: seq<Reason>): Reason {
    if log == [] then SUCCESS else if log[0] != SUCCESS then log[0] else FirstFailure(log[1..])
  }

  lemma {:induction false} FirstFailureAppend(log: seq<Reason>, r: Reason)
    ensures FirstFailure(log + [r]) == if FirstFailure(log) != SUCCESS then FirstFailure(log) else r
  {
    if log == [] {
      assert log + [r] == [r];
    } else {
      FirstFailureAppend(log[1..], r);
      assert (log + [r])[1..] == log[1..] + [r];
    }
  }

  /** Without a discarded, rejected or malformed reason, the first failure is the status. */
  lemma {:induction false} FoldIsFirst(log: seq<Reason>)
    requires !SomeHard(log)
    ensures Fold(log) == FirstFailure(log)
  {
    if log != [] {
      var front, last := log[..|log| - 1], log[|log| - 1];
      assert log == front + [last];
      assert last in log && forall r :: r in front ==> r in log;
      FoldIsFirst(front);
      FirstFailureAppend(front, last);
    }
  }

  /** Outcomes with which bb_smscconn_send_failed puts the original back into the queue. */
  predicate PutBack(outcome: Reason) { outcome == FAILED_SHUTDOWN || outcome == FAILED_TEMPORARILY }

  lemma {:induction false} NoTemporary(s: State, events: seq<Event>, limit: int)
    requires FAILED_TEMPORARILY !in s.log
    ensures FAILED_TEMPORARILY !in Run(s, events, limit).log
    decreases |events|
  {
    if events != [] {
      assert FAILED_TEMPORARILY !in Next(s, events[0], limit).log;
      NoTemporary(Next(s, events[0], limit), events[1..], limit);
    }
  }

  /** When the reported outcome does not end the original: it goes back into the queue exactly when no
      part failed for good, the send loop was not cut short and the first part to fail did so because the
      connection was shutting down. A temporary failure is never the outcome. */
  lemma PutBackIff(n: nat, first: int, events: seq<Event>, limit: int)
    ensures var s := Run(Init(n, first), events, limit);
            forall f :: f in s.finals ==>
              && f != FAILED_TEMPORARILY
              && (PutBack(f) <==> !SomePartHard(s) && !s.loop.Cut? && FirstFailure(s.log) == FAILED_SHUTDOWN)
  {
    var s := Run(Init(n, first), events, limit);
    InitGood(n, first);
    RunKeeps(Init(n, first), events, limit);
    NoTemporary(Init(n, first), events, limit);
    FoldMeaning(s.log);
    if s.finals != [] {
      HardIff(s);
      if !SomeHard(s.log) { FoldIsFirst(s.log); }
    }
  }

  lemma HardIff(s: State)
    requires LogRight(s)
    ensures SomeHard(s.log) <==> SomePartHard(s) || s.loop.Marked? || s.loop.Cut?
  {
    if r :| r in s.log && Hard(r) && !s.loop.Marked? && !s.loop.Cut? {
      var p :| 0 <= p < |s.parts| && s.parts[p] == Gone(r);
    }
    if SomePartHard(s) {
      var p :| 0 <= p < |s.parts| && s.parts[p].Gone? && Hard(s.parts[p].reason);
      assert s.parts[p].reason in s.log;
    }
  }

  /** The run in which the outcome is lost: part 1 succeeds before the refusal of part 2 is
      accounted for. */
  lemma OutcomeLost(first: int, limit: int)
    ensures var events := [SendStep(true), Result(0, SUCCESS, true), SendStep(false), SendStep(false)];
            var s := Run(Init(2, first), events, limit);
            Settled(s) && s.finals == [] && s.parts == [Gone(SUCCESS), Unsent] && s.left == 0
  {
    var e1, e2, e3 := SendStep(true), Result(0, SUCCESS, true), SendStep(false);
    var s0 := Init(2, first);
    var s1 := Next(s0, e1, limit);
    var s2 := Next(s1, e2, limit);
    var s3 := Next(s2, e3, limit);
    var s4 := Next(s3, e3, limit);
    assert s1.parts == [Out(first), Unsent] && s2.parts == [Gone(SUCCESS), Unsent];
    assert s3.loop == Marked(1) && s4.loop == Cut(1);
    assert [e1, e2, e3, e3][1..] == [e2, e3, e3] && [e2, e3, e3][1..] == [e3, e3] && [e3, e3][1..] == [e3];
    assert Run(s3, [e3], limit) == s4;
    assert Run(s2, [e3, e3], limit) == s4;
    assert Run(s1, [e2, e3, e3], limit) == s4;
  }

  // ----- the bookkeeping object and its two users

  class SplitParts {
    const first: int
    var parts: seq<Part>
    var loop: Loop
    var status: Reason
    var left: nat
    var finals: seq<Reason>
    ghost var log: seq<Reason>
    ghost var late: bool

    ghost function View(): State
      reads this
    {
      State(first, parts, loop, status, left, log, finals, late)
    }

    constructor (n: nat, tries: int)
      ensures View() == Init(n, tries)
    {
      first := tries;
      parts, loop, status, left, finals := seq(n, _ => Unsent), Sending(0), SUCCESS, n, [];
      log, late := [], false;
    }

    /** The callback for a part that is with the driver. */
    method OnResult(p: nat, reason: Reason, active: bool, limit: int)
      requires p < |parts| && parts[p].Out?
      modifies this
      ensures View() == HandleSplit(old(View()), p, reason, active, limit)
    {
      var why := reason;
      if reason == FAILED_TEMPORARILY {
        var tries := parts[p].tries;
        if active {
          if limit >= 0 && tries >= limit {
            why := FAILED_DISCARDED;
          } else {
            parts := parts[p := Waiting(Again(tries))];
            return;
          }
        } else {
          parts := parts[p := Waiting(tries)];
          return;
        }
      }
      if why == FAILED_DISCARDED || why == FAILED_REJECTED || why == FAILED_MALFORMED {
        status := why;
      } else if why != SUCCESS && status == SUCCESS {
        status := why;
      }
      parts := parts[p := Gone(why)];
      log, late := log + [why], late || loop.Cut?;
      var before := left;
      if left > 0 { left := left - 1; }
      if before <= 1 {
        finals := finals + [status];
      }
    }

    /** The loop of smscconn_send, run without interruption. */
    method SendAll(accepts: nat -> bool) returns (ret: int)
      requires loop == Sending(0)
      modifies this
      ensures View() == SendLoop(old(View()), accepts)
      ensures ret == if loop.AllSent? then 0 else -1
    {
      var n := |parts|;
      var i := 0;
      while i < n
        invariant 0 <= i <= n == |parts| && loop == Sending(i)
        invariant SendLoop(View(), accepts) == SendLoop(old(View()), accepts)
      {
        if !accepts(i) {
          if i == 0 {
            loop := Abandoned;
            return -1;
          }
          status, log := FAILED_REJECTED, log + [FAILED_REJECTED];
          left := if left >= n - i then left - (n - i) else 0;
          loop := Cut(i);
          return -1;
        }
        parts, loop := parts[i := Out(first)], Sending(i + 1);
        i := i + 1;
      }
      loop := AllSent;
      return 0;
    }
  }

  /** The sending statements one after the other, `accepts` telling which parts the driver takes. */
  function SendLoop(s: State, accepts: nat -> bool): State
    decreases if s.loop.Sending? then |s.parts| - s.loop.i + 1 else 0
  {
    if !s.loop.Sending? then s
    else if s.loop.i >= |s.parts| then SendNext(s, true)
    else if accepts(s.loop.i) then SendLoop(SendNext(s, true), accepts)
    else SendNext(SendNext(s, false), false)
  }

  lemma {:induction false} SendLoopKeeps(s: State, accepts: nat -> bool)
    requires Inv(s)
    ensures Inv(SendLoop(s, accepts))
    decreases if s.loop.Sending? then |s.parts| - s.loop.i + 1 else 0
  {
    if s.loop.Sending? {
      var ok := s.loop.i >= |s.parts| || accepts(s.loop.i);
      SendKeeps(s, ok);
      if !ok { SendKeeps(SendNext(s, false), false); }
      else if s.loop.i < |s.parts| { SendLoopKeeps(SendNext(s, true), accepts); }
    }
  }

  /** A loop that stops at `s'` handed out the parts from `i` up to a refusal, if there was one,
      and left the count at the number of parts out. */
  predicate Stopped(i: nat, s': State, accepts: nat -> bool) {
    && Done(s'.parts) == 0
    && (s'.loop.AllSent? || s'.loop.Cut? || (s'.loop.Abandoned? && i == 0))
    && (!s'.loop.Abandoned? ==> s'.left == Given(s') >= i)
    && (forall p :: i <= p < Given(s') ==> accepts(p))
    && (!s'.loop.AllSent? ==> !accepts(Given(s')))
  }

  /** Undisturbed, the loop hands out the parts before the first refusal and leaves a state in which
      the outcome will not be lost: with every result still to come, the count is that of the parts out. */
  lemma {:induction false} SendLoopMeaning(s: State, accepts: nat -> bool)
    requires s.loop.Sending? && s.loop.i <= |s.parts| && Done(s.parts) == 0 && s.left == |s.parts|
    requires forall p :: s.loop.i <= p < |s.parts| ==> s.parts[p].Unsent?
    ensures Stopped(s.loop.i, SendLoop(s, accepts), accepts)
    decreases |s.parts| - s.loop.i
  {
    if s.loop.i < |s.parts| && accepts(s.loop.i) {
      DoneUpdate(s.parts, s.loop.i, Out(s.first));
      SendLoopMeaning(SendNext(s, true), accepts);
    }
  }

  /** Left to itself the loop fails with parts already out exactly when the driver takes the first part
      and refuses a later one. */
  lemma FailsWithPartsOutIff(n: nat, first: int, accepts: nat -> bool)
    ensures var s := SendLoop(Init(n, first), accepts);
            && Returned(s)
            && (!s.loop.AllSent? && Given(s) > 0 <==> n > 0 && accepts(0) && exists p :: 0 < p < n && !accepts(p))
  {
    DoneBound(Init(n, first).parts, 0);
    SendLoopCounted(n, first, accepts);
    SendLoopMeaning(Init(n, first), accepts);
    SendLoopLength(Init(n, first), accepts);
  }

  lemma SendLoopCounted(n: nat, first: int, accepts: nat -> bool)
    ensures Counted(SendLoop(Init(n, first), accepts))
  {
    InitGood(n, first);
    SendLoopKeeps(Init(n, first), accepts);
  }

  lemma {:induction false} SendLoopLength(s: State, accepts: nat -> bool)
    ensures |SendLoop(s, accepts).parts| == |s.parts|
    decreases if s.loop.Sending? then |s.parts| - s.loop.i + 1 else 0
  {
    if s.loop.Sending? && s.loop.i < |s.parts| && accepts(s.loop.i) { SendLoopLength(SendNext(s, true), accepts); }
  }
}
