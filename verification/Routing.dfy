/** Choosing the SMS centre connection for an outgoing message (gw/bb_smscconn.c, gw/smscconn.c). */
module Routing {
  import opened Octets

  datatype Status = Connecting | Active | ActiveRecv | Reconnecting | Disconnected | Dead

  /** A prefix list or a compiled regular expression, as a test on strings. */
  type Test = Octstr -> bool

  datatype Rules = Rules(
    allowedId: Option<seq<Octstr>>, deniedId: Option<seq<Octstr>>, preferredId: Option<seq<Octstr>>,
    allowedIdRegex: Option<Test>, deniedIdRegex: Option<Test>,
    allowedPrefix: Option<Test>, deniedPrefix: Option<Test>, preferredPrefix: Option<Test>,
    allowedPrefixRegex: Option<Test>, deniedPrefixRegex: Option<Test>, preferredPrefixRegex: Option<Test>)

  datatype Conn = Conn(status: Status, killed: bool, load: int, queued: int, rules: Rules)

  /** The two fields of a message that routing looks at. */
  datatype Target = Target(smscId: Option<Octstr>, receiver: Octstr)

  // ----- which connections are usable

  predicate IdRefused(r: Rules, id: Option<Octstr>) {
    if r.allowedId.Some? && (id.None? || id.value !in r.allowedId.value) then true
    else r.deniedId.Some? && id.Some? && id.value in r.deniedId.value
  }

  predicate IdRegexRefused(r: Rules, id: Option<Octstr>) {
    if r.allowedIdRegex.Some? then id.None? || !r.allowedIdRegex.value(id.value)
    else r.deniedIdRegex.Some? && id.Some? && r.deniedIdRegex.value(id.value)
  }

  /** An allow rule alone admits only matches; a deny rule alone refuses matches; with both, only
      what matches the deny rule and not the allow rule is refused. */
  predicate NumberRefused(allowed: Option<Test>, denied: Option<Test>, to': Octstr) {
    || (allowed.Some? && denied.None? && !allowed.value(to'))
    || (denied.Some? && allowed.None? && denied.value(to'))
    || (denied.Some? && allowed.Some? && !allowed.value(to') && denied.value(to'))
  }

  predicate Preferred(r: Rules, t: Target) {
    || (r.preferredId.Some? && t.smscId.Some? && t.smscId.value in r.preferredId.value)
    || (r.preferredPrefix.Some? && r.preferredPrefix.value(t.receiver))
    || (r.preferredPrefixRegex.Some? && r.preferredPrefixRegex.value(t.receiver))
  }

  /** smscconn_usable: -1 not usable, 1 preferred, 0 otherwise. */
  function Usable(c: Conn, t: Target): (u: int)
    ensures -1 <= u <= 1
  {
    if c.status.Dead? || c.status.ActiveRecv? || c.killed then -1
    else if IdRefused(c.rules, t.smscId) || IdRegexRefused(c.rules, t.smscId) then -1
    else if NumberRefused(c.rules.allowedPrefix, c.rules.deniedPrefix, t.receiver) then -1
    else if NumberRefused(c.rules.allowedPrefixRegex, c.rules.deniedPrefixRegex, t.receiver) then -1
    else if Preferred(c.rules, t) then 1 else 0
  }

  /** The deny list changes nothing for any message. */
  ghost predicate DenyListIgnored(r: Rules) {
    forall id :: IdRefused(r, id) <==> IdRefused(r.(deniedId := None), id)
  }

  predicate OnBoth(r: Rules, id: Octstr) {
    r.allowedId.Some? && id in r.allowedId.value && r.deniedId.Some? && id in r.deniedId.value
  }

  /** With an allow list set, the deny list is documented as ignored. That holds exactly when no
      identifier is on both lists. */
  lemma DenyListIgnoredIff(r: Rules)
    requires r.allowedId.Some?
    ensures DenyListIgnored(r) <==> !exists id :: OnBoth(r, id)
  {
    var without := r.(deniedId := None);
    if id :| OnBoth(r, id) {
      assert IdRefused(r, Some(id)) && !IdRefused(without, Some(id));
    } else {
      forall id ensures IdRefused(r, id) <==> IdRefused(without, id) {
        if id.Some? { assert !OnBoth(r, id.value); }
      }
    }
  }

  /** An identifier on both lists is refused. */
  lemma DenyListApplied(id: Octstr, r: Rules)
    requires r.allowedId == Some([id]) && r.deniedId == Some([id])
    ensures IdRefused(r, Some(id)) && !IdRefused(r.(deniedId := None), Some(id)) && !DenyListIgnored(r)
  {
    DenyListIgnoredIff(r);
    assert OnBoth(r, id);
  }

  // ----- the choice

  predicate Eligible(c: Conn, t: Target, maxQueue: int) {
    Usable(c, t) >= 0 && c.status.Active? && c.queued <= maxQueue
  }

  predicate EligiblePreferred(c: Conn, t: Target, maxQueue: int) { Eligible(c, t, maxQueue) && Usable(c, t) == 1 }

  predicate UsableInactive(c: Conn, t: Target) { Usable(c, t) >= 0 && !c.status.Active? }

  predicate UsableFull(c: Conn, t: Target, maxQueue: int) {
    Usable(c, t) >= 0 && c.status.Active? && c.queued > maxQueue
  }

  /** New messages may fill 80% of a queue while old ones wait in the global queue. */
  function MaxQueue(max: int, outgoing: nat, resend: bool): int {
    if outgoing > 0 && !resend then (if max >= 0 then max * 4 / 5 else -(-max * 4 / 5)) else max
  }

  function Queued(list: seq<Conn>): nat {
    if list == [] then 0 else (if list[0].queued > 0 then list[0].queued else 0) + Queued(list[1..])
  }

  /** The connection at step `i` of a walk that begins at `s`. */
  function Rotated(i: nat, s: nat, n: nat): (k: nat)
    requires i < n && s < n
    ensures k < n
  {
    if i + s < n then i + s else i + s - n
  }

  lemma RotatedIsMod(i: nat, s: nat, n: nat)
    requires i < n && s < n
    ensures (i + s) % n == Rotated(i, s, n)
  {
    var q, r := (i + s) / n, (i + s) % n;
    assert q * n + r == i + s;
    if q >= 2 { TimesAtLeast(q, 2, n); }
  }

  lemma TimesAtLeast(q: nat, p: nat, n: nat)
    requires q >= p
    ensures q * n >= p * n
  {
    assert q * n == p * n + (q - p) * n;
  }

  /** Every connection is met, at exactly one step. */
  lemma RotatedCovers(s: nat, n: nat, k: nat)
    requires s < n && k < n
    ensures exists i: nat :: i < n && Rotated(i, s, n) == k
    ensures forall i: nat, j: nat :: i < n && j < n && Rotated(i, s, n) == Rotated(j, s, n) ==> i == j
  {
    var i := if k >= s then k - s else k - s + n;
    assert Rotated(i, s, n) == k;
  }

  datatype Outcome = Sent(conn: nat) | Enqueued | QueueFull | Discarded | DroppedAtShutdown | NoConnections

  ghost predicate AnyOf(list: seq<Conn>, test: Conn -> bool) { exists j :: 0 <= j < |list| && test(list[j]) }

  /** Of the connections that pass a test this one has the least load. */
  ghost predicate LeastLoaded(list: seq<Conn>, k: nat, test: Conn -> bool) {
    k < |list| && test(list[k]) && forall j :: 0 <= j < |list| && test(list[j]) ==> list[k].load <= list[j].load
  }

  /** The outcome of one attempt to route an unsplit message, said without the walk. */
  ghost predicate RightChoice(list: seq<Conn>, t: Target, resend: bool, outgoing: nat, max: int, shutdown: bool,
                              out: Outcome)
  {
    var mq := MaxQueue(max, outgoing, resend);
    if list == [] then out == NoConnections
    else if max > 0 && !resend && Queued(list) + outgoing > |list| * max then out == QueueFull
    else if AnyOf(list, c => EligiblePreferred(c, t, mq)) then
      out.Sent? && LeastLoaded(list, out.conn, c => EligiblePreferred(c, t, mq))
    else if AnyOf(list, c => Eligible(c, t, mq)) then
      out.Sent? && LeastLoaded(list, out.conn, c => Eligible(c, t, mq))
    else if AnyOf(list, c => UsableInactive(c, t)) then out == if max < 0 || outgoing < max then Enqueued else QueueFull
    else if AnyOf(list, c => UsableFull(c, t, mq)) then out == QueueFull
    else out == if shutdown then DroppedAtShutdown else Discarded
  }

  // ----- the walk

  datatype Walk = Walk(preferred: Option<nat>, ok: Option<nat>, bad: bool, full: bool)

  /** The connections in the order of the walk. */
  function Visited(list: seq<Conn>, s: nat, i: nat): (v: seq<Conn>)
    requires s < |list| && i <= |list|
    ensures |v| == i && forall j :: 0 <= j < i ==> v[j] == list[Rotated(j, s, |list|)]
  {
    if s + i <= |list| then list[s..s + i] else list[s..] + list[..s + i - |list|]
  }

  ghost predicate BestOf(list: seq<Conn>, v: seq<Conn>, best: Option<nat>, test: Conn -> bool) {
    match best
    case None => forall j :: 0 <= j < |v| ==> !test(v[j])
    case Some(b) => b < |list| && test(list[b]) && forall j :: 0 <= j < |v| && test(v[j]) ==> list[b].load <= v[j].load
  }

  /** What the loop variables mean; once a preferred connection is found the rest no longer matters. */
  ghost predicate WalkMeans(list: seq<Conn>, v: seq<Conn>, t: Target, mq: int, w: Walk) {
    && BestOf(list, v, w.preferred, c => EligiblePreferred(c, t, mq))
    && (w.preferred.None? ==>
          && BestOf(list, v, w.ok, c => Eligible(c, t, mq))
          && (w.bad <==> AnyOf(v, c => UsableInactive(c, t)))
          && (w.full <==> AnyOf(v, c => UsableFull(c, t, mq))))
  }

  /** One round of the loop. */
  function Look(list: seq<Conn>, k: nat, t: Target, mq: int, w: Walk): (r: Walk)
    requires k < |list| && (w.preferred.Some? ==> w.preferred.value < |list|) && (w.ok.Some? ==> w.ok.value < |list|)
    ensures r.ok.Some? ==> r.ok.value < |list|
  {
    var c := list[k];
    var u := Usable(c, t);
    if u == -1 || (u != 1 && w.preferred.Some?) then w
    else if !c.status.Active? then w.(bad := true)
    else if c.queued > mq then w.(full := true)
    else if u == 1 && (w.preferred.None? || c.load < list[w.preferred.value].load) then w.(preferred := Some(k))
    else if w.ok.None? || c.load < list[w.ok.value].load then w.(ok := Some(k))
    else w
  }

  lemma LookMeans(list: seq<Conn>, v: seq<Conn>, k: nat, t: Target, mq: int, w: Walk)
    requires k < |list| && WalkMeans(list, v, t, mq, w) && (w.ok.Some? ==> w.ok.value < |list|)
    ensures WalkMeans(list, v + [list[k]], t, mq, Look(list, k, t, mq, w))
  {
    AnyOfAppend(v, list[k], c => UsableInactive(c, t));
    AnyOfAppend(v, list[k], c => UsableFull(c, t, mq));
  }

  lemma AnyOfAppend(v: seq<Conn>, c: Conn, test: Conn -> bool)
    ensures AnyOf(v + [c], test) <==> AnyOf(v, test) || test(c)
  {
    var w := v + [c];
    if AnyOf(v, test) {
      var j :| 0 <= j < |v| && test(v[j]);
      assert w[j] == v[j];
    }
    if test(c) { assert w[|v|] == c; }
  }

  lemma {:induction false} QueuedConcat(a: seq<Conn>, b: seq<Conn>)
    ensures Queued(a + b) == Queued(a) + Queued(b)
  {
    if a == [] {
      assert a + b == b;
    } else {
      QueuedConcat(a[1..], b);
      assert (a + b)[1..] == a[1..] + b;
    }
  }

  /** The whole walk is the list turned round, so the sum is the same. */
  lemma QueuedWalk(list: seq<Conn>, s: nat)
    requires s < |list|
    ensures Queued(Visited(list, s, |list|)) == Queued(list)
  {
    assert Visited(list, s, |list|) == list[s..] + list[..s];
    assert list == list[..s] + list[s..];
    QueuedConcat(list[s..], list[..s]);
    QueuedConcat(list[..s], list[s..]);
  }

  lemma AnyOfWalk(list: seq<Conn>, s: nat, test: Conn -> bool)
    requires s < |list|
    ensures AnyOf(Visited(list, s, |list|), test) <==> AnyOf(list, test)
  {
    var v := Visited(list, s, |list|);
    if AnyOf(list, test) {
      var k :| 0 <= k < |list| && test(list[k]);
      RotatedCovers(s, |list|, k);
      var i: nat :| i < |list| && Rotated(i, s, |list|) == k;
      assert test(v[i]);
    }
    if AnyOf(v, test) {
      var j :| 0 <= j < |v| && test(v[j]);
      assert test(list[Rotated(j, s, |list|)]);
    }
  }

  lemma BestOfWalk(list: seq<Conn>, s: nat, best: Option<nat>, test: Conn -> bool)
    requires s < |list| && BestOf(list, Visited(list, s, |list|), best, test)
    ensures best.Some? <==> AnyOf(list, test)
    ensures best.Some? ==> LeastLoaded(list, best.value, test)
  {
    AnyOfWalk(list, s, test);
    if best.Some? { LeastOfWalk(list, s, best.value, test); }
  }

  lemma LeastOfWalk(list: seq<Conn>, s: nat, b: nat, test: Conn -> bool)
    requires s < |list| && BestOf(list, Visited(list, s, |list|), Some(b), test)
    ensures LeastLoaded(list, b, test)
  {
    var v := Visited(list, s, |list|);
    forall k | 0 <= k < |list| && test(list[k]) ensures list[b].load <= list[k].load {
      RotatedCovers(s, |list|, k);
      var i: nat :| i < |list| && Rotated(i, s, |list|) == k;
      assert v[i] == list[k];
    }
  }

  lemma VisitedStep(list: seq<Conn>, s: nat, i: nat)
    requires s < |list| && i < |list|
    ensures Visited(list, s, i + 1) == Visited(list, s, i) + [list[Rotated(i, s, |list|)]]
  {
    var a, b := Visited(list, s, i + 1), Visited(list, s, i);
    forall j | 0 <= j < i ensures a[j] == b[j] {}
    assert a[i] == list[Rotated(i, s, |list|)];
  }

  lemma WalkStep(list: seq<Conn>, s: nat, i: nat, t: Target, mq: int, w: Walk)
    requires s < |list| && i < |list| && (w.ok.Some? ==> w.ok.value < |list|)
    requires WalkMeans(list, Visited(list, s, i), t, mq, w)
    ensures var k := Rotated(i, s, |list|);
            && WalkMeans(list, Visited(list, s, i + 1), t, mq, Look(list, k, t, mq, w))
            && Queued(Visited(list, s, i + 1)) == Queued(Visited(list, s, i)) + Queued([list[k]])
  {
    var k := Rotated(i, s, |list|);
    VisitedStep(list, s, i);
    LookMeans(list, Visited(list, s, i), k, t, mq, w);
    QueuedConcat(Visited(list, s, i), [list[k]]);
  }

  /** smsc2_rout from the choice of a connection on, for an unsplit message; `start` is the random start. */
  method Rout(list: seq<Conn>, t: Target, start: nat, resend: bool, outgoing: nat, max: int, shutdown: bool)
      returns (out: Outcome)
    requires list != [] ==> start < |list|
    ensures RightChoice(list, t, resend, outgoing, max, shutdown, out)
  {
    if |list| == 0 { return NoConnections; }
    var mq := MaxQueue(max, outgoing, resend);
    var w, total := WalkList(list, t, start, mq);
    BestOfWalk(list, start, w.preferred, c => EligiblePreferred(c, t, mq));
    if w.preferred.None? {
      BestOfWalk(list, start, w.ok, c => Eligible(c, t, mq));
      AnyOfWalk(list, start, c => UsableInactive(c, t));
      AnyOfWalk(list, start, c => UsableFull(c, t, mq));
    }
    if max > 0 && !resend && total + outgoing > |list| * max { return QueueFull; }
    if w.preferred.Some? { return Sent(w.preferred.value); }
    if w.ok.Some? { return Sent(w.ok.value); }
    if w.bad {
      if max < 0 || outgoing < max { return Enqueued; }
      return QueueFull;
    }
    if w.full { return QueueFull; }
    if shutdown { return DroppedAtShutdown; }
    return Discarded;
  }

  method WalkList(list: seq<Conn>, t: Target, start: nat, mq: int) returns (w: Walk, total: nat)
    requires start < |list|
    ensures WalkMeans(list, Visited(list, start, |list|), t, mq, w) && total == Queued(list)
  {
    w, total := Walk(None, None, false, false), 0;
    for i := 0 to |list|
      invariant WalkMeans(list, Visited(list, start, i), t, mq, w) && (w.ok.Some? ==> w.ok.value < |list|)
      invariant total == Queued(Visited(list, start, i))
    {
      var k := (i + start) % |list|;
      RotatedIsMod(i, start, |list|);
      WalkStep(list, start, i, t, mq, w);
      total := total + if list[k].queued > 0 then list[k].queued else 0;
      w := Look(list, k, t, mq, w);
    }
    QueuedWalk(list, start);
  }
}
