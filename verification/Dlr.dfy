/** Delivery reports waiting in memory (gw/dlr.c, gw/dlr_mem.c). */
module Dlr {
  import opened Octets
  import opened DlrFlags

  const MIN_DST_LEN := 7

  /** A waiting entry; `uid` is the identity of the allocated record. */
  datatype Entry = Entry(uid: nat, smsc: Octstr, timestamp: Octstr, source: Octstr, destination: Octstr,
                         service: Octstr, url: Octstr, boxcId: Octstr, mask: int)

  /** The fields of a sent message that an entry keeps. */
  datatype Sent = Sent(sender: Option<Octstr>, receiver: Option<Octstr>, service: Option<Octstr>,
                       url: Option<Octstr>, boxcId: Option<Octstr>, mask: int)

  /** A report from an SMS centre about an earlier message. */
  datatype Query = Query(smsc: Octstr, ts: Octstr, dst: Option<Octstr>, typ: int, useDst: bool)

  /** The message made of a report; empty fields of the entry stay unset. */
  datatype Report = Report(uid: nat, service: Option<Octstr>, smscId: Option<Octstr>, receiver: Option<Octstr>,
                           sender: Option<Octstr>, url: Option<Octstr>, boxcId: Option<Octstr>,
                           foreignId: Octstr, typ: int, askedFor: int)

  // ----- matching

  predicate EndsWith(s: Octstr, tail: Octstr) { |tail| <= |s| && s[|s| - |tail|..] == tail }

  /** octstr_search from a position: the needle at or behind it, or an empty needle. */
  predicate FoundFrom(hay: Octstr, needle: Octstr, pos: nat) {
    needle == [] || exists i :: pos <= i <= |hay| - |needle| && Holds(hay, i, needle)
  }

  /** The search starts so late that it compares the ends. */
  lemma SearchComparesEnds(hay: Octstr, needle: Octstr)
    requires |needle| <= |hay|
    ensures FoundFrom(hay, needle, |hay| - |needle|) <==> EndsWith(hay, needle)
  {
    var i := |hay| - |needle|;
    assert hay[i..i + |needle|] == hay[i..];
    assert EndsWith(hay, needle) <==> Holds(hay, i, needle);
  }

  predicate Matches(e: Entry, smsc: Octstr, ts: Octstr, dst: Option<Octstr>) {
    e.smsc == smsc && e.timestamp == ts && (dst.Some? ==> EndsWith(e.destination, dst.value))
  }

  method EntryMatch(e: Entry, smsc: Octstr, ts: Octstr, dst: Option<Octstr>) returns (match': bool)
    ensures match' <==> Matches(e, smsc, ts, dst)
  {
    if dst.Some? {
      var pos := |e.destination| - |dst.value|;
      if pos < 0 { return false; }
      SearchComparesEnds(e.destination, dst.value);
      return e.smsc == smsc && e.timestamp == ts && FoundFrom(e.destination, dst.value, pos);
    }
    return e.smsc == smsc && e.timestamp == ts;
  }

  /** The first matching entry, or the length of the list. */
  function First(list: seq<Entry>, smsc: Octstr, ts: Octstr, dst: Option<Octstr>): (i: nat)
    ensures i <= |list| && (i < |list| ==> Matches(list[i], smsc, ts, dst))
    ensures forall j :: 0 <= j < i ==> !Matches(list[j], smsc, ts, dst)
  {
    if list == [] || Matches(list[0], smsc, ts, dst) then 0 else 1 + First(list[1..], smsc, ts, dst)
  }

  /** The number to match: only its last seven octets count. */
  function Shortened(dst: Option<Octstr>, useDst: bool): Option<Octstr> {
    if !useDst || dst.None? then None
    else if |dst.value| > MIN_DST_LEN then Some(dst.value[|dst.value| - MIN_DST_LEN..])
    else dst
  }

  function Hit(list: seq<Entry>, q: Query): (i: nat)
    ensures i <= |list|
  {
    if q.smsc == [] then |list| else First(list, q.smsc, q.ts, Shortened(q.dst, q.useDst))
  }

  // ----- adding and reporting

  function OrEmpty(s: Option<Octstr>): Octstr { if s.Some? then s.value else [] }

  function IfAny(s: Octstr): Option<Octstr> { if s == [] then None else Some(s) }

  function EntryOf(uid: nat, smsc: Octstr, ts: Option<Octstr>, m: Sent): Entry {
    Entry(uid, smsc, OrEmpty(ts), OrEmpty(m.sender), OrEmpty(m.receiver), OrEmpty(m.service), OrEmpty(m.url),
          OrEmpty(m.boxcId), m.mask)
  }

  function ReportOf(e: Entry, q: Query): Report {
    Report(e.uid, IfAny(e.service), IfAny(e.smsc), IfAny(e.destination), IfAny(e.source), IfAny(e.url), IfAny(e.boxcId),
           q.ts, q.typ, e.mask)
  }

  /** A field as a report gives it back: an empty text is as good as none. */
  function Present(s: Option<Octstr>): Option<Octstr> { if s == Some([]) then None else s }

  /** A report about a message that was waited for names its own sender, receiver, service, address and box. */
  lemma ReportCarries(uid: nat, smsc: Octstr, ts: Option<Octstr>, m: Sent, q: Query)
    ensures var r := ReportOf(EntryOf(uid, smsc, ts, m), q);
            && r.sender == Present(m.sender) && r.receiver == Present(m.receiver) && r.service == Present(m.service)
            && r.url == Present(m.url) && r.boxcId == Present(m.boxcId) && r.smscId == Present(Some(smsc))
            && r.askedFor == m.mask && r.typ == q.typ
  {
  }

  /** More reports are expected for the entry after this one. */
  predicate Expects(e: Entry, typ: int) { NotFinal(typ) && SuccessOrFail(e.mask) }

  function Without(list: seq<Entry>, i: nat): seq<Entry>
    requires i < |list|
  {
    list[..i] + list[i + 1..]
  }

  /** What is left of the list after a report. */
  function Kept(list: seq<Entry>, q: Query): seq<Entry> {
    var i := Hit(list, q);
    if i == |list| || Expects(list[i], q.typ) then list else Without(list, i)
  }

  /** The message a report gives rise to. */
  function Made(list: seq<Entry>, q: Query): Option<Report> {
    var i := Hit(list, q);
    if i < |list| && Shares(q.typ, list[i].mask) then Some(ReportOf(list[i], q)) else None
  }

  /** The waiting list, updated in place. */
  class WaitingList {
    var list: seq<Entry>
    var nextUid: nat

    constructor ()
      ensures State(list, nextUid) == State([], 0)
    {
      list, nextUid := [], 0;
    }

    method Add(smsc: Octstr, ts: Option<Octstr>, m: Sent)
      modifies this
      ensures State(list, nextUid) == Next(old(State(list, nextUid)), Event.Add(smsc, ts, m))
    {
      if |smsc| == 0 || !Enabled(m.mask) { return; }
      list := list + [EntryOf(nextUid, smsc, ts, m)];
      nextUid := nextUid + 1;
    }

    method Get(smsc: Octstr, ts: Octstr, dst: Option<Octstr>) returns (entry: Option<Entry>)
      ensures var i := First(list, smsc, ts, dst); entry == if i < |list| then Some(list[i]) else None
    {
      entry := None;
      for i := 0 to |list|
        invariant entry == None
        invariant forall j :: 0 <= j < i ==> !Matches(list[j], smsc, ts, dst)
      {
        var here := EntryMatch(list[i], smsc, ts, dst);
        if here { return Some(list[i]); }
      }
    }

    method Remove(smsc: Octstr, ts: Octstr, dst: Option<Octstr>)
      modifies `list
      ensures var was := old(list);
              var i := First(was, smsc, ts, dst);
              list == if i < |was| then Without(was, i) else was
    {
      for i := 0 to |list|
        invariant list == old(list)
        invariant forall j :: 0 <= j < i ==> !Matches(list[j], smsc, ts, dst)
      {
        var here := EntryMatch(list[i], smsc, ts, dst);
        if here {
          list := list[..i] + list[i + 1..];
          return;
        }
      }
    }

    method Find(q: Query) returns (report: Option<Report>)
      modifies `list
      ensures list == Kept(old(list), q) && report == Made(old(list), q)
    {
      report := None;
      if |q.smsc| == 0 { return; }
      var dstMin := None;
      if q.useDst && q.dst.Some? {
        dstMin := q.dst;
        if |q.dst.value| > MIN_DST_LEN { dstMin := Some(q.dst.value[|q.dst.value| - MIN_DST_LEN..]); }
      }
      assert dstMin == Shortened(q.dst, q.useDst);
      var found := Get(q.smsc, q.ts, dstMin);
      if found.None? { return; }
      var wanted, more := Shares(q.typ, found.value.mask), Expects(found.value, q.typ);
      if wanted { report := Some(ReportOf(found.value, q)); }
      if !more { Remove(q.smsc, q.ts, dstMin); }
    }
  }

  // ----- runs

  datatype Event = Add(smsc: Octstr, ts: Option<Octstr>, m: Sent) | Ask(q: Query)

  datatype State = State(list: seq<Entry>, nextUid: nat)

  function Next(s: State, e: Event): State {
    match e
    case Add(smsc, ts, m) =>
      if smsc == [] || !Enabled(m.mask) then s else State(s.list + [EntryOf(s.nextUid, smsc, ts, m)], s.nextUid + 1)
    case Ask(q) => s.(list := Kept(s.list, q))
  }

  function Run(s: State, events: seq<Event>): State
    decreases |events|
  {
    if events == [] then s else Run(Next(s, events[0]), events[1..])
  }

  /** Records are allocated with ever new identities and stay in that order. */
  ghost predicate Ordered(s: State) {
    && (forall i :: 0 <= i < |s.list| ==> s.list[i].uid < s.nextUid)
    && forall i, j :: 0 <= i < j < |s.list| ==> s.list[i].uid < s.list[j].uid
  }

  predicate Waits(s: State, x: Entry) { x in s.list }

  predicate Known(s: State, uid: nat) { exists i :: 0 <= i < |s.list| && s.list[i].uid == uid }

  /** The event is a report about this record. */
  predicate About(s: State, e: Event, uid: nat) {
    e.Ask? && Hit(s.list, e.q) < |s.list| && s.list[Hit(s.list, e.q)].uid == uid
  }

  /** The reports of a run that are about one record, in order. */
  function Reports(s: State, events: seq<Event>, uid: nat): seq<Query>
    decreases |events|
  {
    if events == [] then []
    else (if About(s, events[0], uid) then [events[0].q] else []) + Reports(Next(s, events[0]), events[1..], uid)
  }

  function MessageNow(s: State, e: Event, uid: nat): seq<Report> {
    var made := if e.Ask? then Made(s.list, e.q) else None;
    if made.Some? && made.value.uid == uid then [made.value] else []
  }

  /** The messages of a run that were made from one record, in order. */
  function MessagesOf(s: State, events: seq<Event>, uid: nat): seq<Report>
    decreases |events|
  {
    if events == [] then []
    else MessageNow(s, events[0], uid) + MessagesOf(Next(s, events[0]), events[1..], uid)
  }

  lemma NextOrdered(s: State, e: Event)
    requires Ordered(s)
    ensures Ordered(Next(s, e)) && Next(s, e).nextUid >= s.nextUid
  {
  }

  lemma WithoutOne(s: State, h: nat, uid: nat)
    requires Ordered(s) && h < |s.list|
    ensures Known(s.(list := Without(s.list, h)), uid) <==> Known(s, uid) && uid != s.list[h].uid
  {
    var after := Without(s.list, h);
    forall j | 0 <= j < |after| ensures after[j] == s.list[if j < h then j else j + 1] {}
    if Known(s, uid) && uid != s.list[h].uid {
      var i :| 0 <= i < |s.list| && s.list[i].uid == uid;
      assert after[if i < h then i else i - 1].uid == uid;
    }
  }

  lemma WithoutAnother(list: seq<Entry>, h: nat, x: Entry)
    requires h < |list| && x in list && x != list[h]
    ensures x in Without(list, h)
  {
    var i :| 0 <= i < |list| && list[i] == x;
    assert Without(list, h)[if i < h then i else i - 1] == x;
  }

  /** An entry leaves the list exactly when a report is about it and no more reports are expected. */
  lemma LeavesIff(s: State, e: Event, x: Entry)
    requires Ordered(s) && Waits(s, x)
    ensures Waits(Next(s, e), x) <==> !(About(s, e, x.uid) && !Expects(x, e.q.typ))
    ensures Known(Next(s, e), x.uid) <==> Waits(Next(s, e), x)
  {
    if Next(s, e).list == s.list {
      if About(s, e, x.uid) { UidNames(s, Hit(s.list, e.q), x); }
    } else if e.Ask? {
      RemovedIff(s, e.q, x);
    }
  }

  lemma RemovedIff(s: State, q: Query, x: Entry)
    requires Ordered(s) && Waits(s, x) && Kept(s.list, q) != s.list
    ensures Waits(Next(s, Ask(q)), x) <==> !About(s, Ask(q), x.uid)
    ensures Known(Next(s, Ask(q)), x.uid) <==> Waits(Next(s, Ask(q)), x)
    ensures About(s, Ask(q), x.uid) ==> !Expects(x, q.typ)
  {
    var h := Hit(s.list, q);
    WithoutOne(s, h, x.uid);
    if x.uid == s.list[h].uid { UidNames(s, h, x); } else { WithoutAnother(s.list, h, x); }
  }

  /** What is gone does not come back. */
  lemma NotBack(s: State, e: Event, uid: nat)
    requires Ordered(s) && uid < s.nextUid && !Known(s, uid)
    ensures !Known(Next(s, e), uid)
  {
    if e.Ask? && Hit(s.list, e.q) < |s.list| { WithoutOne(s, Hit(s.list, e.q), uid); }
  }

  /** A record that is gone produces nothing in any later run. */
  lemma {:induction false} NothingAfter(s: State, events: seq<Event>, uid: nat)
    requires Ordered(s) && uid < s.nextUid && !Known(s, uid)
    ensures Reports(s, events, uid) == [] && MessagesOf(s, events, uid) == [] && !Known(Run(s, events), uid)
    decreases |events|
  {
    if events != [] {
      NextOrdered(s, events[0]);
      NotBack(s, events[0], uid);
      NothingAfter(Next(s, events[0]), events[1..], uid);
    }
  }

  /** Over every run: only the last report about an entry can be one that expects no more,
      and the entry is still there exactly when no such report came. */
  lemma {:induction false} LifeCycle(s: State, events: seq<Event>, x: Entry)
    requires Ordered(s) && Waits(s, x)
    ensures var rs := Reports(s, events, x.uid);
            && (forall i :: 0 <= i < |rs| - 1 ==> Expects(x, rs[i].typ))
            && (Waits(Run(s, events), x) <==> (rs == [] || Expects(x, rs[|rs| - 1].typ)))
    decreases |events|
  {
    if events != [] {
      var e, next, tail := events[0], Next(s, events[0]), events[1..];
      NextOrdered(s, e);
      LeavesIff(s, e, x);
      if Waits(next, x) {
        LifeCycle(next, tail, x);
      } else {
        NothingAfter(next, tail, x.uid);
        assert !Known(Run(next, tail), x.uid);
      }
    }
  }

  /** The message an entry owes for a report, if any. */
  function Owed(x: Entry, q: Query): seq<Report> { if Shares(q.typ, x.mask) then [ReportOf(x, q)] else [] }

  function AllOwed(x: Entry, rs: seq<Query>): seq<Report> {
    if rs == [] then [] else Owed(x, rs[0]) + AllOwed(x, rs[1..])
  }

  lemma MessageNowIsOwed(s: State, e: Event, x: Entry)
    requires Ordered(s) && Waits(s, x)
    ensures MessageNow(s, e, x.uid) == if About(s, e, x.uid) then Owed(x, e.q) else []
  {
    if About(s, e, x.uid) { UidNames(s, Hit(s.list, e.q), x); }
  }

  lemma AllOwedStep(x: Entry, q: Query, rest: seq<Query>)
    ensures AllOwed(x, [q] + rest) == Owed(x, q) + AllOwed(x, rest)
  {
    assert ([q] + rest)[1..] == rest;
  }

  /** Over every run: the messages made from an entry answer exactly the reports about it that share its mask. */
  lemma {:induction false} MessagesAreOwed(s: State, events: seq<Event>, x: Entry)
    requires Ordered(s) && Waits(s, x)
    ensures MessagesOf(s, events, x.uid) == AllOwed(x, Reports(s, events, x.uid))
    decreases |events|, 0
  {
    if events != [] {
      var e, tail := events[0], events[1..];
      var later := Reports(Next(s, e), tail, x.uid);
      RestIsOwed(s, e, tail, x);
      MessageNowIsOwed(s, e, x);
      assert MessagesOf(s, events, x.uid) == MessageNow(s, e, x.uid) + AllOwed(x, later);
      if About(s, e, x.uid) {
        AllOwedStep(x, e.q, later);
        assert Reports(s, events, x.uid) == [e.q] + later;
      } else {
        assert Reports(s, events, x.uid) == later;
      }
    }
  }

  lemma {:induction false} RestIsOwed(s: State, e: Event, tail: seq<Event>, x: Entry)
    requires Ordered(s) && Waits(s, x)
    ensures MessagesOf(Next(s, e), tail, x.uid) == AllOwed(x, Reports(Next(s, e), tail, x.uid))
    decreases |tail|, 1
  {
    NextOrdered(s, e);
    LeavesIff(s, e, x);
    if Waits(Next(s, e), x) {
      MessagesAreOwed(Next(s, e), tail, x);
    } else {
      NothingAfter(Next(s, e), tail, x.uid);
    }
  }

  lemma UidNames(s: State, h: nat, x: Entry)
    requires Ordered(s) && Waits(s, x) && h < |s.list| && s.list[h].uid == x.uid
    ensures s.list[h] == x
  {
    var i :| 0 <= i < |s.list| && s.list[i] == x;
    assert i == h;
  }

  /** The entry removed is the one the message was made from, and no other entry is touched. */
  lemma RemovedIsReported(s: State, q: Query, x: Entry)
    requires Ordered(s) && Waits(s, x) && !Waits(Next(s, Ask(q)), x)
    ensures Made(s.list, q).Some? ==> Made(s.list, q).value == ReportOf(x, q)
    ensures forall y :: Waits(s, y) && y != x ==> Waits(Next(s, Ask(q)), y)
  {
    var e, h := Ask(q), Hit(s.list, q);
    LeavesIff(s, e, x);
    UidNames(s, h, x);
    forall y | Waits(s, y) && y != x ensures Waits(Next(s, e), y) {
      if y.uid == x.uid { UidNames(s, h, y); }
      LeavesIff(s, e, y);
    }
  }

  predicate NoneFinal(rs: seq<Query>) { forall i :: 0 <= i < |rs| ==> NotFinal(rs[i].typ) }

  /** An entry that asks for success or failure survives any run without a final report about it. */
  lemma SurvivesNonFinal(s: State, events: seq<Event>, x: Entry)
    requires Ordered(s) && Waits(s, x) && SuccessOrFail(x.mask)
    ensures Waits(Run(s, events), x) <==> NoneFinal(Reports(s, events, x.uid))
  {
    LifeCycle(s, events, x);
  }

  lemma {:induction false} RunOrdered(s: State, events: seq<Event>)
    requires Ordered(s)
    ensures Ordered(Run(s, events))
    decreases |events|
  {
    if events != [] {
      NextOrdered(s, events[0]);
      RunOrdered(Next(s, events[0]), events[1..]);
    }
  }

  /** Entries that are still there after a run stand in the order they stood in before it. */
  lemma OrderKept(s: State, events: seq<Event>, i: nat, j: nat, i': nat, j': nat)
    requires Ordered(s) && i < j < |s.list|
    requires i' < |Run(s, events).list| && Run(s, events).list[i'] == s.list[i]
    requires j' < |Run(s, events).list| && Run(s, events).list[j'] == s.list[j]
    ensures i' < j'
  {
    RunOrdered(s, events);
  }

  // ----- reports handled at the same time

  /** dlr_find takes the lock once to look up an entry and once more to remove one. Between the two
      other threads may add entries or do their removals. */
  datatype Fine = Put(smsc: Octstr, ts: Option<Octstr>, m: Sent) | Drop(q: Query)

  function Dropped(list: seq<Entry>, q: Query): seq<Entry> {
    if Hit(list, q) < |list| then Without(list, Hit(list, q)) else list
  }

  function FineNext(s: State, f: Fine): State {
    match f
    case Put(smsc, ts, m) => Next(s, Event.Add(smsc, ts, m))
    case Drop(q) => s.(list := Dropped(s.list, q))
  }

  function FineRun(s: State, steps: seq<Fine>): State
    decreases |steps|
  {
    if steps == [] then s else FineRun(FineNext(s, steps[0]), steps[1..])
  }

  /** Whatever is older than a moment was there at that moment. */
  ghost predicate OldOnesFrom(s: State, s': State) {
    s'.nextUid >= s.nextUid && forall y :: y in s'.list && y.uid < s.nextUid ==> y in s.list
  }

  lemma FineStep(s: State, f: Fine)
    requires Ordered(s)
    ensures Ordered(FineNext(s, f)) && OldOnesFrom(s, FineNext(s, f))
  {
    if f.Drop? {
      if Hit(s.list, f.q) < |s.list| { WithoutOrdered(s, Hit(s.list, f.q)); }
    } else {
      NextOrdered(s, Event.Add(f.smsc, f.ts, f.m));
    }
  }

  lemma WithoutOrdered(s: State, h: nat)
    requires Ordered(s) && h < |s.list|
    ensures var s' := s.(list := Without(s.list, h));
            Ordered(s') && OldOnesFrom(s, s')
  {
    var after := Without(s.list, h);
    forall j | 0 <= j < |after| ensures after[j] == s.list[if j < h then j else j + 1] {}
  }

  lemma {:induction false} FineRunKeeps(s: State, steps: seq<Fine>)
    requires Ordered(s)
    ensures Ordered(FineRun(s, steps)) && OldOnesFrom(s, FineRun(s, steps))
    decreases |steps|
  {
    if steps != [] {
      FineStep(s, steps[0]);
      FineRunKeeps(FineNext(s, steps[0]), steps[1..]);
    }
  }

  /** No entry in front of the one that was looked up matches later either. */
  lemma StillFirst(s: State, q: Query, s': State, h: nat, i: nat)
    requires Ordered(s) && Ordered(s') && OldOnesFrom(s, s')
    requires h == Hit(s.list, q) < |s.list| && i < |s'.list| && s'.list[i] == s.list[h]
    ensures Hit(s'.list, q) == i
  {
    var dst := Shortened(q.dst, q.useDst);
    forall j | 0 <= j < i ensures !Matches(s'.list[j], q.smsc, q.ts, dst) {
      assert s'.list[j] in s.list;
      var k :| 0 <= k < |s.list| && s.list[k] == s'.list[j];
      assert k < h;
    }
  }

  /** The removal takes the very entry that was looked up exactly when that entry is still waiting, so
      when no other thread has removed it in between. Otherwise it takes another entry, if one matches. */
  lemma OwnEntryRemovedIff(s: State, q: Query, steps: seq<Fine>)
    requires Ordered(s) && Hit(s.list, q) < |s.list|
    ensures var x, s' := s.list[Hit(s.list, q)], FineRun(s, steps);
            Waits(s', x) <==> Hit(s'.list, q) < |s'.list| && s'.list[Hit(s'.list, q)] == x
  {
    var x, s' := s.list[Hit(s.list, q)], FineRun(s, steps);
    FineRunKeeps(s, steps);
    if Waits(s', x) {
      var i :| 0 <= i < |s'.list| && s'.list[i] == x;
      StillFirst(s, q, s', Hit(s.list, q), i);
    }
  }

  /** Two threads with the same final report and two matching entries: both look up the first entry,
      and the second removal takes the other one. */
  lemma OtherEntryRemoved(a: Entry, b: Entry, q: Query, n: nat)
    requires a.uid < b.uid < n && q.smsc != []
    requires Matches(a, q.smsc, q.ts, Shortened(q.dst, q.useDst))
    requires Matches(b, q.smsc, q.ts, Shortened(q.dst, q.useDst))
    ensures Hit([a, b], q) == 0 && FineRun(State([a, b], n), [Drop(q), Drop(q)]).list == []
  {
    var s := State([a, b], n);
    assert Without([a, b], 0) == [b] && Without([b], 0) == [];
    assert [Drop(q), Drop(q)][1..] == [Drop(q)];
    assert FineNext(s, Drop(q)).list == [b];
    assert FineRun(State([b], n), [Drop(q)]).list == [];
  }
}
