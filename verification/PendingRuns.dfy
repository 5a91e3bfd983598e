/** Runs of the pending-part table: arrivals interleaved with flushing threads that take
    timed-out entries, send their parts one by one and give the entry up or put it back. */
module PendingRuns {
  import opened Octets
  import opened Messages
  import opened Slots
  import opened Reassembly

  /** An entry a flushing thread took out of the table. `found` says whether its connection still
      exists; slots before `next` were tried. */
  datatype Hand = Hand(entry: Entry, found: bool, next: nat, failed: bool)

  datatype State = State(table: Table, hands: seq<Hand>)

  datatype Event =
    | Arrival(msg: SmsMsg, smscId: Option<Octstr>, now: int, storeOk: bool, newId: Uuid)
    | Take(key: Key, now: int, timeout: int, force: bool, found: bool)
    | Send(h: nat, sent: bool)
    | Finish(h: nat)

  /** The parts of one key that an event lets in, acknowledges because they were joined or are there
      already, gives up unsent, and hands to the router. */
  datatype Effect = Nothing | Effect(key: Key, accepted: Row, acked: Row, dropped: Row, forwarded: Row)

  datatype Stepped = Stepped(state: State, effect: Effect)

  /** Slots that were tried are empty, and nothing is tried without a connection. */
  predicate GoodHand(h: Hand) {
    && GoodEntry(h.entry) && h.next <= |h.entry.parts| && (h.found || !h.failed)
    && forall i :: 0 <= i < h.next ==> h.entry.parts[i].None?
  }

  predicate Good(s: State) {
    GoodTable(s.table) && forall i :: 0 <= i < |s.hands| ==> GoodHand(s.hands[i])
  }

  predicate InPlaceState(s: State) {
    AllInPlace(s.table) && forall i :: 0 <= i < |s.hands| ==> InPlace(s.hands[i].entry)
  }

  const INITIAL := State(map[], [])

  /** One round of the sending loop; `sent` is whether the router took the part. */
  function Tried(h: Hand, sent: bool): Hand
    requires h.next < |h.entry.parts|
  {
    if h.entry.parts[h.next].None? then h.(next := h.next + 1)
    else if sent then
      h.(entry := h.entry.(parts := h.entry.parts[h.next := None], num := h.entry.num - 1), next := h.next + 1)
    else h.(failed := true)
  }

  predicate Sendable(h: Hand) { h.found && !h.failed && h.next < |h.entry.parts| }

  function Without(hands: seq<Hand>, h: nat): seq<Hand>
    requires h < |hands|
  {
    hands[..h] + hands[h + 1..]
  }

  /** One step of any thread; an event that is not enabled changes nothing. */
  function Step(s: State, e: Event): Stepped
    requires Good(s)
  {
    match e
    case Arrival(msg, smscId, now, storeOk, newId) =>
      var r, slot := Arrive(s.table, msg, smscId, now, storeOk, newId), SlotOf(msg, smscId);
      Stepped(s.(table := r.table), if slot.Whole? then Nothing else Effect(slot.key, [Some(msg)], r.acked, [], []))
    case Take(key, now, timeout, force, found) =>
      if key !in s.table || (!force && now - s.table[key].trecv < timeout) then Stepped(s, Nothing)
      else Stepped(State(s.table - {key}, s.hands + [Hand(s.table[key], found, 0, false)]), Nothing)
    case Send(h, sent) =>
      if h >= |s.hands| || !Sendable(s.hands[h]) then Stepped(s, Nothing)
      else
        var hand := s.hands[h];
        Stepped(s.(hands := s.hands[h := Tried(hand, sent)]),
                if sent then Effect(hand.entry.key, [], [], [], [hand.entry.parts[hand.next]]) else Nothing)
    case Finish(h) =>
      if h >= |s.hands| || Sendable(s.hands[h]) then Stepped(s, Nothing)
      else
        var x, rest := s.hands[h].entry, Without(s.hands, h);
        if !s.hands[h].found then Stepped(State(s.table, rest), Effect(x.key, [], [], x.parts, []))
        else if !s.hands[h].failed then Stepped(State(s.table, rest), Effect(x.key, [], x.parts, [], []))
        else
          var r := PutBack(s.table, x);
          Stepped(State(r.table, rest), Effect(x.key, [], r.acked, [], []))
  }

  lemma TriedKeepsGood(h: Hand, sent: bool)
    requires GoodHand(h) && Sendable(h)
    ensures GoodHand(Tried(h, sent))
  {
    FilledUpdate(h.entry.parts, h.next, None);
  }

  lemma StepKeepsGood(s: State, e: Event)
    requires Good(s)
    ensures Good(Step(s, e).state)
  {
    match e
    case Arrival(msg, smscId, now, storeOk, newId) => ArriveKeepsGood(s.table, msg, smscId, now, storeOk, newId);
    case Take(key, now, timeout, force, found) =>
    case Send(h, sent) =>
      if h < |s.hands| && Sendable(s.hands[h]) { TriedKeepsGood(s.hands[h], sent); }
    case Finish(h) =>
      if h < |s.hands| { PutBackKeepsGood(s.table, s.hands[h].entry); }
  }

  lemma StepKeepsInPlace(s: State, e: Event)
    requires Good(s) && InPlaceState(s)
    ensures InPlaceState(Step(s, e).state)
  {
    match e
    case Arrival(msg, smscId, now, storeOk, newId) => ArriveKeepsInPlace(s.table, msg, smscId, now, storeOk, newId);
    case Take(key, now, timeout, force, found) =>
    case Send(h, sent) =>
    case Finish(h) =>
      if h < |s.hands| { PutBackKeepsInPlace(s.table, s.hands[h].entry); }
  }

  function Run(s: State, events: seq<Event>): State
    requires Good(s)
    decreases |events|
  {
    if events == [] then s
    else
      StepKeepsGood(s, events[0]);
      Run(Step(s, events[0]).state, events[1..])
  }

  /** In every reachable state all slot counts and part counts are right, in the table and in the
      hands of flushing threads, and every part sits where its own header says. */
  lemma {:induction false} RunKeepsGood(s: State, events: seq<Event>)
    requires Good(s) && InPlaceState(s)
    ensures Good(Run(s, events)) && InPlaceState(Run(s, events))
    decreases |events|
  {
    if events != [] {
      StepKeepsGood(s, events[0]);
      StepKeepsInPlace(s, events[0]);
      RunKeepsGood(Step(s, events[0]).state, events[1..]);
    }
  }

  lemma ReachableGood(events: seq<Event>)
    ensures Good(Run(INITIAL, events)) && InPlaceState(Run(INITIAL, events))
  {
    RunKeepsGood(INITIAL, events);
  }

  // ----- no part is lost or doubled

  function InTable(t: Table, key: Key, m: SmsMsg): nat {
    if key in t then Copies(t[key].parts, m) else 0
  }

  function InHands(hands: seq<Hand>, key: Key, m: SmsMsg): nat {
    if hands == [] then 0
    else (if hands[0].entry.key == key then Copies(hands[0].entry.parts, m) else 0) + InHands(hands[1..], key, m)
  }

  /** How often a part was let in under a key, acknowledged, given up and handed to the router. */
  datatype Ledger = Ledger(accepted: nat, acked: nat, dropped: nat, forwarded: nat)

  function Entries(e: Effect, key: Key, m: SmsMsg): Ledger {
    if e.Nothing? || e.key != key then Ledger(0, 0, 0, 0)
    else Ledger(Copies(e.accepted, m), Copies(e.acked, m), Copies(e.dropped, m), Copies(e.forwarded, m))
  }

  function Add(a: Ledger, b: Ledger): Ledger {
    Ledger(a.accepted + b.accepted, a.acked + b.acked, a.dropped + b.dropped, a.forwarded + b.forwarded)
  }

  function Tally(s: State, events: seq<Event>, key: Key, m: SmsMsg): Ledger
    requires Good(s)
    decreases |events|
  {
    if events == [] then Ledger(0, 0, 0, 0)
    else
      StepKeepsGood(s, events[0]);
      Add(Entries(Step(s, events[0]).effect, key, m), Tally(Step(s, events[0]).state, events[1..], key, m))
  }

  function Present(s: State, key: Key, m: SmsMsg): nat { InTable(s.table, key, m) + InHands(s.hands, key, m) }

  /** What came in equals what is there, was acknowledged, was given up or went on. */
  predicate Balanced(s: State, l: Ledger, s': State, key: Key, m: SmsMsg) {
    Present(s, key, m) + l.accepted == Present(s', key, m) + l.acked + l.dropped + l.forwarded
  }

  lemma {:induction false} HandsUpdate(hands: seq<Hand>, h: nat, hand: Hand, key: Key, m: SmsMsg)
    requires h < |hands| && hand.entry.key == hands[h].entry.key
    ensures InHands(hands[h := hand], key, m) + (if hand.entry.key == key then Copies(hands[h].entry.parts, m) else 0)
         == InHands(hands, key, m) + (if hand.entry.key == key then Copies(hand.entry.parts, m) else 0)
  {
    if h == 0 {
      assert hands[h := hand][1..] == hands[1..];
    } else {
      HandsUpdate(hands[1..], h - 1, hand, key, m);
      assert hands[h := hand][1..] == hands[1..][h - 1 := hand];
    }
  }

  lemma {:induction false} HandsWithout(hands: seq<Hand>, h: nat, key: Key, m: SmsMsg)
    requires h < |hands|
    ensures InHands(hands, key, m)
         == InHands(Without(hands, h), key, m)
          + (if hands[h].entry.key == key then Copies(hands[h].entry.parts, m) else 0)
  {
    if h == 0 {
      assert Without(hands, h) == hands[1..];
    } else {
      HandsWithout(hands[1..], h - 1, key, m);
      assert Without(hands, h)[1..] == Without(hands[1..], h - 1);
    }
  }

  lemma {:induction false} HandsAppend(hands: seq<Hand>, hand: Hand, key: Key, m: SmsMsg)
    ensures InHands(hands + [hand], key, m)
         == InHands(hands, key, m) + (if hand.entry.key == key then Copies(hand.entry.parts, m) else 0)
  {
    if hands == [] {
      assert hands + [hand] == [hand];
    } else {
      HandsAppend(hands[1..], hand, key, m);
      assert (hands + [hand])[1..] == hands[1..] + [hand];
    }
  }

  lemma ArriveConserves(t: Table, msg: SmsMsg, smscId: Option<Octstr>, now: int, storeOk: bool, newId: Uuid,
                        key: Key, m: SmsMsg)
    requires GoodTable(t)
    ensures var slot, r := SlotOf(msg, smscId), Arrive(t, msg, smscId, now, storeOk, newId);
            if slot.Part? && slot.key == key
            then InTable(t, key, m) + Copies([Some(msg)], m) == InTable(r.table, key, m) + Copies(r.acked, m)
            else InTable(r.table, key, m) == InTable(t, key, m)
  {
    var slot := SlotOf(msg, smscId);
    if slot.Part? && slot.key == key {
      PartConserves(t, key, slot.i, msg, now, storeOk, newId, m);
    }
  }

  lemma PartConserves(t: Table, key: Key, i: nat, msg: SmsMsg, now: int, storeOk: bool, newId: Uuid, m: SmsMsg)
    requires GoodTable(t) && i < key.total
    ensures var r := ArrivePart(t, key, i, msg, now, storeOk, newId);
            InTable(t, key, m) + Copies([Some(msg)], m) == InTable(r.table, key, m) + Copies(r.acked, m)
  {
    var e := Entered(t, key, now);
    VacantCopies(Vacant(key.total), m);
    assert Copies(e.parts, m) == InTable(t, key, m);
    CopiesUpdate(e.parts, i, Some(msg), m);
    assert Copies([Some(msg)], m) == if msg == m then 1 else 0;
  }

  lemma StepConserves(s: State, e: Event, key: Key, m: SmsMsg)
    requires Good(s)
    ensures Balanced(s, Entries(Step(s, e).effect, key, m), Step(s, e).state, key, m)
  {
    match e
    case Arrival(msg, smscId, now, storeOk, newId) =>
      ArriveConserves(s.table, msg, smscId, now, storeOk, newId, key, m);
    case Take(k, now, timeout, force, found) =>
      if k in s.table { HandsAppend(s.hands, Hand(s.table[k], found, 0, false), key, m); }
    case Send(h, sent) => SendConserves(s, h, sent, key, m);
    case Finish(h) => FinishConserves(s, h, key, m);
  }

  lemma SendConserves(s: State, h: nat, sent: bool, key: Key, m: SmsMsg)
    requires Good(s)
    ensures Balanced(s, Entries(Step(s, Send(h, sent)).effect, key, m), Step(s, Send(h, sent)).state, key, m)
  {
    if h < |s.hands| && Sendable(s.hands[h]) {
      var hand := s.hands[h];
      HandsUpdate(s.hands, h, Tried(hand, sent), key, m);
      CopiesUpdate(hand.entry.parts, hand.next, None, m);
      assert Copies([hand.entry.parts[hand.next]], m) == if hand.entry.parts[hand.next] == Some(m) then 1 else 0;
    }
  }

  lemma FinishConserves(s: State, h: nat, key: Key, m: SmsMsg)
    requires Good(s)
    ensures Balanced(s, Entries(Step(s, Finish(h)).effect, key, m), Step(s, Finish(h)).state, key, m)
  {
    if h < |s.hands| && !Sendable(s.hands[h]) {
      HandsWithout(s.hands, h, key, m);
      var x := s.hands[h].entry;
      if s.hands[h].failed && x.key in s.table {
        MergeConserves(s.table[x.key].parts, x.parts, m);
      }
    }
  }

  /** Over every run, each part let in under a key is in the table, in the hands of a flushing
      thread, acknowledged as joined or doubled, given up or handed to the router, as often as it came. */
  lemma {:induction false} PartsConserved(s: State, events: seq<Event>, key: Key, m: SmsMsg)
    requires Good(s)
    ensures Balanced(s, Tally(s, events, key, m), Run(s, events), key, m)
    decreases |events|
  {
    if events != [] {
      StepConserves(s, events[0], key, m);
      StepKeepsGood(s, events[0]);
      PartsConserved(Step(s, events[0]).state, events[1..], key, m);
    }
  }

  // ----- when parts are given up

  /** A flush gives up exactly the parts of an entry whose connection is gone; with the connection
      there, it ends with no part left or with the entry put back. */
  lemma FinishDrops(s: State, h: nat, m: SmsMsg)
    requires Good(s) && h < |s.hands| && !Sendable(s.hands[h])
    ensures var hand, e := s.hands[h], Step(s, Finish(h)).effect;
            && Copies(e.dropped, m) == (if hand.found then 0 else Copies(hand.entry.parts, m))
            && (hand.found && !hand.failed ==> Copies(hand.entry.parts, m) == 0)
  {
    var hand := s.hands[h];
    if hand.found && !hand.failed {
      VacantCopies(hand.entry.parts, m);
    }
  }

  lemma DropsOnlyUnfound(s: State, e: Event, key: Key, m: SmsMsg)
    requires Good(s) && Entries(Step(s, e).effect, key, m).dropped > 0
    ensures e.Finish? && e.h < |s.hands| && !s.hands[e.h].found && s.hands[e.h].entry.key == key
  {
  }

  predicate AllFound(s: State) { forall i :: 0 <= i < |s.hands| ==> s.hands[i].found }

  /** As long as every flush finds its connection, no part is ever given up. */
  lemma {:induction false} NothingDropped(s: State, events: seq<Event>, key: Key, m: SmsMsg)
    requires Good(s) && AllFound(s) && forall e :: e in events && e.Take? ==> e.found
    ensures Tally(s, events, key, m).dropped == 0
    decreases |events|
  {
    if events != [] {
      StepKeepsGood(s, events[0]);
      if Entries(Step(s, events[0]).effect, key, m).dropped > 0 { DropsOnlyUnfound(s, events[0], key, m); }
      NothingDropped(Step(s, events[0]).state, events[1..], key, m);
    }
  }

  // ----- when a message completes

  /** Filled slots that `num` does not count. */
  function Deficit(e: Entry): int { Filled(e.parts) - e.num }

  predicate Declares(o: Outcome) { o.Joined? || o.StoreFailed? }

  /** A part completes its message exactly when its slot is the last empty one and no earlier
      merge left filled slots uncounted. */
  lemma CompletesIff(t: Table, msg: SmsMsg, smscId: Option<Octstr>, now: int, storeOk: bool, newId: Uuid)
    requires GoodTable(t) && SlotOf(msg, smscId).Part?
    ensures var s := SlotOf(msg, smscId);
            var e := Entered(t, s.key, now);
            (Declares(Arrive(t, msg, smscId, now, storeOk, newId).outcome) <==>
             Deficit(e) == 0 && e.parts[s.i].None? && Complete(e.parts[s.i := Some(msg)]))
  {
    var s := SlotOf(msg, smscId);
    var e := Entered(t, s.key, now);
    EnteredGood(t, s.key, now);
    FilledUpdate(e.parts, s.i, Some(msg));
    FilledBound(e.parts[s.i := Some(msg)]);
  }

  /** What a completed message is: the texts of parts 1 to n in order, part 1's other fields, the
      header without the concatenation element. The stored copy keeps part 1's header. */
  lemma JoinedIsWhole(t: Table, msg: SmsMsg, smscId: Option<Octstr>, now: int, storeOk: bool, newId: Uuid)
    requires GoodTable(t) && AllInPlace(t)
    requires Arrive(t, msg, smscId, now, storeOk, newId).outcome.Joined?
    ensures var s, r := SlotOf(msg, smscId), Arrive(t, msg, smscId, now, storeOk, newId);
            && s.Part? && |r.acked| == s.key.total && Complete(r.acked)
            && (forall i :: 0 <= i < s.key.total ==> Belongs(s.key, i, r.acked[i].value))
            && r.acked[s.i] == Some(msg)
            && r.outcome.msg.msgdata == r.outcome.saved.msgdata == Some(Join(TextsOf(r.acked)))
            && r.outcome.msg.udhdata == Some(s.key.udh)
            && Belongs(s.key, 0, r.outcome.saved)
            && r.table == t - {s.key}
  {
    var s := SlotOf(msg, smscId);
    var e := Entered(t, s.key, now);
    FillKeepsGood(t, s.key, s.i, msg, now);
    DeclaredComplete(Fill(e, s.i, msg, now));
    assert InPlace(e);
  }

  /** An arrival leaves the deficit of an uncompleted entry as it was. */
  lemma ArriveKeepsDeficit(t: Table, msg: SmsMsg, smscId: Option<Octstr>, now: int, storeOk: bool, newId: Uuid,
                           key: Key)
    requires GoodTable(t) && key in t && Deficit(t[key]) > 0
    ensures var r := Arrive(t, msg, smscId, now, storeOk, newId);
            && key in r.table && Deficit(r.table[key]) == Deficit(t[key])
            && (SlotOf(msg, smscId).Part? && SlotOf(msg, smscId).key == key ==> r.outcome.Pending?)
  {
    var s := SlotOf(msg, smscId);
    if s.Part? && s.key == key {
      FilledUpdate(t[key].parts, s.i, Some(msg));
      FilledBound(t[key].parts[s.i := Some(msg)]);
    }
  }

  predicate OnlyArrivals(events: seq<Event>) { forall e :: e in events ==> e.Arrival? }

  /** Once a merge has left slots uncounted, no arrivals whatever complete the message, even
      with every slot filled: it waits for the next time-out. */
  lemma {:induction false} UncountedNeverCompletes(s: State, events: seq<Event>, key: Key)
    requires Good(s) && OnlyArrivals(events) && key in s.table && Deficit(s.table[key]) > 0
    ensures key in Run(s, events).table && Deficit(Run(s, events).table[key]) == Deficit(s.table[key])
    decreases |events|
  {
    if events != [] {
      var e := events[0];
      ArriveKeepsDeficit(s.table, e.msg, e.smscId, e.now, e.storeOk, e.newId, key);
      StepKeepsGood(s, e);
      UncountedNeverCompletes(Step(s, e).state, events[1..], key);
    }
  }

  /** A message that could not be stored when its last part came stays behind complete. */
  lemma StoreFailureStays(t: Table, msg: SmsMsg, smscId: Option<Octstr>, now: int, storeOk: bool, newId: Uuid)
    requires GoodTable(t) && Arrive(t, msg, smscId, now, storeOk, newId).outcome.StoreFailed?
    ensures var s, r := SlotOf(msg, smscId), Arrive(t, msg, smscId, now, storeOk, newId);
            && s.Part? && s.key in r.table && Complete(r.table[s.key].parts) && r.table[s.key].parts[s.i] == Some(msg)
            && r.acked == []
  {
    CompletesIff(t, msg, smscId, now, storeOk, newId);
  }

  /** No arrivals whatever move a complete entry: the part that is sent again after the failure is
      taken for a duplicate, acknowledged and thrown away, and the message waits for the time-out. */
  lemma {:induction false} CompleteNeverJoins(s: State, events: seq<Event>, key: Key)
    requires Good(s) && OnlyArrivals(events) && key in s.table && Complete(s.table[key].parts)
    ensures key in Run(s, events).table && Run(s, events).table[key] == s.table[key]
    decreases |events|
  {
    if events != [] {
      var e := events[0];
      AnsweredAsDuplicate(s.table, e.msg, e.smscId, e.now, e.storeOk, e.newId, key);
      StepKeepsGood(s, e);
      CompleteNeverJoins(Step(s, e).state, events[1..], key);
    }
  }

  lemma AnsweredAsDuplicate(t: Table, msg: SmsMsg, smscId: Option<Octstr>, now: int, storeOk: bool, newId: Uuid,
                            key: Key)
    requires GoodTable(t) && key in t && Complete(t[key].parts)
    ensures var s, r := SlotOf(msg, smscId), Arrive(t, msg, smscId, now, storeOk, newId);
            && key in r.table && r.table[key] == t[key]
            && (s.Part? && s.key == key ==> r.outcome.Pending? && r.acked == [Some(msg)])
  {
    var s := SlotOf(msg, smscId);
    if s.Part? && s.key == key { assert t[key].parts[s.i].Some?; }
  }

  /** How a deficit arises: putting back adds exactly the parts the merge moved. */
  lemma PutBackDeficit(t: Table, x: Entry)
    requires GoodTable(t) && GoodEntry(x)
    ensures var e := PutBack(t, x).table[x.key];
            Deficit(e) == if x.key in t then Deficit(t[x.key]) + Gained(t[x.key], x) else Deficit(x)
  {
    if x.key in t { MergeGains(t[x.key], x); }
  }

  /** The steps that put part 1 of a two-part message into the hands of a thread that cannot route it. */
  lemma PartOneComesBack(a: SmsMsg, smsc: Octstr, key: Key, id: Uuid) returns (s: State, x: Entry)
    requires key.total == 2 && SlotOf(a, Some(smsc)) == Part(key, 0)
    ensures Good(s) && s == State(map[], [Hand(x, true, 0, true)])
    ensures x.key == key && x.parts == [Some(a), None]
    ensures s == Run(INITIAL, [Arrival(a, Some(smsc), 0, true, id), Take(key, 60, 60, false, true), Send(0, false)])
  {
    var v: Row := Vacant(2);
    x := Entry(key, 2, 1, key.udh, 0, v[0 := Some(a)]);
    var e1, e2, e3 := Arrival(a, Some(smsc), 0, true, id), Take(key, 60, 60, false, true), Send(0, false);
    var s1 := Step(INITIAL, e1).state;
    assert s1.table == map[key := x];
    StepKeepsGood(INITIAL, e1);
    var s2 := Step(s1, e2).state;
    assert s2.table == map[] && s2.hands == [Hand(x, true, 0, false)];
    StepKeepsGood(s1, e2);
    s := Step(s2, e3).state;
    StepKeepsGood(s2, e3);
    assert [e1, e2, e3][1..] == [e2, e3] && [e2, e3][1..] == [e3];
    assert Run(s2, [e3]) == s;
    assert Run(s1, [e2, e3]) == s;
  }

  /** A run that fills both slots of a two-part message and never joins it: part 1 times out,
      cannot be routed, and comes back after part 2 has started a new entry. */
  lemma MergeStrandsMessage(a: SmsMsg, b: SmsMsg, smsc: Octstr, key: Key, id: Uuid)
    requires key.total == 2 && SlotOf(a, Some(smsc)) == Part(key, 0) && SlotOf(b, Some(smsc)) == Part(key, 1)
    ensures var events := [Arrival(a, Some(smsc), 0, true, id), Take(key, 60, 60, false, true), Send(0, false)];
            Good(Run(INITIAL, events))
    ensures var events := [Arrival(a, Some(smsc), 0, true, id), Take(key, 60, 60, false, true), Send(0, false)];
            var s := Run(Run(INITIAL, events), [Arrival(b, Some(smsc), 60, true, id), Finish(0)]);
            s.hands == [] && key in s.table && s.table[key].parts == [Some(a), Some(b)] && s.table[key].num == 1
  {
    var s, x := PartOneComesBack(a, smsc, key, id);
    var v: Row := Vacant(2);
    var y := Entry(key, 2, 1, key.udh, 60, v[1 := Some(b)]);
    var e4, e5 := Arrival(b, Some(smsc), 60, true, id), Finish(0);
    var s4 := Step(s, e4).state;
    assert s4.table == map[key := y] && s4.hands == s.hands;
    StepKeepsGood(s, e4);
    var s5 := Step(s4, e5).state;
    assert Merged(y, x).parts == [Some(a), Some(b)];
    StepKeepsGood(s4, e5);
    assert [e4, e5][1..] == [e5];
    assert Run(s4, [e5]) == s5;
  }
}
