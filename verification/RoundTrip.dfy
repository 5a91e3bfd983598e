/** Splitting and reassembly undo each other, whatever the order, the repeats and the
    traffic of other messages in between. */
module RoundTrip {
  import opened Octets
  import opened Messages
  import opened Slots
  import opened Reassembly
  import opened PendingRuns
  import opened SmsSplit
  import Udh

  // ----- collecting the parts of one key

  predicate Ours(e: Event, key: Key) {
    e.Arrival? && SlotOf(e.msg, e.smscId).Part? && SlotOf(e.msg, e.smscId).key == key
  }

  function SlotIndex(e: Event): nat
    requires e.Arrival? && SlotOf(e.msg, e.smscId).Part?
  {
    SlotOf(e.msg, e.smscId).i
  }

  /** A part of ours carries the text that belongs in its slot; nobody flushes our key. */
  predicate Fits(e: Event, key: Key, texts: seq<Octstr>) {
    if Ours(e, key) then SlotIndex(e) < |texts| && Value(e.msg.msgdata) == texts[SlotIndex(e)]
    else e.Take? ==> e.key != key
  }

  function Seen(events: seq<Event>, key: Key): set<nat> {
    if events == [] then {} else SlotSet(events[0], key) + Seen(events[1..], key)
  }

  function OutcomeOf(s: State, e: Event): Outcome
    requires Good(s) && e.Arrival?
  {
    Arrive(s.table, e.msg, e.smscId, e.now, e.storeOk, e.newId).outcome
  }

  /** Every arrival of ours in the run ends as a part that is waited with. */
  predicate AllPending(s: State, events: seq<Event>, key: Key)
    requires Good(s)
    decreases |events|
  {
    events == [] ||
    (StepKeepsGood(s, events[0]);
     && (Ours(events[0], key) ==> OutcomeOf(s, events[0]).Pending?)
     && AllPending(Step(s, events[0]).state, events[1..], key))
  }

  /** The slots seen so far are exactly the filled ones, each with its text, and all are counted. */
  predicate Tracks(s: State, key: Key, seen: set<nat>, texts: seq<Octstr>) {
    && (forall i :: 0 <= i < |s.hands| ==> s.hands[i].entry.key != key)
    && if seen == {} then key !in s.table
       else
         && key in s.table
         && |s.table[key].parts| == |texts| && s.table[key].num == |seen|
         && (forall i :: 0 <= i < |texts| ==> (s.table[key].parts[i].Some? <==> i in seen))
         && (forall i :: 0 <= i < |texts| && i in seen ==> Value(s.table[key].parts[i].value.msgdata) == texts[i])
  }

  lemma ForeignKeepsTrack(s: State, e: Event, key: Key, seen: set<nat>, texts: seq<Octstr>)
    requires Good(s) && Tracks(s, key, seen, texts) && !Ours(e, key) && Fits(e, key, texts)
    ensures Tracks(Step(s, e).state, key, seen, texts)
  {
    var s' := Step(s, e).state;
    if e.Finish? && e.h < |s.hands| && s.hands[e.h].entry.key in s.table {
      MismatchUnreachable(s.table, s.hands[e.h].entry);
    }
    assert key in s'.table <==> key in s.table;
    assert key in s.table ==> s'.table[key] == s.table[key];
  }

  lemma RepeatKeepsTrack(s: State, e: Event, key: Key, seen: set<nat>, texts: seq<Octstr>)
    requires Good(s) && Tracks(s, key, seen, texts) && Ours(e, key) && Fits(e, key, texts)
    requires |texts| == key.total && SlotIndex(e) in seen
    ensures OutcomeOf(s, e).Pending? && Tracks(Step(s, e).state, key, seen, texts)
  {
  }

  lemma NewPartTracked(s: State, e: Event, key: Key, seen: set<nat>, texts: seq<Octstr>)
    requires Good(s) && Tracks(s, key, seen, texts) && Ours(e, key) && Fits(e, key, texts)
    requires |texts| == key.total && SlotIndex(e) !in seen && |seen| + 1 < |texts|
    ensures OutcomeOf(s, e).Pending? && Tracks(Step(s, e).state, key, seen + {SlotIndex(e)}, texts)
  {
  }

  lemma LastPartJoins(s: State, e: Event, key: Key, seen: set<nat>, texts: seq<Octstr>)
    requires Good(s) && Tracks(s, key, seen, texts) && Ours(e, key) && Fits(e, key, texts)
    requires |texts| == key.total && SlotIndex(e) !in seen && |seen| + 1 == |texts| && e.storeOk
    requires forall i :: 0 <= i < |texts| && i != SlotIndex(e) ==> i in seen
    ensures OutcomeOf(s, e).Joined?
    ensures OutcomeOf(s, e).msg.msgdata == Some(Join(texts)) && OutcomeOf(s, e).msg.udhdata == Some(key.udh)
    ensures key !in Step(s, e).state.table
  {
    var entry := Entered(s.table, key, e.now);
    var full := Fill(entry, SlotIndex(e), e.msg, e.now);
    FillKeepsGood(s.table, key, SlotIndex(e), e.msg, e.now);
    DeclaredComplete(full);
    assert TextsOf(full.parts) == texts;
  }

  // ----- counting slots

  function UpTo(n: nat): (r: set<nat>)
    ensures forall i: nat :: i in r <==> i < n
  {
    if n == 0 then {} else UpTo(n - 1) + {n - 1}
  }

  lemma {:induction false} UpToSize(n: nat)
    ensures |UpTo(n)| == n
  {
    if n > 0 {
      UpToSize(n - 1);
    }
  }

  lemma {:induction false} SubsetSize(a: set<nat>, b: set<nat>)
    requires a <= b
    ensures |a| <= |b|
  {
    if a != {} {
      var x :| x in a;
      SubsetSize(a - {x}, b - {x});
    }
  }

  /** With one slot missing the count stays below the total. */
  lemma MissingOne(seen: set<nat>, n: nat, missing: nat)
    requires missing < n && seen <= UpTo(n) - {missing}
    ensures |seen| < n
    ensures seen == UpTo(n) - {missing} ==> |seen| + 1 == n
  {
    UpToSize(n);
    assert |UpTo(n) - {missing}| == n - 1;
    SubsetSize(seen, UpTo(n) - {missing});
  }

  function SlotSet(e: Event, key: Key): set<nat> {
    if Ours(e, key) then {SlotIndex(e)} else {}
  }

  /** One event while slots are still missing. */
  lemma TrackStep(s: State, e: Event, key: Key, seen: set<nat>, texts: seq<Octstr>)
    requires Good(s) && Tracks(s, key, seen, texts) && Fits(e, key, texts) && |texts| == key.total
    requires |seen + SlotSet(e, key)| < |texts|
    ensures Tracks(Step(s, e).state, key, seen + SlotSet(e, key), texts)
    ensures Ours(e, key) ==> OutcomeOf(s, e).Pending?
  {
    if !Ours(e, key) {
      assert seen + {} == seen;
      ForeignKeepsTrack(s, e, key, seen, texts);
    } else if SlotIndex(e) in seen {
      assert seen + {SlotIndex(e)} == seen;
      RepeatKeepsTrack(s, e, key, seen, texts);
    } else {
      assert |seen + {SlotIndex(e)}| == |seen| + 1;
      NewPartTracked(s, e, key, seen, texts);
    }
  }

  predicate AllFit(events: seq<Event>, key: Key, texts: seq<Octstr>) { forall e :: e in events ==> Fits(e, key, texts) }

  lemma SeenSplit(events: seq<Event>, key: Key, seen: set<nat>)
    requires events != []
    ensures seen + Seen(events, key) == seen + SlotSet(events[0], key) + Seen(events[1..], key)
  {
  }

  /** The first of several events while a slot is missing throughout. */
  lemma CollectStep(s: State, e: Event, key: Key, seen: set<nat>, texts: seq<Octstr>, missing: nat)
    requires Good(s) && Tracks(s, key, seen, texts) && |texts| == key.total && missing < |texts| && Fits(e, key, texts)
    requires seen + SlotSet(e, key) <= UpTo(|texts|) - {missing}
    ensures Good(Step(s, e).state) && Tracks(Step(s, e).state, key, seen + SlotSet(e, key), texts)
    ensures Ours(e, key) ==> OutcomeOf(s, e).Pending?
  {
    MissingOne(seen + SlotSet(e, key), |texts|, missing);
    StepKeepsGood(s, e);
    TrackStep(s, e, key, seen, texts);
  }

  /** As long as one slot is missing, all parts are waited with and none is forgotten. */
  lemma {:induction false} Collect(s: State, events: seq<Event>, key: Key, seen: set<nat>, texts: seq<Octstr>,
                                   missing: nat)
    requires Good(s) && Tracks(s, key, seen, texts) && |texts| == key.total && missing < |texts|
    requires AllFit(events, key, texts) && seen + Seen(events, key) <= UpTo(|texts|) - {missing}
    ensures AllPending(s, events, key)
    ensures Good(Run(s, events)) && Tracks(Run(s, events), key, seen + Seen(events, key), texts)
    decreases |events|
  {
    if events == [] {
      assert seen + {} == seen;
    } else {
      SeenSplit(events, key, seen);
      CollectStep(s, events[0], key, seen, texts, missing);
      Collect(Step(s, events[0]).state, events[1..], key, seen + SlotSet(events[0], key), texts, missing);
    }
  }

  /** Any order, any repeats, any other traffic: the first arrival that completes the set of slots
      joins the texts in slot order, and nothing is joined before. */
  lemma JoinsInAnyOrder(s: State, events: seq<Event>, last: Event, key: Key, texts: seq<Octstr>)
    requires Good(s) && Tracks(s, key, {}, texts) && |texts| == key.total
    requires AllFit(events, key, texts)
    requires Ours(last, key) && Fits(last, key, texts) && last.storeOk
    requires Seen(events, key) == UpTo(|texts|) - {SlotIndex(last)}
    ensures AllPending(s, events, key) && Good(Run(s, events))
    ensures OutcomeOf(Run(s, events), last).Joined?
    ensures var m := OutcomeOf(Run(s, events), last).msg;
            m.msgdata == Some(Join(texts)) && m.udhdata == Some(key.udh)
    ensures key !in Step(Run(s, events), last).state.table
  {
    var missing := SlotIndex(last);
    assert {} + Seen(events, key) == Seen(events, key);
    Collect(s, events, key, {}, texts, missing);
    MissingOne(Seen(events, key), |texts|, missing);
    LastPartJoins(Run(s, events), last, key, Seen(events, key), texts);
  }

  // ----- messages that carry the parts of a set

  /** The parts of one message: part `i` belongs in slot `i` of the key and holds text `i`. */
  predicate PartSet(parts: seq<SmsMsg>, key: Key, texts: seq<Octstr>) {
    && |parts| == |texts| == key.total && key.tags == []
    && forall i :: 0 <= i < |parts| ==> Belongs(key, i, parts[i]) && Value(parts[i].msgdata) == texts[i]
  }

  /** An arrival with the addresses, header and text of a part; identifiers and the like may differ. */
  predicate Carries(e: Event, part: SmsMsg, smsc: Octstr) {
    && e.Arrival? && e.smscId == Some(smsc)
    && e.msg.sender == part.sender && e.msg.receiver == part.receiver
    && e.msg.udhdata == part.udhdata && e.msg.msgdata == part.msgdata
  }

  predicate CarriesSome(e: Event, parts: seq<SmsMsg>, smsc: Octstr) {
    exists i :: 0 <= i < |parts| && Carries(e, parts[i], smsc)
  }

  predicate Delivered(events: seq<Event>, part: SmsMsg, smsc: Octstr) {
    exists e :: e in events && Carries(e, part, smsc)
  }

  /** Every event carries one of the parts or has nothing to do with the key. */
  predicate OnlyPartsOf(events: seq<Event>, parts: seq<SmsMsg>, key: Key) {
    forall e :: e in events ==>
      CarriesSome(e, parts, key.smscId) || (!Ours(e, key) && (e.Take? ==> e.key != key))
  }

  lemma CarriedSlot(parts: seq<SmsMsg>, key: Key, texts: seq<Octstr>, e: Event, i: nat)
    requires PartSet(parts, key, texts) && i < |parts| && Carries(e, parts[i], key.smscId)
    ensures SlotOf(e.msg, e.smscId) == Part(key, i) && Value(e.msg.msgdata) == texts[i]
  {
    assert Belongs(key, i, parts[i]);
  }

  lemma {:induction false} SeenMember(events: seq<Event>, key: Key, i: nat)
    ensures i in Seen(events, key) <==> exists e :: e in events && Ours(e, key) && SlotIndex(e) == i
  {
    if events != [] {
      SeenMember(events[1..], key, i);
      assert forall e :: e in events <==> e == events[0] || e in events[1..];
    }
  }

  lemma SeenIffDelivered(parts: seq<SmsMsg>, key: Key, texts: seq<Octstr>, events: seq<Event>, i: nat)
    requires PartSet(parts, key, texts) && OnlyPartsOf(events, parts, key)
    ensures i in Seen(events, key) <==> i < |parts| && Delivered(events, parts[i], key.smscId)
  {
    SeenMember(events, key, i);
    if i in Seen(events, key) {
      var e :| e in events && Ours(e, key) && SlotIndex(e) == i;
      var k :| 0 <= k < |parts| && Carries(e, parts[k], key.smscId);
      CarriedSlot(parts, key, texts, e, k);
    }
    if i < |parts| && Delivered(events, parts[i], key.smscId) {
      var e :| e in events && Carries(e, parts[i], key.smscId);
      CarriedSlot(parts, key, texts, e, i);
    }
  }

  lemma PartsFit(parts: seq<SmsMsg>, key: Key, texts: seq<Octstr>, events: seq<Event>, e: Event)
    requires PartSet(parts, key, texts) && OnlyPartsOf(events, parts, key) && e in events
    ensures Fits(e, key, texts)
  {
    if CarriesSome(e, parts, key.smscId) {
      var i :| 0 <= i < |parts| && Carries(e, parts[i], key.smscId);
      CarriedSlot(parts, key, texts, e, i);
    }
  }

  /** All parts but part `j` were delivered, and then part `j` comes. */
  lemma PartSetJoins(parts: seq<SmsMsg>, key: Key, texts: seq<Octstr>, s: State, events: seq<Event>, last: Event,
                     j: nat)
    requires PartSet(parts, key, texts) && j < |parts| && Good(s) && Tracks(s, key, {}, texts)
    requires OnlyPartsOf(events, parts, key)
    requires forall i :: 0 <= i < |parts| ==> (Delivered(events, parts[i], key.smscId) <==> i != j)
    requires Carries(last, parts[j], key.smscId) && last.storeOk
    ensures AllPending(s, events, key) && Good(Run(s, events))
    ensures OutcomeOf(Run(s, events), last).Joined?
    ensures var m := OutcomeOf(Run(s, events), last).msg;
            m.msgdata == Some(Join(texts)) && m.udhdata == Some(key.udh)
    ensures key !in Step(Run(s, events), last).state.table
  {
    CarriedSlot(parts, key, texts, last, j);
    forall e | e in events ensures Fits(e, key, texts) {
      PartsFit(parts, key, texts, events, e);
    }
    forall i: nat ensures i in Seen(events, key) <==> i in UpTo(|texts|) - {j} {
      SeenIffDelivered(parts, key, texts, events, i);
    }
    JoinsInAnyOrder(s, events, last, key, texts);
  }

  // ----- the parts of a split message

  /** A message cut with concatenation and without decoration into parts that can be numbered. */
  predicate Rejoinable(orig: Msg, p: Plan) {
    && Splittable(orig, p) && p.catenate && 0 <= p.sequence < 256
    && p.header == [] && p.footer == [] && p.suffix == []
    && 1 < |Texts(orig, p)| < 256 && Udh.WellFormed(Value(orig.udhdata))
  }

  function SplitKey(orig: Msg, p: Plan, smsc: Octstr): Key
    requires Rejoinable(orig, p)
  {
    Key(orig.sender, orig.receiver, smsc, p.sequence, |Texts(orig, p)|, Udh.Restored(Value(orig.udhdata)), [])
  }

  lemma SplitGivesPartSet(orig: Msg, p: Plan, newId: nat -> Uuid, smsc: Octstr)
    requires Rejoinable(orig, p)
    ensures PartSet(Split(orig, p, newId), SplitKey(orig, p, smsc), Texts(orig, p))
  {
    var parts, key, texts := Split(orig, p, newId), SplitKey(orig, p, smsc), Texts(orig, p);
    forall i | 0 <= i < |parts| ensures Belongs(key, i, parts[i]) && Value(parts[i].msgdata) == texts[i] {
      SplitPartBelongs(orig, p, newId, smsc, i);
      SplitPartText(orig, p, newId, i);
    }
  }

  lemma NumberedBelongs(key: Key, i: nat, m: SmsMsg, udh: Octstr)
    requires Udh.WellFormed(udh) && 0 <= key.ref < 256 && i < key.total < 256 && key.udh == Udh.Restored(udh)
    requires m.sender == key.sender && m.receiver == key.receiver
    requires m.udhdata == Some(Udh.AddConcat(udh, i + 1, key.total, key.ref))
    ensures Belongs(key, i, m)
  {
    Udh.ExtractInvertsAdd(udh, i + 1, key.total, key.ref);
  }

  lemma SplitPartText(orig: Msg, p: Plan, newId: nat -> Uuid, i: nat)
    requires Rejoinable(orig, p) && i < |Texts(orig, p)|
    ensures Value(Split(orig, p, newId)[i].msgdata) == Texts(orig, p)[i]
  {
    PartShape(orig, p, newId, i);
    assert [] + Texts(orig, p)[i] + [] + [] == Texts(orig, p)[i];
  }

  lemma SplitPartBelongs(orig: Msg, p: Plan, newId: nat -> Uuid, smsc: Octstr, i: nat)
    requires Rejoinable(orig, p) && i < |Texts(orig, p)|
    ensures Belongs(SplitKey(orig, p, smsc), i, Split(orig, p, newId)[i])
  {
    PartNumbered(orig, p, newId, i);
    NumberedBelongs(SplitKey(orig, p, smsc), i, Split(orig, p, newId)[i], Value(orig.udhdata));
  }

  /** The parts of a split message, arriving in any order with any repeats among any other traffic,
      yield exactly one message, when the last missing part arrives: the original header, and the
      original text exactly when the cutting was not cut short. */
  lemma SplitThenJoin(orig: Msg, p: Plan, newId: nat -> Uuid, smsc: Octstr, s: State, events: seq<Event>, last: Event,
                      j: nat)
    requires Rejoinable(orig, p) && Good(s) && j < |Texts(orig, p)|
    requires Tracks(s, SplitKey(orig, p, smsc), {}, Texts(orig, p))
    requires OnlyPartsOf(events, Split(orig, p, newId), SplitKey(orig, p, smsc))
    requires forall i :: 0 <= i < |Texts(orig, p)| ==> (Delivered(events, Split(orig, p, newId)[i], smsc) <==> i != j)
    requires Carries(last, Split(orig, p, newId)[j], smsc) && last.storeOk
    ensures AllPending(s, events, SplitKey(orig, p, smsc)) && Good(Run(s, events))
    ensures OutcomeOf(Run(s, events), last).Joined?
    ensures var m := OutcomeOf(Run(s, events), last).msg;
            && Value(m.udhdata) == Udh.Restored(Value(orig.udhdata))
            && m.msgdata == Some(Join(Texts(orig, p))) && (m.msgdata == orig.msgdata <==> Uncut(orig, p))
    ensures SplitKey(orig, p, smsc) !in Step(Run(s, events), last).state.table
  {
    SplitGivesPartSet(orig, p, newId, smsc);
    PartSetJoins(Split(orig, p, newId), SplitKey(orig, p, smsc), Texts(orig, p), s, events, last, j);
    UncutIff(orig, p);
  }

  /** Every message that smscconn_send cuts, as long as 254 cuts are enough, meets these conditions. */
  lemma SentMessageRejoins(orig: Msg, sequence: int, maxOctets: int)
    requires orig.Sms? && orig.msgdata.Some? && Defined(orig.coding) && Udh.WellFormed(Value(orig.udhdata))
    requires 0 <= sequence < 256
    requires var l := Limit(orig, SendPlan(sequence, maxOctets));
             && Advances(orig.coding, orig.msgdata.value, l, l)
             && 1 <= Cuts(orig.coding, orig.msgdata.value, l, l, []) <= 254
    ensures Rejoinable(orig, SendPlan(sequence, maxOctets)) && Uncut(orig, SendPlan(sequence, maxOctets))
  {
    var l := Limit(orig, SendPlan(sequence, maxOctets));
    ChunkCount(orig.coding, orig.msgdata.value, l, l, [], 1, 255);
    LosslessWithoutSuffix(orig.coding, orig.msgdata.value, l, [], 1, 255);
  }
}
