/** Joining the parts of incoming concatenated messages (gw/bb_smscconn.c): the table of
    pending parts, arrivals, and the entry a failed time-out flush puts back. */
module Reassembly {
  import opened Octets
  import opened Messages
  import opened Slots
  import Udh

  // ----- the pending table

  /** The dictionary key, as a tuple. `tags` is what the total-mismatch branch appends to it. */
  datatype Key = Key(sender: Option<Octstr>, receiver: Option<Octstr>, smscId: Octstr,
                     ref: int, total: int, udh: Octstr, tags: seq<int>)

  datatype Entry = Entry(key: Key, totalParts: int, num: int, udh: Octstr, trecv: int, parts: Row)

  type Table = map<Key, Entry>

  /** The parts acknowledged to the store, as a row of slots. */
  type Row = seq<Option<SmsMsg>>

  predicate Shaped(e: Entry) { e.totalParts == |e.parts| }

  /** The slot count is the total of the key, and `num` never exceeds the filled slots. */
  predicate GoodEntry(e: Entry) {
    1 <= e.key.total == e.totalParts == |e.parts| && e.udh == e.key.udh && e.num <= Filled(e.parts)
  }

  predicate GoodTable(t: Table) {
    forall k :: k in t ==> t[k].key == k && GoodEntry(t[k])
  }

  /** The message is part `i + 1` of the message the key stands for. */
  predicate Belongs(key: Key, i: nat, m: SmsMsg) {
    && m.sender == key.sender && m.receiver == key.receiver
    && Udh.ConcatOf(Value(m.udhdata)) == Udh.Concat(key.ref, key.total, i + 1, key.udh)
  }

  /** Every part sits in the slot, and under the key, that its own header names. */
  predicate InPlace(e: Entry) {
    forall i :: 0 <= i < |e.parts| && e.parts[i].Some? ==> Belongs(e.key, i, e.parts[i].value)
  }

  predicate AllInPlace(t: Table) { forall k :: k in t ==> InPlace(t[k]) }

  // ----- an arriving message

  /** The key of an arriving message and its zero-based slot, if it is a part at all. */
  datatype Slot = Whole | Part(key: Key, i: nat)

  function SlotOf(msg: SmsMsg, smscId: Option<Octstr>): (s: Slot)
    ensures s.Part? ==> s.i < s.key.total && Belongs(s.key, s.i, msg)
  {
    match Udh.ConcatOf(Value(msg.udhdata))
    case NoConcat => Whole
    case Concat(ref, total, part, rest) =>
      if smscId.None? then Whole
      else Part(Key(msg.sender, msg.receiver, smscId.value, ref, total, rest, []), part - 1)
  }

  /** Joined carries the message handed on and the copy that was written to the store. */
  datatype Outcome = PassOn(msg: SmsMsg) | Pending | StoreFailed | Joined(msg: SmsMsg, saved: SmsMsg)

  datatype Arrived = Arrived(table: Table, outcome: Outcome, acked: Row)

  function TextsOf(parts: Row): (texts: seq<Octstr>)
    requires Complete(parts)
    ensures |texts| == |parts| && forall i :: 0 <= i < |parts| ==> texts[i] == Value(parts[i].value.msgdata)
  {
    seq(|parts|, i requires 0 <= i < |parts| => Value(parts[i].value.msgdata))
  }

  function Empty(key: Key, now: int): Entry
    requires key.total >= 1
  {
    Entry(key, key.total, 0, key.udh, now, Vacant(key.total))
  }

  function Entered(t: Table, key: Key, now: int): (e: Entry)
    requires key.total >= 1
  {
    if key in t then t[key] else Empty(key, now)
  }

  /** Filling the slot of a part that was not seen before. */
  function Fill(e: Entry, i: nat, msg: SmsMsg, now: int): Entry
    requires i < |e.parts|
  {
    e.(parts := e.parts[i := Some(msg)], num := e.num + 1, trecv := now)
  }

  /** The copy written to the store: part 1 with the whole text and a new id. */
  function SavedCopy(e: Entry, newId: Uuid): SmsMsg
    requires Complete(e.parts) && |e.parts| >= 1
  {
    e.parts[0].value.(id := newId, msgdata := Some(Join(TextsOf(e.parts))))
  }

  function WithUdh(m: SmsMsg, udh: Octstr): SmsMsg { m.(udhdata := Some(udh)) }

  /** What happens to the table once the key and the slot are known. */
  function ArrivePart(t: Table, key: Key, i: nat, msg: SmsMsg, now: int, storeOk: bool, newId: Uuid): Arrived
    requires GoodTable(t) && i < key.total
  {
    var e := Entered(t, key, now);
    if e.parts[i].Some? then Arrived(t[key := e], Pending, [Some(msg)])
    else
      var full := Fill(e, i, msg, now);
      if full.num < full.totalParts then Arrived(t[key := full], Pending, [])
      else if !storeOk then Arrived(t[key := full], StoreFailed, [])
      else
        FillKeepsGood(t, key, i, msg, now);
        DeclaredComplete(full);
        var saved := SavedCopy(full, newId);
        Arrived(t - {key}, Joined(WithUdh(saved, full.udh), saved), full.parts)
  }

  lemma EnteredGood(t: Table, key: Key, now: int)
    requires GoodTable(t) && key.total >= 1
    ensures GoodEntry(Entered(t, key, now)) && Entered(t, key, now).key == key
  {
    VacantFilled<SmsMsg>(Vacant(key.total));
  }

  lemma FillKeepsGood(t: Table, key: Key, i: nat, msg: SmsMsg, now: int)
    requires GoodTable(t) && i < key.total && Entered(t, key, now).parts[i].None?
    ensures var e := Entered(t, key, now);
            GoodEntry(Fill(e, i, msg, now)) && Filled(Fill(e, i, msg, now).parts) == Filled(e.parts) + 1
  {
    EnteredGood(t, key, now);
    var e := Entered(t, key, now);
    FilledUpdate(e.parts, i, Some(msg));
  }

  /** An entry declared complete really has every slot filled. */
  lemma DeclaredComplete(e: Entry)
    requires GoodEntry(e) && e.num >= e.totalParts
    ensures Complete(e.parts) && e.num == e.totalParts
  {
    FilledBound(e.parts);
  }

  /** concat_handling_check_and_handle on the table. */
  function Arrive(t: Table, msg: SmsMsg, smscId: Option<Octstr>, now: int, storeOk: bool, newId: Uuid): Arrived
    requires GoodTable(t)
  {
    match SlotOf(msg, smscId)
    case Whole => Arrived(t, PassOn(msg), [])
    case Part(key, i) => ArrivePart(t, key, i, msg, now, storeOk, newId)
  }

  lemma ArriveKeepsGood(t: Table, msg: SmsMsg, smscId: Option<Octstr>, now: int, storeOk: bool, newId: Uuid)
    requires GoodTable(t)
    ensures GoodTable(Arrive(t, msg, smscId, now, storeOk, newId).table)
  {
    var s := SlotOf(msg, smscId);
    if s.Part? {
      EnteredGood(t, s.key, now);
      if Entered(t, s.key, now).parts[s.i].None? { FillKeepsGood(t, s.key, s.i, msg, now); }
    }
  }

  lemma ArriveKeepsInPlace(t: Table, msg: SmsMsg, smscId: Option<Octstr>, now: int, storeOk: bool, newId: Uuid)
    requires GoodTable(t) && AllInPlace(t)
    ensures AllInPlace(Arrive(t, msg, smscId, now, storeOk, newId).table)
  {
    var s := SlotOf(msg, smscId);
    if s.Part? {
      assert InPlace(Entered(t, s.key, now));
      assert InPlace(Fill(Entered(t, s.key, now), s.i, msg, now));
    }
  }

  // ----- putting back an entry whose flush failed

  /** Empty slots of the newer entry take the old part; its `num` is left as it is. */
  function Merged(newer: Entry, x: Entry): Entry
    requires |newer.parts| == |x.parts|
  {
    newer.(parts := MergedInto(newer.parts, x.parts))
  }

  datatype Returned = Returned(table: Table, acked: Row)

  function PutBack(t: Table, x: Entry): Returned
    requires Shaped(x) && (x.key in t ==> Shaped(t[x.key]))
  {
    if x.key !in t then Returned(t[x.key := x], [])
    else if t[x.key].totalParts != x.totalParts then
      var key := x.key.(tags := x.key.tags + [x.totalParts]);
      Returned(t[key := x.(key := key)], [])
    else
      Returned(t[x.key := Merged(t[x.key], x)], Leftover(t[x.key].parts, x.parts))
  }

  /** The total-mismatch branch is dead: the total is part of the key. */
  lemma MismatchUnreachable(t: Table, x: Entry)
    requires GoodTable(t) && GoodEntry(x) && x.key in t
    ensures t[x.key].totalParts == x.totalParts
  {
  }

  lemma PutBackKeepsGood(t: Table, x: Entry)
    requires GoodTable(t) && GoodEntry(x)
    ensures GoodTable(PutBack(t, x).table)
  {
    if x.key in t {
      MismatchUnreachable(t, x);
      MergeGains(t[x.key], x);
    }
  }

  lemma PutBackKeepsInPlace(t: Table, x: Entry)
    requires GoodTable(t) && GoodEntry(x) && AllInPlace(t) && InPlace(x)
    ensures AllInPlace(PutBack(t, x).table)
  {
    if x.key in t {
      assert forall i :: 0 <= i < |x.parts| && Merged(t[x.key], x).parts[i].Some? ==>
        Belongs(x.key, i, Merged(t[x.key], x).parts[i].value);
    }
  }

  /** Parts gained by a merge, none of which `num` counts. */
  function Gained(newer: Entry, x: Entry): int
    requires |newer.parts| == |x.parts|
  {
    Filled(x.parts) - Filled(Leftover(newer.parts, x.parts))
  }

  lemma MergeGains(newer: Entry, x: Entry)
    requires |newer.parts| == |x.parts|
    ensures Filled(Merged(newer, x).parts) == Filled(newer.parts) + Gained(newer, x)
    ensures Gained(newer, x) >= 0
  {
    MergeCounts(newer.parts, x.parts);
  }

  // ----- the same, as the code runs it

  class ConcatTable {
    var table: Table

    constructor ()
      ensures table == map[]
    {
      table := map[];
    }

    method CheckAndHandle(msg: SmsMsg, smscId: Option<Octstr>, now: int, storeOk: bool, newId: Uuid)
      returns (outcome: Outcome, acked: Row)
      requires GoodTable(table)
      modifies this
      ensures Arrived(table, outcome, acked) == Arrive(old(table), msg, smscId, now, storeOk, newId)
      ensures GoodTable(table)
    {
      ArriveKeepsGood(table, msg, smscId, now, storeOk, newId);
      acked := [];
      if Value(msg.udhdata) == [] || smscId == None {
        return PassOn(msg), acked;
      }
      var info := Udh.ParseConcat(Value(msg.udhdata));
      if info.NoConcat? {
        return PassOn(msg), acked;
      }
      var key := Key(msg.sender, msg.receiver, smscId.value, info.ref, info.total, info.rest, []);
      assert SlotOf(msg, smscId) == Part(key, info.part - 1);
      outcome, acked := AddPart(key, info.part - 1, msg, now, storeOk, newId);
    }

    method AddPart(key: Key, i: nat, msg: SmsMsg, now: int, storeOk: bool, newId: Uuid)
      returns (outcome: Outcome, acked: Row)
      requires GoodTable(table) && i < key.total
      modifies this
      ensures Arrived(table, outcome, acked) == ArrivePart(old(table), key, i, msg, now, storeOk, newId)
    {
      acked := [];
      if key !in table {
        table := table[key := Empty(key, now)];
      }
      var cmsg := table[key];
      assert cmsg == Entered(old(table), key, now);
      if cmsg.parts[i].Some? {
        acked := [Some(msg)];
        assert table == old(table)[key := cmsg];
        return Pending, acked;
      }
      FillKeepsGood(old(table), key, i, msg, now);
      cmsg := Fill(cmsg, i, msg, now);
      table := table[key := cmsg];
      assert table == old(table)[key := cmsg];
      if cmsg.num < cmsg.totalParts {
        return Pending, acked;
      }
      DeclaredComplete(cmsg);
      var text := JoinParts(cmsg.parts);
      var whole: SmsMsg := cmsg.parts[0].value.(id := newId, msgdata := Some(text));
      if !storeOk {
        return StoreFailed, acked;
      }
      outcome := Joined(WithUdh(whole, cmsg.udh), whole);
      acked := cmsg.parts;
      table := table - {key};
      assert table == old(table) - {key};
    }

    method JoinParts(parts: Row) returns (text: Octstr)
      requires |parts| >= 1 && Complete(parts)
      ensures text == Join(TextsOf(parts))
    {
      ghost var texts := TextsOf(parts);
      text := Value(parts[0].value.msgdata);
      assert texts[..1] == [text];
      for i := 1 to |parts|
        invariant text == Join(texts[..i])
      {
        JoinAppend(texts[..i], texts[i]);
        assert texts[..i + 1] == texts[..i] + [texts[i]];
        text := text + Value(parts[i].value.msgdata);
      }
      assert texts[..|parts|] == texts;
    }

    /** The locked part that ends a failed flush. */
    method Restore(x: Entry) returns (acked: Row)
      requires Shaped(x) && (x.key in table ==> Shaped(table[x.key]))
      modifies this
      ensures Returned(table, acked) == PutBack(old(table), x)
    {
      acked := [];
      if x.key in table {
        var x1 := table[x.key];
        if x.totalParts != x1.totalParts {
          var key := x.key.(tags := x.key.tags + [x.totalParts]);
          table := table[key := x.(key := key)];
        } else {
          var theirs, mine := Merge(x1.parts, x.parts);
          acked := mine;
          table := table[x.key := x1.(parts := theirs)];
        }
      } else {
        table := table[x.key := x];
      }
    }
  }
}
