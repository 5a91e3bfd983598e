/** The message store (gw/bb_store_file.c): a dictionary in memory and an append-only file of
    framed messages that replays to it, compacted by writing a new file and renaming. */
module StoreFile {
  import opened Octets
  import opened Messages
  import opened MsgPack

  type Dict = map<Uuid, SmsMsg>

  // ----- frames

  function Frame(m: Msg): (os: Octstr)
    ensures |os| >= 4
  {
    Encode(|Pack(m)|) + Pack(m)
  }

  function Frames(msgs: seq<Msg>): (frames: seq<Octstr>)
    ensures |frames| == |msgs| && forall i :: 0 <= i < |msgs| ==> frames[i] == Frame(msgs[i])
  {
    seq(|msgs|, i requires 0 <= i < |msgs| => Frame(msgs[i]))
  }

  function Log(msgs: seq<Msg>): Octstr { Join(Frames(msgs)) }

  lemma LogFirst(msgs: seq<Msg>)
    requires msgs != []
    ensures Log(msgs) == Frame(msgs[0]) + Log(msgs[1..])
  {
    assert Frames(msgs)[1..] == Frames(msgs[1..]);
  }

  lemma LogLast(msgs: seq<Msg>, m: Msg)
    ensures Log(msgs + [m]) == Log(msgs) + Frame(m)
  {
    assert Frames(msgs + [m]) == Frames(msgs) + [Frame(m)];
    JoinAppend(Frames(msgs), Frame(m));
  }

  /** A message comes out of the file as it went in. */
  predicate Storable(m: Msg) {
    && StringsFit(m) && IntsFit(m) && |Pack(m)| < TWO31
    && (m.Sms? ==> m.id != ZERO_ID && m.time != MSG_PARAM_UNDEFINED)
  }

  /** Reading one frame: a message, an unusable frame that is skipped, too few octets for a
      header (the position does not move), or a negative length that stops the process. */
  datatype Read = Got(msg: Msg, pos: nat) | Skipped(pos: nat) | NoHeader | Died

  function ReadMsg(os: Octstr, pos: nat): (r: Read)
    ensures (r.Got? || r.Skipped?) ==> r.pos > pos
  {
    if pos + 4 > |os| then NoHeader
    else
      var len := MsgPack.Decode(os[pos..pos + 4]);
      if len < 0 then Died
      else
        var pack := Copy(os, pos + 4, len);
        match Unpack(pack)
        case Ok(m, _) => Got(m, pos + 4 + |pack|)
        case Bad => Skipped(pos + 4 + |pack|)
        case Abort => Died
  }

  lemma ReadFrame(m: Msg, os: Octstr, pos: nat, end: nat)
    requires Storable(m) && Holds(os, pos, Frame(m)) && end == pos + |Frame(m)|
    ensures ReadMsg(os, pos) == Got(Clean(m), end)
  {
    HoldsSplit(os, pos, Encode(|Pack(m)|), Pack(m));
    DecodeInvertsEncode(|Pack(m)|);
    UnpackInvertsPack(m);
    assert Copy(os, pos + 4, |Pack(m)|) == Pack(m);
  }

  // ----- the dictionary

  /** Identifier and time are set if missing. */
  function Stamped(m: SmsMsg, newId: Uuid, now: int): SmsMsg {
    m.(id := if m.id == ZERO_ID then newId else m.id, time := if m.time == MSG_PARAM_UNDEFINED then now else m.time)
  }

  /** store_to_dict; other kinds of messages are refused and leave the dictionary alone. */
  function ToDict(d: Dict, m: Msg, newId: Uuid, now: int): Dict {
    if m.Sms? then d[Stamped(m, newId, now).id := Stamped(m, newId, now)]
    else if m.Ack? then d - {m.ackId}
    else d
  }

  /** The same for a message that needs no stamp. */
  function Apply(d: Dict, m: Msg): Dict {
    if m.Sms? then d[m.id := m] else if m.Ack? then d - {m.ackId} else d
  }

  function ApplyAll(d: Dict, msgs: seq<Msg>): Dict
    decreases |msgs|
  {
    if msgs == [] then d else ApplyAll(Apply(d, Clean(msgs[0])), msgs[1..])
  }

  // ----- replaying a file

  datatype Loaded = Done(dict: Dict) | Hangs | Dies

  /** The load loop. `ids` and `now` stand for the identifiers and the time given to unstamped messages. */
  function Replay(os: Octstr, pos: nat, d: Dict, ids: nat -> Uuid, now: int): Loaded
    decreases |os| - pos
  {
    if pos >= |os| then Done(d)
    else match ReadMsg(os, pos)
      case Got(m, p) => Replay(os, p, ToDict(d, m, ids(p), now), ids, now)
      case Skipped(p) => Replay(os, p, d, ids, now)
      case NoHeader => Hangs
      case Died => Dies
  }

  predicate AllStorable(msgs: seq<Msg>) { forall m :: m in msgs ==> Storable(m) }

  /** Whole frames replay to the messages they hold. */
  lemma {:induction false} ReplayLog(msgs: seq<Msg>, os: Octstr, pos: nat, end: nat, d: Dict, ids: nat -> Uuid,
                                     now: int)
    requires AllStorable(msgs) && Holds(os, pos, Log(msgs)) && end == pos + |Log(msgs)|
    ensures Replay(os, pos, d, ids, now) == Replay(os, end, ApplyAll(d, msgs), ids, now)
    decreases |msgs|
  {
    if msgs != [] {
      var m := msgs[0];
      var mid := pos + |Frame(m)|;
      LogFirst(msgs);
      HoldsParts(os, pos, Log(msgs), Frame(m), Log(msgs[1..]), mid);
      ReplayFrame(m, os, pos, mid, d, ids, now);
      ReplayLog(msgs[1..], os, mid, end, Apply(d, Clean(m)), ids, now);
    }
  }

  lemma ReplayFrame(m: Msg, os: Octstr, pos: nat, mid: nat, d: Dict, ids: nat -> Uuid, now: int)
    requires Storable(m) && Holds(os, pos, Frame(m)) && mid == pos + |Frame(m)|
    ensures Replay(os, pos, d, ids, now) == Replay(os, mid, Apply(d, Clean(m)), ids, now)
  {
    ReadFrame(m, os, pos, mid);
    assert ToDict(d, Clean(m), ids(mid), now) == Apply(d, Clean(m));
  }

  /** A file of whole frames that replays to the dictionary. */
  ghost predicate Holding(os: Octstr, d: Dict) {
    exists msgs :: AllStorable(msgs) && os == Log(msgs) && ApplyAll(map[], msgs) == d
  }

  lemma HoldingIntro(msgs: seq<Msg>, d: Dict)
    requires AllStorable(msgs) && ApplyAll(map[], msgs) == d
    ensures Holding(Log(msgs), d)
  {
  }

  lemma HoldingReplays(os: Octstr, d: Dict, ids: nat -> Uuid, now: int)
    requires Holding(os, d)
    ensures Replay(os, 0, map[], ids, now) == Done(d)
  {
    var msgs :| AllStorable(msgs) && os == Log(msgs) && ApplyAll(map[], msgs) == d;
    ReplayLog(msgs, os, 0, |os|, map[], ids, now);
  }

  /** Fewer than four stray octets after whole frames keep the load loop from ever ending. */
  lemma StrayOctetsHang(msgs: seq<Msg>, stray: Octstr, ids: nat -> Uuid, now: int)
    requires AllStorable(msgs) && |stray| < 4
    ensures Replay(Log(msgs) + stray, 0, map[], ids, now).Hangs? <==> stray != []
  {
    var os := Log(msgs) + stray;
    ReplayLog(msgs, os, 0, |Log(msgs)|, map[], ids, now);
  }

  lemma {:induction false} ApplyAllConcat(d: Dict, a: seq<Msg>, b: seq<Msg>)
    ensures ApplyAll(d, a + b) == ApplyAll(ApplyAll(d, a), b)
    decreases |a|
  {
    if a == [] {
      assert a + b == b;
    } else {
      ApplyAllConcat(Apply(d, Clean(a[0])), a[1..], b);
      assert (a + b)[1..] == a[1..] + b;
    }
  }

  lemma HoldingAppend(os: Octstr, d: Dict, m: Msg)
    requires Holding(os, d) && Storable(m)
    ensures Holding(os + Frame(m), Apply(d, Clean(m)))
  {
    var msgs :| AllStorable(msgs) && os == Log(msgs) && ApplyAll(map[], msgs) == d;
    LogLast(msgs, m);
    ApplyAllConcat(map[], msgs, [m]);
    HoldingIntro(msgs + [m], Apply(d, Clean(m)));
  }

  // ----- dumping

  /** What the file can know of the dictionary. */
  function CleanDict(d: Dict): (r: Dict)
    ensures r.Keys == d.Keys && forall k :: k in d ==> r[k] == Clean(d[k])
  {
    map k | k in d :: Clean(d[k])
  }

  predicate ById(d: Dict) { forall k :: k in d ==> d[k].id == k }

  /** Every message is stored under its identifier and can be written. */
  predicate Keyed(d: Dict) { ById(d) && forall k :: k in d ==> Storable(d[k]) }

  predicate Distinct(order: seq<Uuid>) { forall i, j :: 0 <= i < j < |order| ==> order[i] != order[j] }

  /** An enumeration of the keys, each once, in whatever order the hash table gives them. */
  ghost predicate Enumerates(order: seq<Uuid>, d: Dict) {
    Distinct(order) && forall k :: k in order <==> k in d
  }

  function Picked(d: Dict, order: seq<Uuid>): (msgs: seq<Msg>)
    requires forall k :: k in order ==> k in d
    ensures |msgs| == |order| && forall i :: 0 <= i < |order| ==> msgs[i] == d[order[i]]
  {
    seq(|order|, i requires 0 <= i < |order| => d[order[i]])
  }

  lemma {:induction false} PickedRebuilds(d: Dict, order: seq<Uuid>, base: Dict)
    requires ById(d) && forall k :: k in order ==> k in d
    ensures var r := ApplyAll(base, Picked(d, order));
            && (forall k :: k in r <==> k in base || k in order)
            && forall k :: k in r ==> r[k] == if k in order then Clean(d[k]) else base[k]
    decreases |order|
  {
    if order != [] {
      var k := order[0];
      var next := base[k := Clean(d[k])];
      assert Picked(d, order)[1..] == Picked(d, order[1..]);
      PickedRebuilds(d, order[1..], next);
      assert forall x :: x in order <==> x == k || x in order[1..];
    }
  }

  lemma PickedStorable(d: Dict, order: seq<Uuid>)
    requires Keyed(d) && forall k :: k in order ==> k in d
    ensures AllStorable(Picked(d, order))
  {
  }

  lemma DumpRebuilds(d: Dict, order: seq<Uuid>)
    requires ById(d) && Enumerates(order, d)
    ensures ApplyAll(map[], Picked(d, order)) == CleanDict(d)
  {
    PickedRebuilds(d, order, map[]);
  }

  lemma DumpHolds(d: Dict, order: seq<Uuid>)
    requires Keyed(d) && Enumerates(order, d)
    ensures Holding(Log(Picked(d, order)), CleanDict(d))
  {
    DumpRebuilds(d, order);
    PickedStorable(d, order);
    HoldingIntro(Picked(d, order), CleanDict(d));
  }
}
