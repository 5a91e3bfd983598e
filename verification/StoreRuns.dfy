/** The store on disk: saves, acknowledgements, dumps, crashes at any point of a dump or of the writing
    of a frame, and the starts that follow, which may crash in turn (gw/bb_store_file.c). */
module StoreRuns {
  import opened Octets
  import opened Messages
  import opened MsgPack
  import opened StoreFile
  import opened TornFrames

  /** The store file, its `.new` and its `.bak`, if they exist. */
  datatype Disk = Disk(main: Option<Octstr>, newer: Option<Octstr>, bak: Option<Octstr>)

  datatype Store = Store(dict: Dict, disk: Disk)

  /** The file replays to the dictionary. */
  ghost predicate Synced(s: Store) {
    Keyed(s.dict) && s.disk.main.Some? && Holding(s.disk.main.value, CleanDict(s.dict))
  }

  // ----- the phases of a dump

  function Written(d: Disk, os: Octstr): Disk { d.(newer := Some(os)) }

  /** The first rename; a missing store file is not an error. */
  function RenamedMain(d: Disk): Disk {
    if d.main.Some? then d.(bak := d.main, main := None) else d
  }

  function RenamedNew(d: Disk): Disk {
    if d.newer.Some? then d.(main := d.newer, newer := None) else d
  }

  function Dumped(d: Disk, log: Octstr): Disk { RenamedNew(RenamedMain(Written(d, log))) }

  /** The disk at some moment between the start and the end of a dump of `log`. */
  ghost predicate DuringDump(start: Disk, log: Octstr, d: Disk) {
    || d == start
    || (exists n :: 0 <= n <= |log| && d == Written(start, log[..n]))
    || d == RenamedMain(Written(start, log))
    || d == Dumped(start, log)
  }

  /** The file a load reads: the store file, else `.new`, else `.bak`. */
  function LoadChoice(d: Disk): Option<Octstr> {
    if d.main.Some? then d.main else if d.newer.Some? then d.newer else d.bak
  }

  /** What a load would read at any moment of a dump. */
  lemma ChoiceDuringDump(start: Disk, log: Octstr, d: Disk)
    requires DuringDump(start, log, d) && (start.main.Some? || log == [])
    ensures LoadChoice(d) == LoadChoice(start) || LoadChoice(d) == Some(log)
  {
  }

  /** If the store file exists when a dump begins, a crash at any point of the dump leaves a
      disk from which the same dictionary is loaded. */
  lemma CrashSafe(s: Store, order: seq<Uuid>, d: Disk)
    requires Synced(s) && Enumerates(order, s.dict) && DuringDump(s.disk, Log(Picked(s.dict, order)), d)
    ensures LoadChoice(d).Some? && Holding(LoadChoice(d).value, CleanDict(s.dict))
  {
    DumpHolds(s.dict, order);
    ChoiceDuringDump(s.disk, Log(Picked(s.dict, order)), d);
  }

  /** A store that was loaded and not yet dumped; its file may still be `.new` or `.bak`. */
  ghost predicate JustLoaded(s: Store) {
    Keyed(s.dict) && LoadChoice(s.disk).Some? && Holding(LoadChoice(s.disk).value, CleanDict(s.dict))
  }

  ghost predicate Recovers(d: Disk, dict: Dict, ids: nat -> Uuid, now: int) {
    LoadChoice(d).Some? && Replay(LoadChoice(d).value, 0, map[], ids, now) == Done(dict)
  }

  /** Exactly when the dump at the end of a load is safe against crashes: the store file itself
      was there, or nothing was stored. Otherwise opening `.new` already hides the only good copy. */
  lemma CrashSafeIff(s: Store, order: seq<Uuid>, ids: nat -> Uuid, now: int)
    requires JustLoaded(s) && Enumerates(order, s.dict)
    ensures (forall d :: DuringDump(s.disk, Log(Picked(s.dict, order)), d) ==> Recovers(d, CleanDict(s.dict), ids, now))
       <==> s.disk.main.Some? || s.dict == map[]
  {
    var log := Log(Picked(s.dict, order));
    if s.disk.main.Some? || s.dict == map[] {
      forall d | DuringDump(s.disk, log, d) ensures Recovers(d, CleanDict(s.dict), ids, now) {
        DumpOfLoadedSafe(s, order, d);
        HoldingReplays(LoadChoice(d).value, CleanDict(s.dict), ids, now);
      }
    } else {
      var d := Written(s.disk, log[..0]);
      assert DuringDump(s.disk, log, d);
      assert LoadChoice(d) == Some([]);
      assert Replay([], 0, map[], ids, now) == Done(map[]);
      assert CleanDict(s.dict) != map[];
    }
  }

  lemma DumpOfLoadedSafe(s: Store, order: seq<Uuid>, d: Disk)
    requires JustLoaded(s) && Enumerates(order, s.dict) && (s.disk.main.Some? || s.dict == map[])
    requires DuringDump(s.disk, Log(Picked(s.dict, order)), d)
    ensures LoadChoice(d).Some? && Holding(LoadChoice(d).value, CleanDict(s.dict))
  {
    DumpHolds(s.dict, order);
    if s.dict == map[] { EmptyLog(order); }
    ChoiceDuringDump(s.disk, Log(Picked(s.dict, order)), d);
  }

  lemma NothingIn(order: seq<Uuid>)
    ensures order == [] || exists k :: k in order
  {
    if order != [] { assert order[0] in order; }
  }

  lemma EmptyLog(order: seq<Uuid>)
    requires Enumerates(order, map[])
    ensures Log(Picked(map[], order)) == []
  {
    NothingIn(order);
  }

  // ----- runs

  /** The store while the bearerbox runs, and what is left of it while it does not. */
  datatype Sys = Up(store: Store) | Down(disk: Disk)

  datatype Op =
    | Save(msg: SmsMsg, newId: Uuid, now: int)
    | SaveAck(id: Uuid, time: int, status: int)
    | Dump
    | Crash                                   // at any moment of a dump, or outside one
    | TornSave(m: Msg, n: nat)                // while writing the frame of a message, after `n` octets
    | Load(ids: nat -> Uuid, now: int)        // a start, with the dump that ends the load
    | LoadCrash(ids: nat -> Uuid, now: int)   // a start that is stopped at any moment of that dump

  predicate Valid(op: Op) {
    match op
    case Save(m, newId, now) => Storable(Stamped(m, newId, now))
    case SaveAck(id, time, status) => Storable(Ack(status, time, id))
    case TornSave(m, n) => Storable(m) && (m.Sms? || m.Ack?) && n < |Frame(m)|
    case _ => true
  }

  function Appended(d: Disk, m: Msg): Disk { d.(main := Some(Value(d.main) + Frame(m))) }

  function AppendedTorn(d: Disk, m: Msg, n: nat): Disk
    requires n < |Frame(m)|
  {
    d.(main := Some(Value(d.main) + Frame(m)[..n]))
  }

  /** A load: replay the chosen file, then dump what is left. */
  ghost predicate Restarted(d: Disk, ids: nat -> Uuid, now: int, s: Store) {
    && Recovers(d, s.dict, ids, now)
    && exists order :: Enumerates(order, s.dict) && s.disk == Dumped(d, Log(Picked(s.dict, order)))
  }

  /** A dump of the dictionary was stopped at this disk. */
  ghost predicate StoppedAt(dict: Dict, start: Disk, d: Disk) {
    exists order :: Enumerates(order, dict) && DuringDump(start, Log(Picked(dict, order)), d)
  }

  /** A start from a disk without any file. */
  predicate StartedAfresh(d: Disk, s: Store) { LoadChoice(d).None? && s == Store(map[], d.(main := Some([]))) }

  ghost predicate DumpedTo(s: Store, s': Store) {
    exists order :: Enumerates(order, s.dict) && s' == Store(s.dict, Dumped(s.disk, Log(Picked(s.dict, order))))
  }

  /** Everything that can happen, including what loses messages. */
  ghost predicate Next(s: Sys, op: Op, s': Sys) {
    match op
    case Save(m, newId, now) =>
      s.Up? && var x := Stamped(m, newId, now);
      s' == Up(Store(s.store.dict[x.id := x], Appended(s.store.disk, x)))
    case SaveAck(id, time, status) =>
      s.Up? && s' == Up(Store(s.store.dict - {id}, Appended(s.store.disk, Ack(status, time, id))))
    case Dump =>
      s.Up? && s'.Up? && DumpedTo(s.store, s'.store)
    case Crash => s.Up? && s'.Down? && StoppedAt(s.store.dict, s.store.disk, s'.disk)
    case TornSave(m, n) => s.Up? && n < |Frame(m)| && s' == Down(AppendedTorn(s.store.disk, m, n))
    case Load(ids, now) =>
      s.Down? && s'.Up? && (Restarted(s.disk, ids, now, s'.store) || StartedAfresh(s.disk, s'.store))
    case LoadCrash(ids, now) =>
      s.Down? && s'.Down? && exists dict :: Recovers(s.disk, dict, ids, now) && StoppedAt(dict, s.disk, s'.disk)
  }

  /** What keeps the store from losing messages or hanging: a start is only stopped in its dump with the
      store file in place or nothing stored, and no crash leaves one to three octets of a frame. */
  ghost predicate Careful(s: Sys, op: Op) {
    match op
    case LoadCrash(ids, now) => s.Down? ==> s.disk.main.Some? || Recovers(s.disk, map[], ids, now)
    case TornSave(_, n) => s.Up? ==> n == 0 || n >= 4
    case _ => true
  }

  /** What an operation says about one message, if anything. */
  datatype Word = Quiet | Saved(msg: SmsMsg) | Removed(k: Uuid)

  function WordOf(op: Op): Word
    requires Valid(op)
  {
    match op
    case Save(m, newId, now) => Saved(Clean(Stamped(m, newId, now)))
    case SaveAck(id, _, _) => Removed(id)
    case TornSave(m, n) =>
      if n > 0 && InMetaData(m, |Frame(m)| - n) then Saved(Clean(WithShorterMetaData(m, |Frame(m)| - n))) else Quiet
    case _ => Quiet
  }

  /** The bookkeeping a caller would do: saved and not yet acknowledged messages. */
  function Outstanding(d: Dict, w: Word): Dict {
    match w
    case Quiet => d
    case Saved(m) => d[m.id := m]
    case Removed(k) => d - {k}
  }

  lemma CleanStorable(m: Msg)
    requires Storable(m)
    ensures Storable(Clean(m))
  {
    assert FieldsOf(Clean(m)) == FieldsOf(m);
  }

  lemma CleanDictKeyed(d: Dict)
    requires Keyed(d)
    ensures Keyed(CleanDict(d))
  {
    forall k | k in d ensures Storable(Clean(d[k])) {
      CleanStorable(d[k]);
    }
    assert ById(CleanDict(d));
  }

  lemma CleanTwice(d: Dict)
    ensures CleanDict(CleanDict(d)) == CleanDict(d)
  {
  }

  lemma DumpedSynced(d: Disk, dict: Dict, order: seq<Uuid>)
    requires Keyed(dict) && Enumerates(order, dict)
    ensures Synced(Store(dict, Dumped(d, Log(Picked(dict, order)))))
  {
    DumpHolds(dict, order);
  }

  lemma KeyedUpdate(d: Dict, m: SmsMsg)
    requires Keyed(d) && Storable(m)
    ensures Keyed(d[m.id := m])
  {
  }

  lemma CleanUpdate(d: Dict, m: SmsMsg)
    ensures CleanDict(d[m.id := m]) == CleanDict(d)[m.id := Clean(m)]
  {
  }

  lemma SaveKeeps(s: Store, m: SmsMsg)
    requires Synced(s) && Storable(m)
    ensures Synced(Store(s.dict[m.id := m], Appended(s.disk, m)))
    ensures CleanDict(s.dict[m.id := m]) == CleanDict(s.dict)[m.id := Clean(m)]
  {
    HoldingAppend(s.disk.main.value, CleanDict(s.dict), m);
    KeyedUpdate(s.dict, m);
    CleanUpdate(s.dict, m);
  }

  lemma KeyedRemove(d: Dict, k: Uuid)
    requires Keyed(d)
    ensures Keyed(d - {k})
  {
    var r := d - {k};
    forall j | j in r ensures r[j].id == j && Storable(r[j]) { assert r[j] == d[j]; }
  }

  lemma CleanRemove(d: Dict, k: Uuid)
    ensures CleanDict(d - {k}) == CleanDict(d) - {k}
  {
  }

  lemma AckKeeps(s: Store, a: Msg)
    requires Synced(s) && a.Ack? && Storable(a)
    ensures Synced(Store(s.dict - {a.ackId}, Appended(s.disk, a)))
    ensures CleanDict(s.dict - {a.ackId}) == CleanDict(s.dict) - {a.ackId}
  {
    HoldingAppend(s.disk.main.value, CleanDict(s.dict), a);
    KeyedRemove(s.dict, a.ackId);
    CleanRemove(s.dict, a.ackId);
  }

  // ----- what a file reads as

  ghost predicate Reads(os: Octstr, d: Dict) {
    forall ids: nat -> Uuid, now: int :: Replay(os, 0, map[], ids, now) == Done(d)
  }

  lemma HoldingReads(os: Octstr, d: Dict)
    requires Holding(os, d)
    ensures Reads(os, d)
  {
    forall ids: nat -> Uuid, now: int ensures Replay(os, 0, map[], ids, now) == Done(d) {
      HoldingReplays(os, d, ids, now);
    }
  }

  lemma TornReads(os: Octstr, d: Dict, m: Msg, n: nat)
    requires Holding(os, d) && Storable(m) && (m.Sms? || m.Ack?) && n < |Frame(m)| && (n == 0 || n >= 4)
    ensures Reads(os + Frame(m)[..n], if n == 0 then d else ApplyTorn(d, m, |Frame(m)| - n))
  {
    var msgs :| AllStorable(msgs) && os == Log(msgs) && ApplyAll(map[], msgs) == d;
    var r := if n == 0 then d else ApplyTorn(d, m, |Frame(m)| - n);
    forall ids: nat -> Uuid, now: int ensures Replay(os + Frame(m)[..n], 0, map[], ids, now) == Done(r) {
      TornLog(msgs, m, n, ids, now);
    }
  }

  /** The file that a start would choose reads as the dictionary. */
  ghost predicate DiskReads(disk: Disk, d: Dict) { LoadChoice(disk).Some? && Reads(LoadChoice(disk).value, d) }

  /** A dictionary as it comes out of a file. */
  ghost predicate Settled(d: Dict) { Keyed(d) && CleanDict(d) == d }

  ghost predicate Agrees(s: Sys, d: Dict) {
    match s
    case Up(store) => Synced(store) && CleanDict(store.dict) == d
    case Down(disk) => Settled(d) && DiskReads(disk, d)
  }

  lemma AgreesSettled(s: Sys, d: Dict)
    requires Agrees(s, d)
    ensures Settled(d)
  {
    if s.Up? {
      CleanDictKeyed(s.store.dict);
      CleanTwice(s.store.dict);
    }
  }

  // ----- the steps

  lemma CrashKeeps(s: Store, disk: Disk)
    requires Synced(s) && StoppedAt(s.dict, s.disk, disk)
    ensures Agrees(Down(disk), CleanDict(s.dict))
  {
    var order :| Enumerates(order, s.dict) && DuringDump(s.disk, Log(Picked(s.dict, order)), disk);
    CrashSafe(s, order, disk);
    HoldingReads(LoadChoice(disk).value, CleanDict(s.dict));
    CleanDictKeyed(s.dict);
    CleanTwice(s.dict);
  }

  lemma ShorterStorable(m: Msg, missing: nat)
    requires Storable(m) && InMetaData(m, missing)
    ensures var m' := Clean(WithShorterMetaData(m, missing)); m'.Sms? && Storable(m') && Clean(m') == m'
  {
    var m' := WithShorterMetaData(m, missing);
    ShorterFits(m, missing);
    ShorterPack(m, missing);
    CleanStorable(m');
  }

  predicate Storing(w: Word) { !w.Removed? && (w.Saved? ==> Storable(w.msg) && Clean(w.msg) == w.msg) }

  lemma SettledSaved(d: Dict, w: Word)
    requires Settled(d) && Storing(w)
    ensures Settled(Outstanding(d, w))
  {
    if w.Saved? {
      KeyedUpdate(d, w.msg);
      CleanUpdate(d, w.msg);
    }
  }

  lemma TornStoring(m: Msg, n: nat)
    requires Valid(TornSave(m, n))
    ensures Storing(WordOf(TornSave(m, n)))
  {
    var missing := |Frame(m)| - n;
    if n > 0 && InMetaData(m, missing) { ShorterStorable(m, missing); }
  }

  lemma TornKeeps(s: Store, m: Msg, n: nat)
    requires Synced(s) && Valid(TornSave(m, n)) && (n == 0 || n >= 4)
    ensures Agrees(Down(AppendedTorn(s.disk, m, n)), Outstanding(CleanDict(s.dict), WordOf(TornSave(m, n))))
  {
    AgreesSettled(Up(s), CleanDict(s.dict));
    TornStoring(m, n);
    SettledSaved(CleanDict(s.dict), WordOf(TornSave(m, n)));
    TornReads(s.disk.main.value, CleanDict(s.dict), m, n);
  }

  lemma LoadKeeps(disk: Disk, d: Dict, ids: nat -> Uuid, now: int, s: Store)
    requires Agrees(Down(disk), d) && (Restarted(disk, ids, now, s) || StartedAfresh(disk, s))
    ensures Agrees(Up(s), d)
  {
    assert s.dict == d;
    var order :| Enumerates(order, s.dict) && s.disk == Dumped(disk, Log(Picked(s.dict, order)));
    DumpedSynced(disk, d, order);
  }

  lemma LoadCrashKeeps(disk: Disk, d: Dict, ids: nat -> Uuid, now: int, disk': Disk)
    requires Agrees(Down(disk), d) && Next(Down(disk), LoadCrash(ids, now), Down(disk'))
    requires Careful(Down(disk), LoadCrash(ids, now))
    ensures Agrees(Down(disk'), d)
  {
    var dict :| Recovers(disk, dict, ids, now) && StoppedAt(dict, disk, disk');
    assert dict == d;
    var order :| Enumerates(order, d) && DuringDump(disk, Log(Picked(d, order)), disk');
    DumpHolds(d, order);
    HoldingReads(Log(Picked(d, order)), d);
    if d == map[] { EmptyLog(order); }
    ChoiceDuringDump(disk, Log(Picked(d, order)), disk');
  }

  lemma DumpKeeps(s: Store, s': Store)
    requires Synced(s) && DumpedTo(s, s')
    ensures Agrees(Up(s'), CleanDict(s.dict))
  {
    var order :| Enumerates(order, s.dict) && s' == Store(s.dict, Dumped(s.disk, Log(Picked(s.dict, order))));
    DumpedSynced(s.disk, s.dict, order);
  }

  lemma NextKeeps(s: Sys, op: Op, s': Sys, d: Dict)
    requires Agrees(s, d) && Valid(op) && Next(s, op, s') && Careful(s, op)
    ensures Agrees(s', Outstanding(d, WordOf(op)))
  {
    match op
    case Save(m, newId, now) => SaveKeeps(s.store, Stamped(m, newId, now));
    case SaveAck(id, time, status) => AckKeeps(s.store, Ack(status, time, id));
    case Dump => DumpKeeps(s.store, s'.store);
    case Crash => CrashKeeps(s.store, s'.disk);
    case TornSave(m, n) => TornKeeps(s.store, m, n);
    case Load(ids, now) => LoadKeeps(s.disk, d, ids, now, s'.store);
    case LoadCrash(ids, now) => LoadCrashKeeps(s.disk, d, ids, now, s'.disk);
  }

  lemma {:induction false} SomeOrder(keys: set<Uuid>, d: Dict) returns (order: seq<Uuid>)
    requires keys <= d.Keys
    ensures Distinct(order) && forall k :: k in order <==> k in keys
    decreases |keys|
  {
    order := [];
    if keys != {} {
      var k :| k in keys;
      var rest := SomeOrder(keys - {k}, d);
      order := rest + [k];
    }
  }

  lemma CrashStep(s: Store, order: seq<Uuid>, disk: Disk)
    requires Enumerates(order, s.dict) && DuringDump(s.disk, Log(Picked(s.dict, order)), disk)
    ensures Next(Up(s), Crash, Down(disk))
  {
    assert StoppedAt(s.dict, s.disk, disk);
  }

  lemma LoadCrashStep(disk: Disk, dict: Dict, order: seq<Uuid>, ids: nat -> Uuid, now: int)
    requires Recovers(disk, dict, ids, now) && Enumerates(order, dict)
    ensures Next(Down(disk), LoadCrash(ids, now), Down(Written(disk, [])))
  {
    var log := Log(Picked(dict, order));
    assert log[..0] == [];
    assert DuringDump(disk, log, Written(disk, []));
    assert StoppedAt(dict, disk, Written(disk, []));
  }

  lemma CarelessLoad(disk: Disk, d: Dict, ids: nat -> Uuid, now: int)
    requires Agrees(Down(disk), d) && !Careful(Down(disk), LoadCrash(ids, now))
    ensures var lost := Down(Written(disk, []));
            Next(Down(disk), LoadCrash(ids, now), lost) && !Agrees(lost, d)
  {
    assert Recovers(disk, d, ids, now);
    var order := SomeOrder(d.Keys, d);
    LoadCrashStep(disk, d, order, ids, now);
    assert Replay([], 0, map[], ids, now) == Done(map[]);
  }

  lemma CarelessTorn(s: Store, m: Msg, n: nat, d: Dict)
    requires Synced(s) && Valid(TornSave(m, n)) && 0 < n < 4
    ensures !Agrees(Down(AppendedTorn(s.disk, m, n)), d)
  {
    var ids: nat -> Uuid := _ => ZERO_ID;
    var os := s.disk.main.value;
    var msgs :| AllStorable(msgs) && os == Log(msgs) && ApplyAll(map[], msgs) == CleanDict(s.dict);
    StrayOctetsHang(msgs, Frame(m)[..n], ids, 0);
    assert Replay(os + Frame(m)[..n], 0, map[], ids, 0).Hangs?;
  }

  /** Care is exactly what a step needs: whatever an operation can lead to still reads as what is
      outstanding, if and only if the operation is careful. */
  lemma CarefulIff(s: Sys, op: Op, d: Dict)
    requires Agrees(s, d) && Valid(op)
    ensures Careful(s, op) <==> forall s' :: Next(s, op, s') ==> Agrees(s', Outstanding(d, WordOf(op)))
  {
    if Careful(s, op) {
      forall s' | Next(s, op, s') ensures Agrees(s', Outstanding(d, WordOf(op))) { NextKeeps(s, op, s', d); }
    } else if op.LoadCrash? {
      CarelessLoad(s.disk, d, op.ids, op.now);
    } else {
      CarelessTorn(s.store, op.m, op.n, Outstanding(d, WordOf(op)));
      assert Next(s, op, Down(AppendedTorn(s.store.disk, op.m, op.n)));
    }
  }

  // ----- whole runs

  predicate AllValid(ops: seq<Op>) { forall i :: 0 <= i < |ops| ==> Valid(ops[i]) }

  function Words(ops: seq<Op>): (words: seq<Word>)
    requires AllValid(ops)
    ensures |words| == |ops| && forall i :: 0 <= i < |ops| ==> words[i] == WordOf(ops[i])
  {
    seq(|ops|, i requires 0 <= i < |ops| => WordOf(ops[i]))
  }

  function OutstandingAll(d: Dict, words: seq<Word>): Dict {
    if words == [] then d else Outstanding(OutstandingAll(d, words[..|words| - 1]), words[|words| - 1])
  }

  ghost predicate Run(states: seq<Sys>, ops: seq<Op>) {
    |states| == |ops| + 1 && AllValid(ops) && forall i :: 0 <= i < |ops| ==> Next(states[i], ops[i], states[i + 1])
  }

  ghost predicate CarefulRun(states: seq<Sys>, ops: seq<Op>) {
    |states| == |ops| + 1 && forall i :: 0 <= i < |ops| ==> Careful(states[i], ops[i])
  }

  /** In every careful run of saves, acknowledgements, dumps, crashes and starts, the file that a start
      would choose reads as what was saved and not yet acknowledged. */
  lemma {:induction false} RunKeeps(states: seq<Sys>, ops: seq<Op>, d: Dict)
    requires Run(states, ops) && CarefulRun(states, ops) && Agrees(states[0], d)
    ensures Agrees(states[|ops|], OutstandingAll(d, Words(ops)))
    decreases |ops|
  {
    if ops != [] {
      var n := |ops| - 1;
      RunKeeps(states[..n + 1], ops[..n], d);
      NextKeeps(states[n], ops[n], states[n + 1], OutstandingAll(d, Words(ops[..n])));
      assert Words(ops)[..n] == Words(ops[..n]);
    }
  }

  predicate About(w: Word, k: Uuid) { (w.Saved? && w.msg.id == k) || (w.Removed? && w.k == k) }

  /** The `i`-th word saved `k`, and no word is about it since. */
  predicate LastWord(words: seq<Word>, i: nat, k: Uuid) {
    i < |words| && words[i].Saved? && words[i].msg.id == k && forall j :: i < j < |words| ==> !About(words[j], k)
  }

  /** What is outstanding, said without replaying: the last word about an identifier was a save. */
  lemma {:induction false} OutstandingIff(words: seq<Word>, k: Uuid)
    ensures k in OutstandingAll(map[], words) <==> exists i: nat :: LastWord(words, i, k)
    ensures forall i: nat :: LastWord(words, i, k) ==> OutstandingAll(map[], words)[k] == words[i].msg
    decreases |words|
  {
    if words != [] {
      var n := |words| - 1;
      OutstandingIff(words[..n], k);
      forall i: nat ensures LastWord(words, i, k) <==> if About(words[n], k) then i == n && words[n].Saved?
                                                       else LastWord(words[..n], i, k)
      {
        LastWordStep(words, n, k, i);
      }
      if About(words[n], k) {
        assert words[n].Saved? ==> LastWord(words, n, k);
      } else if k in OutstandingAll(map[], words) {
        var i: nat :| LastWord(words[..n], i, k);
        assert LastWord(words, i, k);
      }
    }
  }

  lemma LastWordStep(words: seq<Word>, n: nat, k: Uuid, i: nat)
    requires |words| == n + 1
    ensures LastWord(words, i, k) <==> if About(words[n], k) then i == n && words[n].Saved?
                                       else LastWord(words[..n], i, k)
  {
    var before := words[..n];
    if LastWord(before, i, k) && !About(words[n], k) {
      forall j | i < j < |words| ensures !About(words[j], k) { if j < n { assert before[j] == words[j]; } }
    }
    if LastWord(words, i, k) {
      forall j | i < j < |before| ensures !About(before[j], k) { assert before[j] == words[j]; }
    }
  }

  function DiskOf(s: Sys): Disk { if s.Up? then s.store.disk else s.disk }

  lemma AgreesReads(s: Sys, d: Dict)
    requires Agrees(s, d)
    ensures DiskReads(DiskOf(s), d)
  {
    if s.Up? { HoldingReads(s.store.disk.main.value, d); }
  }

  /** What a start on an empty disk leaves. */
  const FRESH := Up(Store(map[], Disk(Some([]), None, None)))

  /** The law of the store: from a fresh store, after every careful run, up or down, the file that a start
      would choose gives a message for an identifier exactly when the last word about it was a save, and
      then as it was saved there. */
  lemma StoreLaw(states: seq<Sys>, ops: seq<Op>, ids: nat -> Uuid, now: int, k: Uuid)
    requires Run(states, ops) && CarefulRun(states, ops) && states[0] == FRESH
    ensures var choice := LoadChoice(DiskOf(states[|ops|]));
            && choice.Some? && Replay(choice.value, 0, map[], ids, now).Done?
            && var d := Replay(choice.value, 0, map[], ids, now).dict;
               && (k in d <==> exists i: nat :: LastWord(Words(ops), i, k))
               && forall i: nat :: LastWord(Words(ops), i, k) ==> d[k] == Words(ops)[i].msg
  {
    FreshAgrees();
    RunKeeps(states, ops, map[]);
    AgreesReads(states[|ops|], OutstandingAll(map[], Words(ops)));
    OutstandingIff(Words(ops), k);
  }

  lemma FreshAgrees()
    ensures Agrees(FRESH, map[])
  {
    HoldingIntro([], map[]);
    assert Log([]) == [] && CleanDict(map[]) == map[];
  }

  lemma LoadEmptyStep(disk: Disk, ids: nat -> Uuid, now: int)
    requires LoadChoice(disk) == Some([])
    ensures Next(Down(disk), Load(ids, now), Up(Store(map[], Dumped(disk, []))))
  {
    EmptyLog([]);
    assert Enumerates([], map[]);
    assert Restarted(disk, ids, now, Store(map[], Dumped(disk, [])));
  }

  lemma RunOfThree(a: Sys, b: Sys, c: Sys, d: Sys, x: Op, y: Op, z: Op)
    requires Valid(x) && Valid(y) && Valid(z) && Next(a, x, b) && Next(b, y, c) && Next(c, z, d)
    ensures Run([a, b, c, d], [x, y, z])
  {
    var states, ops := [a, b, c, d], [x, y, z];
    forall i | 0 <= i < 3 ensures Valid(ops[i]) && Next(states[i], ops[i], states[i + 1]) {
      if i == 0 {
        assert ops[i] == x;
      } else if i == 1 {
        assert ops[i] == y;
      } else {
        assert ops[i] == z;
      }
    }
  }

  /** Without care: from every healthy store, a dump stopped between its two renames and the next start
      stopped in its dump right after opening `.new` leave nothing to load. */
  lemma TwoCrashesLose(s: Store, ids: nat -> Uuid, now: int) returns (states: seq<Sys>)
    requires Synced(s)
    ensures Run(states, [Crash, LoadCrash(ids, now), Load(ids, now)]) && states[0] == Up(s)
    ensures states[3].Up? && states[3].store.dict == map[]
  {
    var order := SomeOrder(s.dict.Keys, s.dict);
    var log := Log(Picked(s.dict, order));
    var disk := RenamedMain(Written(s.disk, log));
    CrashStep(s, order, disk);
    DumpHolds(s.dict, order);
    HoldingReplays(log, CleanDict(s.dict), ids, now);
    LoadCrashStep(disk, CleanDict(s.dict), order, ids, now);
    var empty := Written(disk, []);
    LoadEmptyStep(empty, ids, now);
    var end := Up(Store(map[], Dumped(empty, [])));
    RunOfThree(Up(s), Down(disk), Down(empty), end, Crash, LoadCrash(ids, now), Load(ids, now));
    states := [Up(s), Down(disk), Down(empty), end];
  }

  // ----- the store as the code runs it

  lemma LogUpTo(msgs: seq<Msg>, i: nat)
    requires i < |msgs|
    ensures Log(msgs[..i + 1]) == Log(msgs[..i]) + Frame(msgs[i])
  {
    LogLast(msgs[..i], msgs[i]);
    assert msgs[..i + 1] == msgs[..i] + [msgs[i]];
  }

  class StoreFileDb {
    var dict: Dict
    var disk: Disk

    ghost function State(): Store
      reads this
    {
      Store(dict, disk)
    }

    /** store_file_save for a text message. */
    method SaveSms(msg: SmsMsg, newId: Uuid, now: int)
      requires Synced(State()) && Valid(Save(msg, newId, now))
      modifies this
      ensures Next(Up(old(State())), Save(msg, newId, now), Up(State())) && Synced(State())
    {
      SaveKeeps(State(), Stamped(msg, newId, now));
      dict := ToDict(dict, msg, newId, now);
      WriteMsg(Stamped(msg, newId, now));
    }

    /** store_file_save_ack. */
    method SaveAckOf(msg: SmsMsg, status: int)
      requires Synced(State()) && Valid(SaveAck(msg.id, msg.time, status))
      modifies this
      ensures Next(Up(old(State())), SaveAck(msg.id, msg.time, status), Up(State())) && Synced(State())
    {
      var mack := Ack(status, msg.time, msg.id);
      AckKeeps(State(), mack);
      dict := ToDict(dict, mack, ZERO_ID, 0);
      WriteMsg(mack);
    }

    method WriteMsg(m: Msg)
      requires disk.main.Some?
      modifies this`disk
      ensures disk == Appended(old(disk), m)
    {
      var pack := MsgPack.MsgPack(m);
      disk := disk.(main := Some(disk.main.value + (Encode(|pack|) + pack)));
    }

    /** dict_keys: some enumeration of the keys. */
    method Keys() returns (order: seq<Uuid>)
      ensures Enumerates(order, dict)
    {
      order := [];
      var rest := dict.Keys;
      while rest != {}
        invariant rest <= dict.Keys && Distinct(order)
        invariant forall k :: k in order <==> k in dict && k !in rest
        decreases |rest|
      {
        var k :| k in rest;
        order := order + [k];
        rest := rest - {k};
      }
    }

    method WriteNew(m: Msg)
      requires disk.newer.Some?
      modifies this`disk
      ensures disk == Written(old(disk), old(disk).newer.value + Frame(m))
    {
      var pack := MsgPack.MsgPack(m);
      disk := Written(disk, disk.newer.value + (Encode(|pack|) + pack));
    }

    method WriteAll(order: seq<Uuid>)
      requires forall k :: k in order ==> k in dict
      modifies this`disk
      ensures disk == Written(old(disk), Log(Picked(dict, order)))
    {
      ghost var msgs := Picked(dict, order);
      disk := Written(disk, []);
      for i := 0 to |order|
        invariant disk == Written(old(disk), Log(msgs[..i]))
      {
        LogUpTo(msgs, i);
        WriteNew(dict[order[i]]);
      }
      assert msgs[..|order|] == msgs;
    }

    /** do_dump: write every message to `.new`, then rename. */
    method DoDump()
      modifies this`disk
      ensures DumpedTo(old(State()), State())
      ensures Keyed(dict) ==> Synced(State())
    {
      var order := Keys();
      WriteAll(order);
      disk := RenamedNew(RenamedMain(disk));
      assert State() == Store(dict, Dumped(old(disk), Log(Picked(dict, order))));
      if Keyed(dict) { DumpedSynced(old(disk), dict, order); }
    }

    /** store_file_load: replay the chosen file, hand every message on, dump what is left.
        With no file at all a new one is started. */
    method Load(ids: nat -> Uuid, now: int) returns (r: Loaded, handed: seq<Msg>)
      modifies this
      ensures LoadChoice(old(disk)).None? ==> r == Done(map[]) && handed == [] && disk == old(disk).(main := Some([]))
      ensures LoadChoice(old(disk)).Some? ==> r == Replay(LoadChoice(old(disk)).value, 0, map[], ids, now)
      ensures r.Done? ==> dict == r.dict && exists order :: Enumerates(order, dict) && handed == Picked(dict, order)
      ensures r.Done? ==> Next(Down(old(disk)), Op.Load(ids, now), Up(State()))
    {
      dict, handed := map[], [];
      var choice := LoadChoice(disk);
      if choice.None? {
        disk := disk.(main := Some([]));
        assert Enumerates([], dict) && handed == Picked(dict, []);
        return Done(map[]), [];
      }
      r := ReplayFile(choice.value, ids, now);
      if r.Done? {
        dict := r.dict;
        handed := HandOn();
        DoDump();
      }
    }

    method ReplayFile(os: Octstr, ids: nat -> Uuid, now: int) returns (r: Loaded)
      ensures r == Replay(os, 0, map[], ids, now)
    {
      var pos, d := 0, map[];
      while pos < |os|
        invariant Replay(os, pos, d, ids, now) == Replay(os, 0, map[], ids, now)
        decreases |os| - pos
      {
        var next := ReadMsg(os, pos);
        match next
        case Got(m, p) => pos, d := p, ToDict(d, m, ids(p), now);
        case Skipped(p) => pos := p;
        case NoHeader => return Hangs;
        case Died => return Dies;
      }
      r := Done(d);
    }

    /** Every message of the dictionary once, in some order. */
    method HandOn() returns (handed: seq<Msg>)
      ensures exists order :: Enumerates(order, dict) && handed == Picked(dict, order)
    {
      var order := Keys();
      handed := [];
      for i := 0 to |order|
        invariant handed == Picked(dict, order)[..i]
      {
        handed := handed + [dict[order[i]]];
      }
    }
  }
}
