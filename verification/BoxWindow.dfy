/** The window protocol between the bearerbox and one smsbox (gw/bb_boxc.c): a sender thread and
    a receiver thread that share a dictionary of sent messages and a counting semaphore, with
    the routing thread filling the box's queue. Threads are interleaved step by step. */
module BoxWindow {

  /** Messages are known by their identifier. */
  type Id = nat

  /** Where the sender stands: at the loop head, waiting for a message, with a message in hand,
      stored it, past the semaphore, past the check of the alive flag, after a failed write, after
      taking it out of the dictionary again, after raising the semaphore for that, or gone. */
  datatype Sender =
    | Top | Waiting | Holding(m: Id) | Stored(m: Id) | Down(m: Id) | Writing(m: Id)
    | Failed(m: Id) | Removed(m: Id) | Popped(m: Id) | Exited

  /** Where the receiver stands: reading; after taking an acknowledged or, for `retry`, refused
      message out of the dictionary; after raising the semaphore for that; out of its loop; off the
      routing lists; after closing the queue; after counting the window; past the semaphore check;
      past the join of the sender; finished. */
  datatype Receiver =
    | Listening | Popping(m: Id, retry: bool) | Settling(m: Id, retry: bool)
    | Left | Unlisted | Unproduced | Counted(full: bool) | Checked | Joined | Closed

  datatype State = State(
    max: nat, incoming: seq<Id>, open: bool, sent: set<Id>, written: set<Id>, sem: nat, bonus: bool,
    alive: bool, dead: bool, sender: Sender, receiver: Receiver,
    given: set<Id>, requeued: set<Id>, acked: set<Id>)

  function Init(max: nat): State {
    State(max, [], true, {}, {}, max, false, true, false, Top, Listening, {}, {}, {})
  }

  datatype Event =
    | Route(m: Id)            // the router puts a message into the box's queue
    | CloseQueue              // shutdown of the routing thread
    | Kill                    // the bearerbox dies
    | Ack(m: Id)              // the box acknowledged a message, or refused it for good
    | TempNack(m: Id)         // the box refused a message for now
    | Disconnect              // the read failed
    | SenderStep(ok: bool)    // the sender's next statement; `ok` is the result of a write
    | ReceiverStep(m: Id)     // the receiver's next statement after its loop; `m` is the key it drains next

  /** In the queue, in the hand of a thread or in the dictionary. */
  predicate InBox(s: State, m: Id) { m in s.incoming || InWindow(s, m) }

  predicate InWindow(s: State, m: Id) { m in s.sent || InHand(s, m) }

  predicate InHand(s: State, m: Id) { InSendersHand(s.sender, m) || InReceiversHand(s.receiver, m) }

  predicate InSendersHand(p: Sender, m: Id) {
    (p.Holding? || p.Removed? || p.Popped?) && p.m == m
  }

  predicate InReceiversHand(r: Receiver, m: Id) { (r.Popping? || r.Settling?) && r.m == m }

  // ----- the statements of the threads

  function At(s: State, p: Sender): State { s.(sender := p) }

  function Take(s: State): State
    requires s.incoming != []
  {
    s.(sender := Holding(s.incoming[0]), incoming := s.incoming[1..])
  }

  function Store(s: State, m: Id): State { s.(sender := Stored(m), sent := s.sent + {m}) }

  function Lower(s: State, m: Id): State
    requires s.sem > 0
  {
    s.(sender := Down(m), sem := s.sem - 1)
  }

  function Written(s: State, m: Id): State { s.(sender := Top, written := s.written + {m}) }

  function Remove(s: State, m: Id): State {
    s.(sender := Removed(m), sent := s.sent - {m}, written := s.written - {m})
  }

  function Raise(s: State, m: Id): State { s.(sender := Popped(m), sem := s.sem + 1) }

  function Requeue(s: State, m: Id): State { s.(sender := Exited, requeued := s.requeued + {m}) }

  function SenderNext(s: State, ok: bool): State {
    match s.sender
    case Top => At(s, if s.alive && !s.dead then Waiting else Exited)
    case Waiting => if s.incoming != [] then Take(s) else if s.open then s else At(s, Exited)
    case Holding(m) => Store(s, m)
    case Stored(m) => if s.sem == 0 then s else Lower(s, m)
    case Down(m) => At(s, if s.alive then Writing(m) else Failed(m))
    case Writing(m) => if ok then Written(s, m) else At(s, Failed(m))
    case Failed(m) => Remove(s, m)
    case Removed(m) => Raise(s, m)
    case Popped(m) => Requeue(s, m)
    case Exited => s
  }

  function On(s: State, r: Receiver): State { s.(receiver := r) }

  /** The first statement of boxc_sent_pop for an answered message. */
  function Answered(s: State, m: Id, retry: bool): State {
    s.(receiver := Popping(m, retry), sent := s.sent - {m}, written := s.written - {m})
  }

  function Reraise(s: State, m: Id, retry: bool): State { s.(receiver := Settling(m, retry), sem := s.sem + 1) }

  function Settle(s: State, m: Id, retry: bool): State {
    if retry then s.(receiver := Listening, requeued := s.requeued + {m})
    else s.(receiver := Listening, acked := s.acked + {m})
  }

  function Unproduce(s: State): State { s.(receiver := Unproduced, open := false) }

  function RaiseFull(s: State): State { s.(receiver := Checked, bonus := true, sem := s.sem + 1) }

  function DrainSent(s: State, m: Id): State {
    s.(sent := s.sent - {m}, written := s.written - {m}, requeued := s.requeued + {m})
  }

  function DrainQueue(s: State): State
    requires s.incoming != []
  {
    s.(incoming := s.incoming[1..], requeued := s.requeued + {s.incoming[0]})
  }

  function ReceiverNext(s: State, m: Id): State {
    match s.receiver
    case Listening => if s.dead then On(s, Left) else s
    case Popping(x, retry) => Reraise(s, x, retry)
    case Settling(x, retry) => Settle(s, x, retry)
    case Left => On(s, Unlisted)
    case Unlisted => Unproduce(s)
    case Unproduced => On(s, Counted(|s.sent| >= s.max))
    case Counted(full) => if full then RaiseFull(s) else On(s, Checked)
    case Checked => if s.sender.Exited? then On(s, Joined) else s
    case Joined =>
      if m in s.sent then DrainSent(s, m) else if s.sent != {} then s
      else if s.incoming != [] then DrainQueue(s) else On(s, Closed)
    case Closed => s
  }

  function Routed(s: State, m: Id): State {
    s.(incoming := s.incoming + [m], given := s.given + {m}, requeued := s.requeued - {m})
  }

  predicate Listed(r: Receiver) { r.Listening? || r.Popping? || r.Settling? || r.Left? }

  /** One step of the system; a step that is not possible changes nothing. A message is routed only
      while the box is listed and the message is nowhere in it; only a message that was really
      written is acknowledged. An answer takes the message out of the dictionary (the first
      statement of boxc_sent_pop); the receiver's next two steps raise the semaphore and settle it. */
  function Next(s: State, e: Event): State {
    match e
    case Route(m) => if Listed(s.receiver) && !InBox(s, m) && m !in s.acked then Routed(s, m) else s
    case CloseQueue => s.(open := false)
    case Kill => s.(dead := true)
    case Ack(m) => if s.receiver.Listening? && m in s.written then Answered(s, m, false) else s
    case TempNack(m) => if s.receiver.Listening? && m in s.written then Answered(s, m, true) else s
    case Disconnect => if s.receiver.Listening? then s.(alive := false, receiver := Left) else s
    case SenderStep(ok) => SenderNext(s, ok)
    case ReceiverStep(m) => ReceiverNext(s, m)
  }

  // ----- where a message is

  function Bit(b: bool): nat { if b then 1 else 0 }

  /** The number of places that hold the message. */
  function Places(s: State, m: Id): nat {
    Bit(m in s.incoming) + Bit(InWindow(s, m)) + Bit(m in s.requeued) + Bit(m in s.acked)
  }

  predicate Distinct(q: seq<Id>) { forall i, j :: 0 <= i < j < |q| ==> q[i] != q[j] }

  ghost predicate Accounted(s: State) {
    && (forall m :: PlacedOnce(s, m))
    && Distinct(s.incoming)
  }

  /** What the sender stored is in the dictionary until it pops it, and is not yet written;
      what it only holds is not there. */
  predicate WindowShape(s: State) {
    && s.written <= s.sent
    && HandShape(s)
    && (s.receiver.Popping? || s.receiver.Settling? ==> s.receiver.m !in s.sent)
  }

  predicate HandShape(s: State) {
    match s.sender
    case Stored(m) => m in s.sent && m !in s.written
    case Down(m) => m in s.sent && m !in s.written
    case Writing(m) => m in s.sent && m !in s.written
    case Failed(m) => m in s.sent && m !in s.written
    case Holding(m) => m !in s.sent && !InReceiversHand(s.receiver, m)
    case Removed(m) => m !in s.sent && !InReceiversHand(s.receiver, m)
    case Popped(m) => m !in s.sent && !InReceiversHand(s.receiver, m)
    case _ => true
  }

  /** Messages taken out of the dictionary whose semaphore is not yet raised. */
  function Unraised(s: State): nat { Bit(s.sender.Removed?) + Bit(s.receiver.Popping?) }

  predicate Ended(r: Receiver) { r.Joined? || r.Closed? }

  /** Value plus pending and unraised messages is the window size; one more while a message is stored
      but the semaphore not yet passed, and one more after the teardown check found the window full. */
  predicate Balanced(s: State) {
    Ended(s.receiver) || s.sem + |s.sent| + Unraised(s) == s.max + Bit(s.sender.Stored?) + Bit(s.bonus)
  }

  predicate Reading(r: Receiver) { r.Listening? || r.Popping? || r.Settling? }

  predicate Finished(s: State) { !Reading(s.receiver) ==> !s.alive || s.dead }

  predicate TornDown(s: State) {
    && (s.bonus ==> s.receiver.Checked? || Ended(s.receiver))
    && (s.receiver.Unproduced? || s.receiver.Counted? || s.receiver.Checked? || Ended(s.receiver) ==> !s.open)
    && (Ended(s.receiver) ==> s.sender.Exited?)
    && (s.receiver.Closed? ==> s.incoming == [] && s.sent == {})
  }

  /** Once the window was counted and found not full, or the semaphore raised, the sender always
      finds the semaphore up: it can store one more message at most. */
  predicate NeverBlocked(s: State) {
    s.receiver == Counted(false) || s.receiver.Checked? ==>
      (s.sender.Waiting? || s.sender.Holding? || s.sender.Stored? ==> s.sem >= 1)
  }

  /** All but the whereabouts of messages. */
  predicate Sound(s: State) { WindowShape(s) && Balanced(s) && Finished(s) && TornDown(s) && NeverBlocked(s) }

  ghost predicate Inv(s: State) { Accounted(s) && Sound(s) }

  lemma InitGood(max: nat)
    ensures Inv(Init(max))
  {
  }

  lemma QueueHead(q: seq<Id>, m: Id)
    requires q != [] && Distinct(q)
    ensures Distinct(q[1..]) && (m in q[1..] <==> m in q && m != q[0])
  {
  }

  predicate PlacedOnce(s: State, m: Id) { Places(s, m) == Bit(m in s.given) }

  // ----- whereabouts, statement by statement

  lemma TakePlaces(s: State, m: Id)
    requires PlacedOnce(s, m) && s.sender.Waiting? && s.incoming != [] && Distinct(s.incoming)
    ensures PlacedOnce(Take(s), m)
  {
    QueueHead(s.incoming, m);
  }

  lemma StorePlaces(s: State, m: Id, x: Id)
    requires PlacedOnce(s, m) && s.sender == Holding(x) && x !in s.sent && !InReceiversHand(s.receiver, x)
    ensures PlacedOnce(Store(s, x), m)
  {
  }

  lemma RemovePlaces(s: State, m: Id, x: Id)
    requires PlacedOnce(s, m) && s.sender == Failed(x) && x in s.sent
    ensures PlacedOnce(Remove(s, x), m)
  {
  }

  lemma RequeuePlaces(s: State, m: Id, x: Id)
    requires PlacedOnce(s, m) && s.sender == Popped(x) && x !in s.sent && !InReceiversHand(s.receiver, x)
    ensures PlacedOnce(Requeue(s, x), m)
  {
  }

  lemma SenderPlaces(s: State, ok: bool, m: Id)
    requires PlacedOnce(s, m) && HandShape(s) && Distinct(s.incoming)
    ensures PlacedOnce(SenderNext(s, ok), m)
  {
    match s.sender
    case Waiting => if s.incoming != [] { TakePlaces(s, m); }
    case Holding(x) => StorePlaces(s, m, x);
    case Failed(x) => RemovePlaces(s, m, x);
    case Popped(x) => RequeuePlaces(s, m, x);
    case _ =>
  }

  lemma SettlePlaces(s: State, m: Id, x: Id, retry: bool)
    requires PlacedOnce(s, m) && s.receiver == Settling(x, retry) && x !in s.sent && !InSendersHand(s.sender, x)
    ensures PlacedOnce(Settle(s, x, retry), m)
  {
  }

  lemma DrainPlaces(s: State, m: Id, x: Id)
    requires PlacedOnce(s, m) && s.receiver.Joined? && s.sender.Exited? && x in s.sent
    ensures PlacedOnce(DrainSent(s, x), m)
  {
  }

  lemma DrainQueuePlaces(s: State, m: Id)
    requires PlacedOnce(s, m) && s.incoming != [] && Distinct(s.incoming)
    ensures PlacedOnce(DrainQueue(s), m)
  {
    QueueHead(s.incoming, m);
  }

  lemma ReceiverPlaces(s: State, k: Id, m: Id)
    requires PlacedOnce(s, m) && Distinct(s.incoming) && WindowShape(s) && TornDown(s)
    ensures PlacedOnce(ReceiverNext(s, k), m)
  {
    match s.receiver
    case Joined =>
      if k in s.sent { DrainPlaces(s, m, k); } else if s.sent == {} && s.incoming != [] { DrainQueuePlaces(s, m); }
    case Settling(x, retry) => SettlePlaces(s, m, x, retry);
    case _ =>
  }

  lemma RoutedPlaces(s: State, m: Id, x: Id)
    requires PlacedOnce(s, m) && !InBox(s, x) && x !in s.acked
    ensures PlacedOnce(Routed(s, x), m)
  {
  }

  lemma AnsweredPlaces(s: State, m: Id, x: Id, retry: bool)
    requires PlacedOnce(s, m) && s.receiver.Listening? && x in s.sent
    ensures PlacedOnce(Answered(s, x, retry), m)
  {
  }

  lemma NextPlaces(s: State, e: Event, m: Id)
    requires PlacedOnce(s, m) && Distinct(s.incoming) && WindowShape(s) && TornDown(s)
    ensures PlacedOnce(Next(s, e), m)
  {
    match e
    case SenderStep(ok) => SenderPlaces(s, ok, m);
    case ReceiverStep(k) => ReceiverPlaces(s, k, m);
    case Route(x) => if Listed(s.receiver) && !InBox(s, x) && x !in s.acked { RoutedPlaces(s, m, x); }
    case Ack(x) => if s.receiver.Listening? && x in s.written { AnsweredPlaces(s, m, x, false); }
    case TempNack(x) => if s.receiver.Listening? && x in s.written { AnsweredPlaces(s, m, x, true); }
    case _ =>
  }

  lemma NextDistinct(s: State, e: Event)
    requires Distinct(s.incoming)
    ensures Distinct(Next(s, e).incoming)
  {
    if s.incoming != [] { QueueHead(s.incoming, 0); }
  }

  lemma NextAccounted(s: State, e: Event)
    requires Inv(s)
    ensures Accounted(Next(s, e))
  {
    forall m ensures PlacedOnce(Next(s, e), m) { NextPlaces(s, e, m); }
    NextDistinct(s, e);
  }

  // ----- the window, statement by statement

  lemma AtSound(s: State, p: Sender)
    requires Sound(s) && !Ended(s.receiver) && !s.sender.Stored? && !s.sender.Removed?
    requires !p.Stored? && !p.Removed? && !p.Holding? && !p.Popped?
    requires p.Waiting? ==> s.alive && !s.dead
    requires p.Writing? || p.Failed? ==> p.m in s.sent && p.m !in s.written
    requires !p.Down?
    ensures Sound(At(s, p))
  {
  }

  lemma TakeSound(s: State)
    requires Sound(s) && s.sender.Waiting? && s.incoming != [] && !InWindow(s, s.incoming[0])
    ensures Sound(Take(s))
  {
  }

  lemma StoreSound(s: State, m: Id)
    requires Sound(s) && s.sender == Holding(m)
    ensures Sound(Store(s, m))
  {
    assert |s.sent + {m}| == |s.sent| + 1;
  }

  lemma LowerSound(s: State, m: Id)
    requires Sound(s) && s.sender == Stored(m) && s.sem > 0
    ensures Sound(Lower(s, m))
  {
  }

  lemma WrittenSound(s: State, m: Id)
    requires Sound(s) && s.sender == Writing(m)
    ensures Sound(Written(s, m))
  {
  }

  lemma RemoveSound(s: State, m: Id)
    requires Sound(s) && s.sender == Failed(m)
    ensures Sound(Remove(s, m))
  {
    assert |s.sent - {m}| == |s.sent| - 1;
  }

  lemma RaiseSound(s: State, m: Id)
    requires Sound(s) && s.sender == Removed(m)
    ensures Sound(Raise(s, m))
  {
  }

  lemma RequeueSound(s: State, m: Id)
    requires Sound(s) && s.sender == Popped(m)
    ensures Sound(Requeue(s, m))
  {
  }

  /** What stands in the queue is in no window. */
  lemma QueueOutsideWindow(s: State)
    requires Accounted(s) && s.incoming != []
    ensures !InWindow(s, s.incoming[0])
  {
    assert PlacedOnce(s, s.incoming[0]);
  }

  lemma SenderSound(s: State, ok: bool)
    requires Inv(s)
    ensures Sound(SenderNext(s, ok))
  {
    match s.sender
    case Top => AtSound(s, if s.alive && !s.dead then Waiting else Exited);
    case Waiting =>
      if s.incoming != [] { QueueOutsideWindow(s); TakeSound(s); } else if !s.open { AtSound(s, Exited); }
    case Holding(m) => StoreSound(s, m);
    case Stored(m) => if s.sem > 0 { LowerSound(s, m); }
    case Down(m) => AtSound(s, if s.alive then Writing(m) else Failed(m));
    case Writing(m) => if ok { WrittenSound(s, m); } else { AtSound(s, Failed(m)); }
    case Failed(m) => RemoveSound(s, m);
    case Removed(m) => RaiseSound(s, m);
    case Popped(m) => RequeueSound(s, m);
    case Exited =>
  }

  lemma AnsweredSound(s: State, m: Id, retry: bool)
    requires Sound(s) && s.receiver.Listening? && m in s.written
    ensures Sound(Answered(s, m, retry))
  {
    assert |s.sent - {m}| == |s.sent| - 1;
  }

  lemma ReraiseSound(s: State, m: Id, retry: bool)
    requires Sound(s) && s.receiver == Popping(m, retry)
    ensures Sound(Reraise(s, m, retry))
  {
  }

  lemma SettleSound(s: State, m: Id, retry: bool)
    requires Sound(s) && s.receiver == Settling(m, retry)
    ensures Sound(Settle(s, m, retry))
  {
  }

  lemma CountSound(s: State)
    requires Sound(s) && s.receiver.Unproduced?
    ensures Sound(On(s, Counted(|s.sent| >= s.max)))
  {
  }

  lemma RaiseFullSound(s: State)
    requires Sound(s) && s.receiver == Counted(true)
    ensures Sound(RaiseFull(s))
  {
  }

  lemma TeardownSound(s: State)
    requires Sound(s) && (s.receiver.Left? || s.receiver.Unlisted? || s.receiver == Counted(false))
    ensures Sound(ReceiverNext(s, 0))
  {
  }

  lemma DrainSound(s: State, k: Id)
    requires Sound(s) && (s.receiver.Joined? || s.receiver.Checked? || s.receiver.Closed? || s.receiver.Listening?)
    ensures Sound(ReceiverNext(s, k))
  {
  }

  lemma ReceiverSound(s: State, k: Id)
    requires Sound(s)
    ensures Sound(ReceiverNext(s, k))
  {
    match s.receiver
    case Popping(m, retry) => ReraiseSound(s, m, retry);
    case Settling(m, retry) => SettleSound(s, m, retry);
    case Unproduced => CountSound(s);
    case Counted(full) => if full { RaiseFullSound(s); } else { TeardownSound(s); }
    case Left => TeardownSound(s);
    case Unlisted => TeardownSound(s);
    case _ => DrainSound(s, k);
  }

  /** Every statement of either thread, and everything the rest of the bearerbox does, keeps the invariant. */
  lemma NextKeeps(s: State, e: Event)
    requires Inv(s)
    ensures Inv(Next(s, e))
  {
    NextAccounted(s, e);
    match e
    case SenderStep(ok) => SenderSound(s, ok);
    case ReceiverStep(m) => ReceiverSound(s, m);
    case Ack(m) => if s.receiver.Listening? && m in s.written { AnsweredSound(s, m, false); }
    case TempNack(m) => if s.receiver.Listening? && m in s.written { AnsweredSound(s, m, true); }
    case _ =>
  }

  // ----- whole runs

  function Run(s: State, events: seq<Event>): State
    decreases |events|
  {
    if events == [] then s else Run(Next(s, events[0]), events[1..])
  }

  lemma {:induction false} RunKeeps(s: State, events: seq<Event>)
    requires Inv(s)
    ensures Inv(Run(s, events))
    decreases |events|
  {
    if events != [] {
      NextKeeps(s, events[0]);
      RunKeeps(Next(s, events[0]), events[1..]);
    }
  }

  /** Over every interleaving, each message given to the box is in exactly one place: the queue, the
      window (the sender's hand or the dictionary), the global queue again, or acknowledged; and once
      the box is closed, nothing is left in it. */
  lemma EachMessageInOnePlace(max: nat, events: seq<Event>, m: Id)
    ensures var s := Run(Init(max), events);
            && Places(s, m) == Bit(m in s.given)
            && (s.receiver.Closed? && m in s.given ==> (m in s.requeued <==> m !in s.acked))
  {
    InitGood(max);
    RunKeeps(Init(max), events);
    assert PlacedOnce(Run(Init(max), events), m);
  }

  /** Until the teardown check raises it, the semaphore counts the window: the sum is the maximum, one
      more between storing and lowering, one less for each thread between removing and raising. */
  lemma SemaphoreCountsWindow(max: nat, events: seq<Event>)
    ensures var s := Run(Init(max), events);
            !s.receiver.Checked? && !Ended(s.receiver) ==>
              s.sem + |s.sent| + Bit(s.sender.Removed?) + Bit(s.receiver.Popping?) == s.max + Bit(s.sender.Stored?)
  {
    InitGood(max);
    RunKeeps(Init(max), events);
  }

  /** The statements the sender can still execute once the loop cannot be entered again. */
  function StatementsLeft(p: Sender): nat {
    match p
    case Waiting => 8
    case Holding(_) => 7
    case Stored(_) => 6
    case Down(_) => 5
    case Writing(_) => 4
    case Failed(_) => 3
    case Removed(_) => 2
    case Popped(_) => 1
    case Top => 1
    case Exited => 0
  }

  lemma JoinStep(s: State, ok: bool)
    requires Inv(s) && s.receiver.Checked? && !s.sender.Exited?
    ensures StatementsLeft(SenderNext(s, ok).sender) < StatementsLeft(s.sender)
  {
  }

  /** While the receiver waits in the join, the sender is never blocked and every statement brings
      it closer to its end, so the join returns. */
  lemma JoinReturns(max: nat, events: seq<Event>, ok: bool)
    ensures var s := Run(Init(max), events);
            s.receiver.Checked? && !s.sender.Exited? ==>
              StatementsLeft(SenderNext(s, ok).sender) < StatementsLeft(s.sender)
  {
    InitGood(max);
    RunKeeps(Init(max), events);
    var s := Run(Init(max), events);
    if s.receiver.Checked? && !s.sender.Exited? { JoinStep(s, ok); }
  }

  function SenderSteps(events: seq<Event>): nat {
    if events == [] then 0 else (if events[0].SenderStep? then 1 else 0) + SenderSteps(events[1..])
  }

  lemma {:induction false} ExitedStays(s: State, events: seq<Event>)
    requires s.sender.Exited?
    ensures Run(s, events).sender.Exited?
    decreases |events|
  {
    if events != [] { ExitedStays(Next(s, events[0]), events[1..]); }
  }

  lemma WaitingStep(s: State, e: Event)
    requires Inv(s) && s.receiver.Checked? && !s.sender.Exited?
    ensures var t := Next(s, e);
            && t.receiver.Checked?
            && (if e.SenderStep? then StatementsLeft(t.sender) < StatementsLeft(s.sender) else t.sender == s.sender)
  {
    if e.SenderStep? { JoinStep(s, e.ok); }
  }

  /** Once the receiver waits in the join, the sender has exited as soon as it was given as many turns
      as it had statements left, whatever every other thread does in between. */
  lemma {:induction false} JoinReturnsInRun(s: State, events: seq<Event>)
    requires Inv(s) && s.receiver.Checked? && SenderSteps(events) >= StatementsLeft(s.sender)
    ensures Run(s, events).sender.Exited?
    decreases |events|
  {
    if s.sender.Exited? {
      ExitedStays(s, events);
    } else {
      WaitingStep(s, events[0]);
      NextKeeps(s, events[0]);
      JoinReturnsInRun(Next(s, events[0]), events[1..]);
    }
  }

  /** From the start: at most eight turns of the sender after the check. */
  lemma JoinReturnsAfter(max: nat, before: seq<Event>, after: seq<Event>)
    requires Run(Init(max), before).receiver.Checked? && SenderSteps(after) >= 8
    ensures Run(Run(Init(max), before), after).sender.Exited?
  {
    InitGood(max);
    RunKeeps(Init(max), before);
    JoinReturnsInRun(Run(Init(max), before), after);
  }
}
