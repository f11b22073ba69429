/**
 The strongly consistent channel: a shared slot map, one queue and one activity flag per receiver,
 and emits that read the flags lazily and wait for one-shot replies.

 An event is one step that no other thread can see half done: a lock section, an atomic load or
 store, or an operation of a queue or of a one-shot. A run is any interleaving of them.
 */
module ConsistentChannel {
  import opened Outcomes

  type Value(==, !new)
  type Reply(==, !new)

  /** Keys are never reused, so a key is the number of receivers made before its own. */
  type Key = nat

  datatype Message = Message(emit: nat, at: nat, value: Value)

  datatype Phase =
    | Idle
    | Waiting(once: bool)                       // inside `subscribe` or `subscribe_one`
    | Handling(message: Message, once: bool)    // inside the callback
    | Settling                                  // `subscribe_one` has replied
    | Stopping                                  // the subscription is over, the flag not yet lowered
    | Dropping                                  // inside `drop`
    | Detached                                  // no longer in the slot map
    | Closed                                    // sends to it fail; its queue is being dropped

  datatype Receiver = Receiver(queue: seq<Message>, active: bool, phase: Phase)

  /** One entry of an emit's snapshot. */
  datatype Ticket =
    | Fresh
    | Skipped                  // its flag was read as false
    | Loaded                   // its flag was read as true
    | Sent
    | Replied(reply: Reply)
    | Ignored                  // the one-shot was dropped
    | Finished                 // the send failed
    | Removed                  // ... and the key was removed

  datatype Course = Ongoing | Returned(result: seq<Reply>) | Abandoned

  datatype Emit = Emit(value: Value, keys: seq<Key>, tickets: seq<Ticket>, course: Course)

  /** What an observer sees: the ends of an emit, and the ends of a callback that was answered. */
  datatype Mark =
    | Opened(emit: nat)
    | Began(emit: nat, at: nat, value: Value)
    | Answered(emit: nat, at: nat, reply: Reply)
    | Over(emit: nat)

  datatype State = State(slots: set<Key>, receivers: seq<Receiver>, emits: seq<Emit>, senderAlive: bool, log: seq<Mark>)

  datatype Event =
    | Clone(k: Key)
    | Subscribe(k: Key, once: bool)
    | Take(k: Key)
    | Answer(k: Key, reply: Reply)
    | Abort(k: Key)                             // the callback panics, or the subscription is dropped
    | Disconnect(k: Key)                        // `recv` finds every sender of the queue gone
    | Disarm(k: Key)
    | Drop(k: Key)
    | LeaveSlots(k: Key)
    | Close(k: Key)
    | Discard(k: Key)
    | Snapshot(value: Value, keys: seq<Key>)
    | Load(e: nat, i: nat)
    | Send(e: nat, i: nat)
    | Reap(e: nat, i: nat)
    | Return(e: nat)
    | Abandon(e: nat)
    | DropSender

  const NEW_RECEIVER: Receiver := Receiver([], false, Idle)

  const INITIAL: State := State({0}, [NEW_RECEIVER], [], true, [])

  function Replies(tickets: seq<Ticket>): seq<Reply> {
    if tickets == [] then []
    else (if tickets[0].Replied? then [tickets[0].reply] else []) + Replies(tickets[1..])
  }

  ghost predicate Distinct(keys: seq<Key>) {
    forall i, j :: 0 <= i < j < |keys| ==> keys[i] != keys[j]
  }

  predicate Settled(t: Ticket) {
    !t.Fresh? && !t.Loaded? && !t.Sent?
  }

  ghost predicate Ticketed(s: State, e: nat, i: nat) {
    e < |s.emits| && i < |s.emits[e].tickets| && i < |s.emits[e].keys| && s.emits[e].keys[i] < |s.receivers|
  }

  /** The sender of a queue lives in the slot map, and in the snapshots of the emits under way. */
  ghost predicate HasSender(s: State, k: Key) {
    k in s.slots || exists e :: 0 <= e < |s.emits| && s.emits[e].course == Ongoing && k in s.emits[e].keys
  }

  ghost predicate EnabledAt(s: State, e: Event) {
    match e
    case Clone(k) => k < |s.receivers| && s.receivers[k].phase.Idle?
    case Subscribe(k, _) => k < |s.receivers| && s.receivers[k].phase.Idle?
    case Take(k) => k < |s.receivers| && s.receivers[k].phase.Waiting? && s.receivers[k].queue != []
    case Answer(k, _) => k < |s.receivers| && s.receivers[k].phase.Handling? && Ticketed(s, s.receivers[k].phase.message.emit, s.receivers[k].phase.message.at)
    case Abort(k) =>
      && k < |s.receivers|
      && (s.receivers[k].phase.Waiting? || s.receivers[k].phase.Handling?)
      && (s.receivers[k].phase.Handling? ==> Ticketed(s, s.receivers[k].phase.message.emit, s.receivers[k].phase.message.at))
    case Disconnect(k) => k < |s.receivers| && s.receivers[k].phase.Waiting? && s.receivers[k].queue == [] && !HasSender(s, k)
    case Disarm(k) => k < |s.receivers| && (s.receivers[k].phase.Settling? || s.receivers[k].phase.Stopping?)
    case Drop(k) => k < |s.receivers| && s.receivers[k].phase.Idle?
    case LeaveSlots(k) => k < |s.receivers| && s.receivers[k].phase.Dropping?
    case Close(k) => k < |s.receivers| && s.receivers[k].phase.Detached?
    case Discard(k) =>
      && k < |s.receivers| && s.receivers[k].phase.Closed? && s.receivers[k].queue != []
      && Ticketed(s, s.receivers[k].queue[0].emit, s.receivers[k].queue[0].at)
    case _ => false
  }

  ghost predicate EnabledEmit(s: State, e: Event) {
    match e
    case Snapshot(_, keys) => s.senderAlive && Distinct(keys) && forall k :: k in keys <==> k in s.slots
    case Load(e, i) =>
      && Ticketed(s, e, i) && s.emits[e].course.Ongoing? && s.emits[e].tickets[i].Fresh?
      && forall j :: 0 <= j < i ==> !s.emits[e].tickets[j].Fresh?
    case Send(e, i) =>
      && Ticketed(s, e, i) && s.emits[e].course.Ongoing? && s.emits[e].tickets[i].Loaded?
      && forall j :: 0 <= j < |s.emits[e].tickets| ==> !s.emits[e].tickets[j].Fresh?
    case Reap(e, i) =>
      && Ticketed(s, e, i) && s.emits[e].course.Ongoing? && s.emits[e].tickets[i].Finished?
      && forall j :: 0 <= j < |s.emits[e].tickets| ==> Settled(s.emits[e].tickets[j])
    case Return(e) =>
      && e < |s.emits| && s.emits[e].course.Ongoing?
      && forall j :: 0 <= j < |s.emits[e].tickets| ==> Settled(s.emits[e].tickets[j]) && !s.emits[e].tickets[j].Finished?
    case Abandon(e) => e < |s.emits| && s.emits[e].course.Ongoing?
    case DropSender => s.senderAlive && forall e :: 0 <= e < |s.emits| ==> !s.emits[e].course.Ongoing?
    case _ => false
  }

  ghost predicate Enabled(s: State, e: Event) {
    EnabledAt(s, e) || EnabledEmit(s, e)
  }

  function SetPhase(s: State, k: Key, phase: Phase, active: bool): State
    requires k < |s.receivers|
  {
    s.(receivers := s.receivers[k := s.receivers[k].(phase := phase, active := active)])
  }

  function SetTicket(s: State, e: nat, i: nat, t: Ticket): State
    requires e < |s.emits| && i < |s.emits[e].tickets|
  {
    s.(emits := s.emits[e := s.emits[e].(tickets := s.emits[e].tickets[i := t])])
  }

  function SetCourse(s: State, e: nat, course: Course): State
    requires e < |s.emits|
  {
    s.(emits := s.emits[e := s.emits[e].(course := course)])
  }

  function Record(s: State, mark: Mark): State {
    s.(log := s.log + [mark])
  }

  /** One step of a receiver. */
  ghost function NextAt(s: State, e: Event): State
    requires EnabledAt(s, e)
  {
    var r := s.receivers[e.k];
    match e
    case Clone(_) => s.(slots := s.slots + {|s.receivers|}, receivers := s.receivers + [NEW_RECEIVER])
    case Subscribe(k, once) => SetPhase(s, k, Waiting(once), true)
    case Take(k) =>
      var m := r.queue[0];
      Record(s.(receivers := s.receivers[k := r.(queue := r.queue[1..], phase := Handling(m, r.phase.once))]),
             Began(m.emit, m.at, m.value))
    case Answer(k, reply) =>
      var m := r.phase.message;
      if s.emits[m.emit].course.Abandoned? then SetTicket(SetPhase(s, k, Stopping, r.active), m.emit, m.at, Ignored)
      else
        Record(SetTicket(SetPhase(s, k, if r.phase.once then Settling else Waiting(false), r.active), m.emit, m.at, Replied(reply)),
               Answered(m.emit, m.at, reply))
    case Abort(k) =>
      var s' := SetPhase(s, k, Stopping, r.active);
      if r.phase.Handling? then SetTicket(s', r.phase.message.emit, r.phase.message.at, Ignored) else s'
    case Disconnect(k) => SetPhase(s, k, Stopping, r.active)
    case Disarm(k) => SetPhase(s, k, if r.phase.Settling? then Idle else Dropping, false)
    case Drop(k) => SetPhase(s, k, Dropping, r.active)
    case LeaveSlots(k) => SetPhase(s, k, Detached, r.active).(slots := s.slots - {k})
    case Close(k) => SetPhase(s, k, Closed, r.active)
    case Discard(k) =>
      SetTicket(s.(receivers := s.receivers[k := r.(queue := r.queue[1..])]), r.queue[0].emit, r.queue[0].at, Ignored)
  }

  /** One step of an emit, or of the sender. */
  ghost function NextEmit(s: State, e: Event): State
    requires EnabledEmit(s, e)
  {
    match e
    case Snapshot(value, keys) =>
      Record(s.(emits := s.emits + [Emit(value, keys, seq(|keys|, _ => Fresh), Ongoing)]), Opened(|s.emits|))
    case Load(e, i) => SetTicket(s, e, i, if s.receivers[s.emits[e].keys[i]].active then Loaded else Skipped)
    case Send(e, i) =>
      var k := s.emits[e].keys[i];
      var r := s.receivers[k];
      if r.phase.Closed? then SetTicket(s, e, i, Finished)
      else
        SetTicket(s.(receivers := s.receivers[k := r.(queue := r.queue + [Message(e, i, s.emits[e].value)])]), e, i, Sent)
    case Reap(e, i) => SetTicket(s, e, i, Removed).(slots := s.slots - {s.emits[e].keys[i]})
    case Return(e) => Record(SetCourse(s, e, Returned(Replies(s.emits[e].tickets))), Over(e))
    case Abandon(e) => SetCourse(s, e, Abandoned)
    case DropSender => s.(senderAlive := false)
  }

  ghost function Next(s: State, e: Event): State
    requires Enabled(s, e)
  {
    if EnabledAt(s, e) then NextAt(s, e) else NextEmit(s, e)
  }

  ghost predicate CanRun(s: State, events: seq<Event>)
    decreases |events|
  {
    events == [] || (Enabled(s, events[0]) && CanRun(Next(s, events[0]), events[1..]))
  }

  ghost function Exec(s: State, events: seq<Event>): State
    requires CanRun(s, events)
    decreases |events|
  {
    if events == [] then s else Exec(Next(s, events[0]), events[1..])
  }

  /* ----- what every step keeps ----- */

  /** The subscription is over for good. */
  predicate Gone(r: Receiver) {
    r.phase.Stopping? || r.phase.Dropping? || r.phase.Detached? || r.phase.Closed?
  }

  predicate Subscribed(r: Receiver) {
    r.phase.Waiting? || r.phase.Handling? || r.phase.Settling? || r.phase.Stopping?
  }

  predicate Listed(r: Receiver) {
    !r.phase.Detached? && !r.phase.Closed?
  }

  /** How often a receiver has a message, in its queue or in its callback. */
  ghost function Holds(r: Receiver, m: Message): nat {
    multiset(r.queue)[m] + InHand(r, m)
  }

  ghost function InHand(r: Receiver, m: Message): nat {
    if r.phase.Handling? && r.phase.message == m then 1 else 0
  }

  ghost function Times(s: State, mark: Mark): nat {
    multiset(s.log)[mark]
  }

  /** A key is in the map exactly if its receiver is listed, and its flag is raised exactly during a subscription. */
  ghost predicate SlotValid(s: State, k: Key) {
    && (k in s.slots <==> k < |s.receivers| && Listed(s.receivers[k]))
    && (k < |s.receivers| ==> (s.receivers[k].active <==> Subscribed(s.receivers[k])))
  }

  ghost predicate SlotsExact(s: State) {
    forall k :: SlotValid(s, k)
  }

  ghost predicate MessageValid(s: State, k: Key, m: Message) {
    Ticketed(s, m.emit, m.at) && s.emits[m.emit].keys[m.at] == k && s.emits[m.emit].value == m.value
  }

  ghost predicate Has(r: Receiver, m: Message) {
    m in r.queue || (r.phase.Handling? && r.phase.message == m)
  }

  ghost predicate MessagesValid(s: State) {
    forall k, m :: 0 <= k < |s.receivers| && Has(s.receivers[k], m) ==> MessageValid(s, k, m)
  }

  ghost predicate EmitValid(s: State, e: nat)
    requires e < |s.emits|
  {
    var emit := s.emits[e];
    && |emit.keys| == |emit.tickets| && Distinct(emit.keys)
    && (forall i :: 0 <= i < |emit.keys| ==> emit.keys[i] < |s.receivers|)
    && (emit.course.Returned? ==>
          && emit.course.result == Replies(emit.tickets)
          && forall i :: 0 <= i < |emit.tickets| ==> Settled(emit.tickets[i]) && !emit.tickets[i].Finished?)
  }

  /** A message waits at its receiver exactly while its ticket is sent, and only a receiver that is going drops one. */
  ghost predicate TicketHeld(s: State, e: nat, i: nat)
    requires Ticketed(s, e, i)
  {
    var emit := s.emits[e];
    var t, r := emit.tickets[i], s.receivers[emit.keys[i]];
    && Holds(r, Message(e, i, emit.value)) == (if t.Sent? then 1 else 0)
    && (t.Ignored? ==> Gone(r))
    && (t.Finished? || t.Removed? ==> r.phase.Closed?)
  }

  /** A callback begins at most once, and is answered once exactly if its ticket says so. */
  ghost predicate TicketLogged(s: State, e: nat, i: nat)
    requires Ticketed(s, e, i)
  {
    var emit := s.emits[e];
    var t, r := emit.tickets[i], s.receivers[emit.keys[i]];
    && (forall u :: Times(s, Answered(e, i, u)) == (if t == Replied(u) then 1 else 0))
    && (if t.Ignored? then Times(s, Began(e, i, emit.value)) <= 1
        else Times(s, Began(e, i, emit.value)) == (if t.Sent? then InHand(r, Message(e, i, emit.value)) else if t.Replied? then 1 else 0))
  }

  ghost predicate TicketValid(s: State, e: nat, i: nat)
    requires Ticketed(s, e, i)
  {
    TicketHeld(s, e, i) && TicketLogged(s, e, i)
  }

  ghost predicate TicketsValid(s: State) {
    forall e: nat, i: nat :: Ticketed(s, e, i) ==> TicketValid(s, e, i)
  }

  /** Every mark is of an emit that exists, and every callback was given that emit's value. */
  ghost predicate MarkValid(s: State, mark: Mark) {
    && mark.emit < |s.emits|
    && (mark.Over? ==> s.emits[mark.emit].course.Returned?)
    && (mark.Began? ==> Ticketed(s, mark.emit, mark.at) && mark.value == s.emits[mark.emit].value)
    && (mark.Answered? ==> Ticketed(s, mark.emit, mark.at))
  }

  /** All marks of an emit lie between its first and its last. */
  ghost predicate LogValid(s: State) {
    && (forall x :: 0 <= x < |s.log| ==> MarkValid(s, s.log[x]))
    && (forall x, y :: 0 <= x < y < |s.log| && s.log[x].emit == s.log[y].emit ==> !s.log[x].Over? && !s.log[y].Opened?)
  }

  ghost predicate Inv(s: State) {
    && SlotsExact(s)
    && MessagesValid(s)
    && (forall e :: 0 <= e < |s.emits| ==> EmitValid(s, e))
    && TicketsValid(s)
    && LogValid(s)
  }

  /* ----- what a step leaves alone ----- */

  /** The receiver that a step changes. */
  ghost function Whose(s: State, e: Event): Option<Key>
    requires Enabled(s, e)
  {
    if e.Clone? || e.Snapshot? || e.Load? || e.Reap? || e.Return? || e.Abandon? || e.DropSender? then None
    else if e.Send? then Some(s.emits[e.e].keys[e.i])
    else Some(e.k)
  }

  /** The message that a step brings to its end. */
  ghost function Spent(s: State, e: Event): Option<Message>
    requires Enabled(s, e)
  {
    if e.Answer? || (e.Abort? && s.receivers[e.k].phase.Handling?) then Some(s.receivers[e.k].phase.message)
    else if e.Discard? then Some(s.receivers[e.k].queue[0])
    else None
  }

  /** The ticket that a step changes. */
  ghost predicate Changes(s: State, e: Event, x: nat, i: nat)
    requires Enabled(s, e)
  {
    if Spent(s, e).Some? then Spent(s, e).value.emit == x && Spent(s, e).value.at == i
    else (e.Load? || e.Send? || e.Reap?) && e.e == x && e.i == i
  }

  lemma EmitFrame(s: State, e: Event, x: nat)
    requires Enabled(s, e) && x < |s.emits|
    ensures x < |Next(s, e).emits|
    ensures var old', new' := s.emits[x], Next(s, e).emits[x];
            && new'.keys == old'.keys && new'.value == old'.value && |new'.tickets| == |old'.tickets|
            && new'.course == (if e == Return(x) then Returned(Replies(old'.tickets)) else if e == Abandon(x) then Abandoned else old'.course)
  {
    if EnabledAt(s, e) {
      hide NextEmit;
    } else {
      hide NextAt;
    }
  }

  lemma TicketFrame(s: State, e: Event, x: nat, i: nat)
    requires Enabled(s, e) && x < |s.emits| && i < |s.emits[x].tickets| && !Changes(s, e, x, i)
    ensures x < |Next(s, e).emits| && i < |Next(s, e).emits[x].tickets| && Next(s, e).emits[x].tickets[i] == s.emits[x].tickets[i]
  {
    EmitFrame(s, e, x);
    if EnabledAt(s, e) {
      hide NextEmit, EnabledEmit;
    } else {
      hide NextAt, EnabledAt;
    }
  }

  lemma ReceiverFrame(s: State, e: Event, k: Key)
    requires Enabled(s, e) && k < |s.receivers|
    ensures k < |Next(s, e).receivers|
    ensures Whose(s, e) != Some(k) ==> Next(s, e).receivers[k] == s.receivers[k]
    ensures Gone(s.receivers[k]) ==> Gone(Next(s, e).receivers[k])
    ensures s.receivers[k].phase.Closed? ==> Next(s, e).receivers[k].phase.Closed?
  {
    if EnabledAt(s, e) {
      hide NextEmit;
    } else {
      hide NextAt;
    }
  }

  /** What a step adds to the log. */
  ghost function Marks(s: State, e: Event): seq<Mark>
    requires Enabled(s, e)
  {
    match e
    case Take(k) => var m := s.receivers[k].queue[0]; [Began(m.emit, m.at, m.value)]
    case Answer(k, reply) =>
      var m := s.receivers[k].phase.message;
      if s.emits[m.emit].course.Abandoned? then [] else [Answered(m.emit, m.at, reply)]
    case Snapshot(_, _) => [Opened(|s.emits|)]
    case Return(e) => [Over(e)]
    case _ => []
  }

  lemma LogFrame(s: State, e: Event)
    requires Enabled(s, e)
    ensures Next(s, e).log == s.log + Marks(s, e)
    ensures |Next(s, e).emits| == |s.emits| + (if e.Snapshot? then 1 else 0)
    ensures |s.receivers| <= |Next(s, e).receivers|
  {
    if EnabledAt(s, e) {
      hide NextEmit;
    } else {
      hide NextAt;
    }
  }

  /** A step on a ticket finds it as it should be: a message at its end belongs to an emit still waiting for it. */
  lemma ChangedTicket(s: State, e: Event, x: nat, i: nat)
    requires Inv(s) && Enabled(s, e) && Changes(s, e, x, i)
    ensures Ticketed(s, x, i) && !s.emits[x].course.Returned?
    ensures Spent(s, e).Some? ==> s.emits[x].tickets[i].Sent? && s.emits[x].keys[i] == e.k && Spent(s, e).value.value == s.emits[x].value
  {
    if Spent(s, e).Some? {
      var m := Spent(s, e).value;
      assert Has(s.receivers[e.k], m) && MessageValid(s, e.k, m);
      assert TicketValid(s, x, i) && Holds(s.receivers[e.k], m) > 0;
    }
    assert EmitValid(s, x);
  }

  /** What `emit` removes after a failed send has already left the map: the removal never evicts anyone. */
  lemma StaleRemovalIsNoOp(s: State, e: nat, i: nat)
    requires Inv(s) && EnabledEmit(s, Reap(e, i))
    ensures Next(s, Reap(e, i)).slots == s.slots
  {
    assert TicketValid(s, e, i) && SlotValid(s, s.emits[e].keys[i]);
  }

  lemma SlotKeptAt(s: State, e: Event, k: Key)
    requires EnabledAt(s, e) && SlotValid(s, k) && SlotValid(s, |s.receivers|)
    ensures SlotValid(NextAt(s, e), k)
  {
    var s' := NextAt(s, e);
    if e.Clone? {
      assert k < |s.receivers| ==> s'.receivers[k] == s.receivers[k];
    } else if k == e.k {
      assert s'.slots == if e.LeaveSlots? then s.slots - {k} else s.slots;
    } else {
      assert s'.receivers == s.receivers[e.k := s'.receivers[e.k]];
      assert k in s'.slots <==> k in s.slots;
    }
  }

  lemma SlotKeptEmit(s: State, e: Event, k: Key)
    requires EnabledEmit(s, e) && SlotValid(s, k)
    requires e.Reap? ==> NextEmit(s, e).slots == s.slots
    ensures SlotValid(NextEmit(s, e), k)
  {
  }

  lemma SlotKept(s: State, e: Event, k: Key)
    requires Inv(s) && Enabled(s, e)
    ensures SlotValid(Next(s, e), k)
  {
    hide NextAt, NextEmit, EnabledAt, EnabledEmit;
    if EnabledAt(s, e) {
      SlotKeptAt(s, e, k);
    } else {
      if e.Reap? {
        StaleRemovalIsNoOp(s, e.e, e.i);
      }
      SlotKeptEmit(s, e, k);
    }
  }

  lemma SnapshotValid(s: State, e: Event)
    requires SlotsExact(s) && EnabledEmit(s, e) && e.Snapshot?
    ensures EmitValid(NextEmit(s, e), |s.emits|)
  {
    var s' := NextEmit(s, e);
    var emit := s'.emits[|s.emits|];
    assert emit.keys == e.keys && |emit.tickets| == |e.keys|;
    forall i | 0 <= i < |e.keys| ensures e.keys[i] < |s.receivers| {
      assert e.keys[i] in e.keys && SlotValid(s, e.keys[i]);
    }
  }

  ghost predicate Sends(s: State, e: Event, k: Key, m: Message)
    requires Enabled(s, e)
  {
    e.Send? && k == s.emits[e.e].keys[e.i] && !s.receivers[k].phase.Closed? && m == Message(e.e, e.i, s.emits[e.e].value)
  }

  ghost predicate Takes(s: State, e: Event, k: Key, m: Message)
    requires Enabled(s, e)
  {
    e.Take? && e.k == k && s.receivers[k].queue[0] == m
  }

  ghost function Leaving(s: State, e: Event, k: Key, m: Message): nat
    requires Enabled(s, e)
  {
    if Spent(s, e) == Some(m) && e.k == k then 1 else 0
  }

  lemma ReceiverStep(s: State, e: Event)
    requires EnabledAt(s, e) && !e.Clone?
    ensures var s', q := NextAt(s, e), s.receivers[e.k].queue;
            && s'.receivers == s.receivers[e.k := s'.receivers[e.k]]
            && s'.receivers[e.k].queue == (if e.Take? || e.Discard? then q[1..] else q)
            && (s'.receivers[e.k].phase.Handling? <==> e.Take?)
            && (e.Take? ==> s'.receivers[e.k].phase.message == q[0])
  {
  }

  lemma Popped(q: seq<Message>, m: Message)
    requires q != []
    ensures multiset(q)[m] == multiset(q[1..])[m] + (if q[0] == m then 1 else 0)
  {
    assert q == [q[0]] + q[1..];
  }

  /** A receiver that takes its oldest message, drops it, or is done with the one in its callback. */
  lemma HoldsOf(r: Receiver, r': Receiver, m: Message, pops: bool, takes: bool)
    requires (pops ==> r.queue != [] && !r.phase.Handling?) && r'.queue == (if pops then r.queue[1..] else r.queue)
    requires (takes ==> pops) && (r'.phase.Handling? <==> takes) && (takes ==> r'.phase.message == r.queue[0])
    ensures Holds(r', m) + InHand(r, m) + (if pops && !takes && r.queue[0] == m then 1 else 0) == Holds(r, m)
    ensures InHand(r', m) == if takes && r.queue[0] == m then 1 else 0
  {
    if pops {
      Popped(r.queue, m);
    }
  }

  lemma HoldsStepAt(s: State, e: Event, k: Key, m: Message)
    requires EnabledAt(s, e) && k < |s.receivers|
    ensures k < |NextAt(s, e).receivers| && !Sends(s, e, k, m)
    ensures Holds(NextAt(s, e).receivers[k], m) + Leaving(s, e, k, m) == Holds(s.receivers[k], m)
    ensures InHand(NextAt(s, e).receivers[k], m)
            == (if Takes(s, e, k, m) then 1 else if Leaving(s, e, k, m) == 1 then 0 else InHand(s.receivers[k], m))
  {
    var r := s.receivers[k];
    if !e.Clone? {
      ReceiverStep(s, e);
      if k == e.k {
        HoldsOf(r, NextAt(s, e).receivers[k], m, e.Take? || e.Discard?, e.Take?);
      }
      hide NextAt, EnabledEmit, Holds;
    }
  }

  lemma HoldsStepEmit(s: State, e: Event, k: Key, m: Message)
    requires EnabledEmit(s, e) && k < |s.receivers|
    ensures k < |NextEmit(s, e).receivers| && !Takes(s, e, k, m) && Leaving(s, e, k, m) == 0
    ensures Holds(NextEmit(s, e).receivers[k], m) == Holds(s.receivers[k], m) + (if Sends(s, e, k, m) then 1 else 0)
    ensures InHand(NextEmit(s, e).receivers[k], m) == InHand(s.receivers[k], m)
  {
    hide EnabledAt;
  }

  /** A message enters a receiver by a send and leaves it when its callback ends or it is discarded. */
  lemma HoldsStep(s: State, e: Event, k: Key, m: Message)
    requires Enabled(s, e) && k < |s.receivers|
    ensures k < |Next(s, e).receivers|
    ensures var r, r' := s.receivers[k], Next(s, e).receivers[k];
            && Holds(r', m) + Leaving(s, e, k, m) == Holds(r, m) + (if Sends(s, e, k, m) then 1 else 0)
            && InHand(r', m) == (if Takes(s, e, k, m) then 1 else if Leaving(s, e, k, m) == 1 then 0 else InHand(r, m))
  {
    hide NextAt, NextEmit, EnabledAt, EnabledEmit, Holds, InHand;
    if EnabledAt(s, e) {
      HoldsStepAt(s, e, k, m);
    } else {
      HoldsStepEmit(s, e, k, m);
    }
  }

  lemma ReturnedStays(s: State, e: Event, x: nat, i: nat)
    requires Inv(s) && Enabled(s, e) && x < |s.emits| && i < |s.emits[x].keys|
    ensures i < |s.emits[x].tickets| && s.emits[x].keys[i] < |s.receivers|
    ensures x < |Next(s, e).emits| && |Next(s, e).emits[x].tickets| == |s.emits[x].tickets|
    ensures s.emits[x].course.Returned? || e == Return(x) ==> Next(s, e).emits[x].tickets[i] == s.emits[x].tickets[i]
    ensures |s.receivers| <= |Next(s, e).receivers|
  {
    assert EmitValid(s, x);
    EmitFrame(s, e, x);
    LogFrame(s, e);
    if Changes(s, e, x, i) {
      ChangedTicket(s, e, x, i);
    } else {
      TicketFrame(s, e, x, i);
    }
  }

  lemma EmitKept(s: State, e: Event, x: nat)
    requires Inv(s) && Enabled(s, e) && x < |Next(s, e).emits|
    ensures EmitValid(Next(s, e), x)
  {
    LogFrame(s, e);
    if x < |s.emits| {
      EmitFrame(s, e, x);
      assert EmitValid(s, x);
      forall i | 0 <= i < |s.emits[x].keys|
        ensures s.emits[x].course.Returned? || e == Return(x) ==> Next(s, e).emits[x].tickets[i] == s.emits[x].tickets[i]
        ensures s.emits[x].keys[i] < |Next(s, e).receivers|
      {
        ReturnedStays(s, e, x, i);
      }
      hide Inv, Next, NextAt, NextEmit, EnabledAt, Replies;
      assert s.emits[x].course.Returned? || e == Return(x) ==> Next(s, e).emits[x].tickets == s.emits[x].tickets;
    } else {
      SnapshotValid(s, e);
    }
  }

  /** A receiver only ever comes to hold a message that an emit sends it. */
  lemma MessageArrives(s: State, e: Event, k: Key, m: Message)
    requires Enabled(s, e) && k < |Next(s, e).receivers| && Has(Next(s, e).receivers[k], m)
    ensures k < |s.receivers| && (Has(s.receivers[k], m) || Sends(s, e, k, m))
  {
    if k < |s.receivers| {
      HoldsStep(s, e, k, m);
      hide Next, NextAt, NextEmit, EnabledAt, EnabledEmit;
      assert Holds(Next(s, e).receivers[k], m) > 0;
    } else {
      hide NextEmit;
    }
  }

  lemma MessageKept(s: State, e: Event, k: Key, m: Message)
    requires Inv(s) && Enabled(s, e) && k < |Next(s, e).receivers| && Has(Next(s, e).receivers[k], m)
    ensures MessageValid(Next(s, e), k, m)
  {
    MessageArrives(s, e, k, m);
    hide Next, NextAt, NextEmit, EnabledAt;
    assert MessageValid(s, k, m);
    EmitFrame(s, e, m.emit);
    ReceiverFrame(s, e, k);
  }

  /** A new emit has no marks and no messages. */
  lemma TicketNew(s: State, e: Event, i: nat)
    requires Inv(s) && Enabled(s, e) && e.Snapshot? && Ticketed(Next(s, e), |s.emits|, i)
    ensures TicketValid(Next(s, e), |s.emits|, i)
  {
    hide NextAt;
    assert !EnabledAt(s, e);
    var x, s' := |s.emits|, Next(s, e);
    assert |s'.emits[x].keys| == |e.keys| && s'.receivers == s.receivers;
    var k, m := e.keys[i], Message(x, i, e.value);
    assert !MessageValid(s, k, m);
    LogFrame(s, e);
    forall mark: Mark | mark.emit == x && !mark.Opened? ensures Times(s', mark) == 0 {
      forall y | 0 <= y < |s.log| ensures s.log[y] != mark {
        assert MarkValid(s, s.log[y]);
      }
    }
  }

  lemma TimesStep(s: State, e: Event, mark: Mark)
    requires Enabled(s, e)
    ensures Times(Next(s, e), mark) == Times(s, mark) + (if Marks(s, e) == [mark] then 1 else 0)
  {
    LogFrame(s, e);
  }

  lemma BeginningStep(s: State, e: Event, x: nat, i: nat)
    requires Inv(s) && Enabled(s, e) && Ticketed(s, x, i)
    ensures var k, v := s.emits[x].keys[i], s.emits[x].value;
            Times(Next(s, e), Began(x, i, v)) == Times(s, Began(x, i, v)) + (if Takes(s, e, k, Message(x, i, v)) then 1 else 0)
  {
    TimesStep(s, e, Began(x, i, s.emits[x].value));
    if e.Take? {
      assert Has(s.receivers[e.k], s.receivers[e.k].queue[0]) && MessageValid(s, e.k, s.receivers[e.k].queue[0]);
    }
  }

  lemma HeldUnchanged(s: State, e: Event, x: nat, i: nat)
    requires Inv(s) && Enabled(s, e) && Ticketed(s, x, i) && !Changes(s, e, x, i)
    ensures Ticketed(Next(s, e), x, i) && TicketHeld(Next(s, e), x, i)
  {
    var k := s.emits[x].keys[i];
    EmitFrame(s, e, x);
    TicketFrame(s, e, x, i);
    ReceiverFrame(s, e, k);
    HoldsStep(s, e, k, Message(x, i, s.emits[x].value));
    assert TicketValid(s, x, i);
    hide Inv, Next, NextAt, NextEmit, EnabledAt, EnabledEmit, Holds, TicketLogged;
  }

  lemma LoggedUnchanged(s: State, e: Event, x: nat, i: nat)
    requires Inv(s) && Enabled(s, e) && Ticketed(s, x, i) && !Changes(s, e, x, i)
    ensures Ticketed(Next(s, e), x, i) && TicketLogged(Next(s, e), x, i)
  {
    var k := s.emits[x].keys[i];
    EmitFrame(s, e, x);
    TicketFrame(s, e, x, i);
    HoldsStep(s, e, k, Message(x, i, s.emits[x].value));
    BeginningStep(s, e, x, i);
    assert TicketValid(s, x, i);
    hide Inv, Next, NextAt, NextEmit, EnabledAt, EnabledEmit, Times, Holds, InHand, TicketHeld;
    forall u ensures Times(Next(s, e), Answered(x, i, u)) == Times(s, Answered(x, i, u)) {
      TimesStep(s, e, Answered(x, i, u));
    }
  }

  /** A step elsewhere leaves a ticket as it is, but for the start of its callback. */
  lemma TicketUnchanged(s: State, e: Event, x: nat, i: nat)
    requires Inv(s) && Enabled(s, e) && Ticketed(s, x, i) && !Changes(s, e, x, i)
    ensures Ticketed(Next(s, e), x, i) && TicketValid(Next(s, e), x, i)
  {
    HeldUnchanged(s, e, x, i);
    LoggedUnchanged(s, e, x, i);
    hide Inv, Next, Enabled, TicketHeld, TicketLogged;
  }

  /** How a step changes a ticket. */
  ghost predicate Moves(s: State, e: Event, t: Ticket, t': Ticket, x: nat, k: Key)
    requires x < |s.emits| && k < |s.receivers|
  {
    match e
    case Load(_, _) => t.Fresh? && t' == (if s.receivers[k].active then Loaded else Skipped)
    case Send(_, _) => t.Loaded? && t' == (if s.receivers[k].phase.Closed? then Finished else Sent)
    case Reap(_, _) => t.Finished? && t'.Removed?
    case Answer(_, reply) => t.Sent? && t' == (if s.emits[x].course.Abandoned? then Ignored else Replied(reply))
    case _ => t.Sent? && t'.Ignored?
  }

  lemma TicketStep(s: State, e: Event, x: nat, i: nat)
    requires Inv(s) && Enabled(s, e) && Changes(s, e, x, i)
    ensures Ticketed(s, x, i) && Ticketed(Next(s, e), x, i)
    ensures Moves(s, e, s.emits[x].tickets[i], Next(s, e).emits[x].tickets[i], x, s.emits[x].keys[i])
    ensures Next(s, e).emits[x].tickets[i].Ignored? ==> Gone(Next(s, e).receivers[s.emits[x].keys[i]])
  {
    ChangedTicket(s, e, x, i);
    EmitFrame(s, e, x);
    ReceiverFrame(s, e, s.emits[x].keys[i]);
  }

  lemma HeldChanged(s: State, e: Event, x: nat, i: nat)
    requires Inv(s) && Enabled(s, e) && Changes(s, e, x, i)
    ensures Ticketed(Next(s, e), x, i) && TicketHeld(Next(s, e), x, i)
  {
    TicketStep(s, e, x, i);
    ChangedTicket(s, e, x, i);
    var k, v := s.emits[x].keys[i], s.emits[x].value;
    EmitFrame(s, e, x);
    ReceiverFrame(s, e, k);
    HoldsStep(s, e, k, Message(x, i, v));
    assert TicketValid(s, x, i);
    hide Inv, Next, NextAt, NextEmit, EnabledAt, EnabledEmit, Holds, TicketLogged;
  }

  lemma AnswerLogged(s: State, e: Event, x: nat, i: nat, u: Reply)
    requires Inv(s) && Enabled(s, e) && Changes(s, e, x, i)
    ensures Ticketed(Next(s, e), x, i)
    ensures Times(Next(s, e), Answered(x, i, u)) == (if Next(s, e).emits[x].tickets[i] == Replied(u) then 1 else 0)
  {
    TicketStep(s, e, x, i);
    ChangedTicket(s, e, x, i);
    assert TicketValid(s, x, i);
    TimesStep(s, e, Answered(x, i, u));
    hide Inv, Next, NextAt, NextEmit, EnabledAt, EnabledEmit, Times, TicketHeld;
  }

  lemma BeginningLogged(s: State, e: Event, x: nat, i: nat)
    requires Inv(s) && Enabled(s, e) && Changes(s, e, x, i)
    ensures Ticketed(Next(s, e), x, i)
    ensures var emit := Next(s, e).emits[x];
            var t, k, n := emit.tickets[i], emit.keys[i], Times(Next(s, e), Began(x, i, emit.value));
            if t.Ignored? then n <= 1
            else n == (if t.Sent? then InHand(Next(s, e).receivers[k], Message(x, i, emit.value)) else if t.Replied? then 1 else 0)
  {
    TicketStep(s, e, x, i);
    ChangedTicket(s, e, x, i);
    EmitFrame(s, e, x);
    var k, v := s.emits[x].keys[i], s.emits[x].value;
    HoldsStep(s, e, k, Message(x, i, v));
    BeginningStep(s, e, x, i);
    assert TicketValid(s, x, i);
    hide Inv, Next, NextAt, NextEmit, EnabledAt, EnabledEmit, Times;
  }

  lemma LoggedChanged(s: State, e: Event, x: nat, i: nat)
    requires Inv(s) && Enabled(s, e) && Changes(s, e, x, i)
    ensures Ticketed(Next(s, e), x, i) && TicketLogged(Next(s, e), x, i)
  {
    BeginningLogged(s, e, x, i);
    hide Inv, Next, Enabled, Times, InHand;
    forall u ensures Times(Next(s, e), Answered(x, i, u)) == (if Next(s, e).emits[x].tickets[i] == Replied(u) then 1 else 0) {
      AnswerLogged(s, e, x, i, u);
    }
  }

  lemma MarkKept(s: State, e: Event, mark: Mark)
    requires Inv(s) && Enabled(s, e) && mark in s.log
    ensures MarkValid(s, mark) && MarkValid(Next(s, e), mark)
  {
    var y :| 0 <= y < |s.log| && s.log[y] == mark;
    assert MarkValid(s, s.log[y]);
    EmitFrame(s, e, mark.emit);
    LogFrame(s, e);
    hide Inv, Next, NextAt, NextEmit;
  }

  /** A step's mark is of an emit that is not over. */
  lemma MarkNew(s: State, e: Event, mark: Mark)
    requires Inv(s) && Enabled(s, e) && Marks(s, e) == [mark]
    ensures MarkValid(Next(s, e), mark)
    ensures mark.emit < |s.emits| ==> !s.emits[mark.emit].course.Returned?
    ensures mark.Opened? <==> mark.emit == |s.emits|
  {
    LogFrame(s, e);
    if e.Take? {
      var m := s.receivers[e.k].queue[0];
      assert Has(s.receivers[e.k], m) && MessageValid(s, e.k, m);
      assert TicketValid(s, m.emit, m.at) && Holds(s.receivers[e.k], m) > 0;
      assert EmitValid(s, m.emit);
    } else if e.Answer? {
      var m := s.receivers[e.k].phase.message;
      ChangedTicket(s, e, m.emit, m.at);
    }
    if mark.emit < |s.emits| {
      EmitFrame(s, e, mark.emit);
    }
    hide Inv, Next, NextAt, NextEmit;
  }

  lemma LogKept(s: State, e: Event)
    requires Inv(s) && Enabled(s, e)
    ensures LogValid(Next(s, e))
  {
    var s' := Next(s, e);
    LogFrame(s, e);
    forall y | 0 <= y < |s'.log| ensures MarkValid(s', s'.log[y]) {
      if y < |s.log| {
        MarkKept(s, e, s.log[y]);
      } else {
        MarkNew(s, e, s'.log[y]);
      }
    }
    forall x, y | 0 <= x < y < |s'.log| && s'.log[x].emit == s'.log[y].emit
      ensures !s'.log[x].Over? && !s'.log[y].Opened?
    {
      if y == |s.log| {
        MarkKept(s, e, s.log[x]);
        MarkNew(s, e, s'.log[y]);
      }
    }
  }

  lemma InvKept(s: State, e: Event)
    requires Inv(s) && Enabled(s, e)
    ensures Inv(Next(s, e))
  {
    var s' := Next(s, e);
    forall k ensures SlotValid(s', k) {
      SlotKept(s, e, k);
    }
    forall k, m | 0 <= k < |s'.receivers| && Has(s'.receivers[k], m) ensures MessageValid(s', k, m) {
      MessageKept(s, e, k, m);
    }
    forall x | 0 <= x < |s'.emits| ensures EmitValid(s', x) {
      EmitKept(s, e, x);
    }
    forall x: nat, i: nat | Ticketed(s', x, i) ensures TicketValid(s', x, i) {
      TicketKept(s, e, x, i);
    }
    LogKept(s, e);
  }

  lemma TicketKept(s: State, e: Event, x: nat, i: nat)
    requires Inv(s) && Enabled(s, e) && Ticketed(Next(s, e), x, i)
    ensures TicketValid(Next(s, e), x, i)
  {
    LogFrame(s, e);
    if x == |s.emits| {
      TicketNew(s, e, i);
    } else {
      EmitFrame(s, e, x);
      assert EmitValid(s, x);
      if Changes(s, e, x, i) {
        HeldChanged(s, e, x, i);
        LoggedChanged(s, e, x, i);
      } else {
        TicketUnchanged(s, e, x, i);
      }
    }
  }

  lemma {:induction false} InvHolds(s: State, events: seq<Event>)
    requires Inv(s) && CanRun(s, events)
    ensures Inv(Exec(s, events))
    decreases |events|
  {
    if events != [] {
      InvKept(s, events[0]);
      InvHolds(Next(s, events[0]), events[1..]);
    }
  }

  lemma InitialInv()
    ensures Inv(INITIAL)
  {
  }

  /* ----- the barrier ----- */

  /** What an emit that has returned can say of one entry of its snapshot. */
  ghost predicate Served(s: State, e: nat, i: nat)
    requires Ticketed(s, e, i)
  {
    var t, r, v := s.emits[e].tickets[i], s.receivers[s.emits[e].keys[i]], s.emits[e].value;
    && (forall m: Message :: m.emit == e && m.at == i ==> !Has(r, m))
    && (t.Replied? || t.Skipped? || Gone(r))
    && Times(s, Began(e, i, v)) <= 1
    && (t.Replied? ==> Times(s, Began(e, i, v)) == 1)
    && (t.Skipped? ==> Times(s, Began(e, i, v)) == 0)
    && (forall u :: Times(s, Answered(e, i, u)) == (if t == Replied(u) then 1 else 0))
  }

  /** How many of the first `n` tickets were answered. */
  ghost function Rank(tickets: seq<Ticket>, n: nat): nat
    requires n <= |tickets|
  {
    if n == 0 then 0 else Rank(tickets, n - 1) + if tickets[n - 1].Replied? then 1 else 0
  }

  /** The replies are there in the order of the tickets, and nothing else is. */
  ghost predicate InSlotOrder(tickets: seq<Ticket>, result: seq<Reply>) {
    && |result| == Rank(tickets, |tickets|)
    && forall i :: 0 <= i < |tickets| && tickets[i].Replied? ==> Rank(tickets, i) < |result| && result[Rank(tickets, i)] == tickets[i].reply
  }

  lemma {:induction false} RankOfTail(tickets: seq<Ticket>, n: nat)
    requires 0 < n <= |tickets|
    ensures Rank(tickets, n) == (if tickets[0].Replied? then 1 else 0) + Rank(tickets[1..], n - 1)
    decreases n
  {
    if n > 1 {
      RankOfTail(tickets, n - 1);
      assert tickets[n - 1] == tickets[1..][n - 2];
    }
  }

  lemma {:induction false} RepliesInSlotOrder(tickets: seq<Ticket>)
    ensures InSlotOrder(tickets, Replies(tickets))
    decreases |tickets|
  {
    if tickets != [] {
      var rest := tickets[1..];
      RepliesInSlotOrder(rest);
      RankOfTail(tickets, |tickets|);
      forall i | 0 <= i < |tickets| && tickets[i].Replied?
        ensures Rank(tickets, i) < |Replies(tickets)| && Replies(tickets)[Rank(tickets, i)] == tickets[i].reply
      {
        if i > 0 {
          RankOfTail(tickets, i);
          assert rest[i - 1] == tickets[i];
        }
      }
    }
  }

  lemma HeldIsSent(s: State, k: Key, m: Message)
    requires Inv(s) && k < |s.receivers|
    ensures Has(s.receivers[k], m) ==> MessageValid(s, k, m) && s.emits[m.emit].tickets[m.at].Sent?
  {
    if Has(s.receivers[k], m) {
      assert MessageValid(s, k, m) && TicketValid(s, m.emit, m.at);
      assert Holds(s.receivers[k], m) > 0;
    }
  }

  /**
   When an emit returns, every receiver whose flag it read as true has finished its callback on the
   value exactly once, or its subscription is over; nobody has the value still to come; and the
   result is the replies in slot order.
   */
  lemma EmitIsABarrier(events: seq<Event>, e: nat)
    requires CanRun(INITIAL, events)
    ensures var s := Exec(INITIAL, events);
            e < |s.emits| && s.emits[e].course.Returned? ==>
              && InSlotOrder(s.emits[e].tickets, s.emits[e].course.result)
              && forall i :: 0 <= i < |s.emits[e].keys| ==> Ticketed(s, e, i) && Served(s, e, i)
  {
    InitialInv();
    InvHolds(INITIAL, events);
    var s := Exec(INITIAL, events);
    if e < |s.emits| && s.emits[e].course.Returned? {
      assert EmitValid(s, e);
      RepliesInSlotOrder(s.emits[e].tickets);
      forall i | 0 <= i < |s.emits[e].keys| ensures Ticketed(s, e, i) && Served(s, e, i) {
        assert TicketValid(s, e, i);
        var k := s.emits[e].keys[i];
        forall m: Message | m.emit == e && m.at == i ensures !Has(s.receivers[k], m) {
          HeldIsSent(s, k, m);
        }
      }
    }
  }

  /** Inside `subscribe`, which only ever ends with the receiver. */
  predicate Looping(r: Receiver) {
    (r.phase.Waiting? || r.phase.Handling?) && !r.phase.once
  }

  ghost predicate LoopsOrGone(s: State, e: nat, i: nat) {
    && Ticketed(s, e, i)
    && (Looping(s.receivers[s.emits[e].keys[i]]) || Gone(s.receivers[s.emits[e].keys[i]]))
    && (s.emits[e].tickets[i].Skipped? ==> Gone(s.receivers[s.emits[e].keys[i]]))
  }

  lemma LoopingKept(s: State, e: Event, k: Key)
    requires Enabled(s, e) && k < |s.receivers| && Looping(s.receivers[k])
    ensures k < |Next(s, e).receivers| && (Looping(Next(s, e).receivers[k]) || Gone(Next(s, e).receivers[k]))
  {
    ReceiverFrame(s, e, k);
    if EnabledAt(s, e) {
      hide NextEmit, EnabledEmit;
    } else {
      hide NextAt, EnabledAt;
    }
  }

  lemma LoopsOrGoneKept(s: State, e: Event, x: nat, i: nat)
    requires Inv(s) && Enabled(s, e) && LoopsOrGone(s, x, i)
    ensures LoopsOrGone(Next(s, e), x, i)
  {
    var k := s.emits[x].keys[i];
    EmitFrame(s, e, x);
    ReceiverFrame(s, e, k);
    assert SlotValid(s, k);
    if Looping(s.receivers[k]) {
      LoopingKept(s, e, k);
    }
    if Changes(s, e, x, i) {
      TicketStep(s, e, x, i);
    } else {
      TicketFrame(s, e, x, i);
    }
    hide Inv, Next, NextAt, NextEmit, EnabledAt, EnabledEmit;
  }

  lemma {:induction false} LoopsOrGoneHolds(s: State, events: seq<Event>, x: nat, i: nat)
    requires Inv(s) && CanRun(s, events) && LoopsOrGone(s, x, i)
    ensures LoopsOrGone(Exec(s, events), x, i)
    ensures Exec(s, events).emits[x].keys == s.emits[x].keys && Exec(s, events).emits[x].value == s.emits[x].value
    decreases |events|
  {
    if events != [] {
      InvKept(s, events[0]);
      LoopsOrGoneKept(s, events[0], x, i);
      EmitFrame(s, events[0], x);
      LoopsOrGoneHolds(Next(s, events[0]), events[1..], x, i);
    }
  }

  /** Exactly one callback of receiver `k` on the value of `e`, answered once, and its answer in the result. */
  ghost predicate HandledOnce(s: State, e: nat, k: Key, value: Value) {
    exists i: nat, u: Reply ::
      && Ticketed(s, e, i) && s.emits[e].keys[i] == k && s.emits[e].tickets[i] == Replied(u)
      && Times(s, Began(e, i, value)) == 1 && Times(s, Answered(e, i, u)) == 1
      && s.emits[e].course.Returned? && u in s.emits[e].course.result
  }

  lemma {:induction false} ReplyIsInResult(tickets: seq<Ticket>, i: nat)
    requires i < |tickets| && tickets[i].Replied?
    ensures tickets[i].reply in Replies(tickets)
    decreases |tickets|
  {
    if i > 0 {
      ReplyIsInResult(tickets[1..], i - 1);
    }
  }

  /**
   A receiver that was subscribed when the emit took its snapshot, and still is when the emit returns,
   has handled the value exactly once in between.
   */
  lemma SubscribersAreServed(before: seq<Event>, value: Value, keys: seq<Key>, after: seq<Event>, k: Key)
    requires CanRun(INITIAL, before)
    requires var s := Exec(INITIAL, before);
             && Enabled(s, Snapshot(value, keys)) && CanRun(Next(s, Snapshot(value, keys)), after)
             && k < |s.receivers| && Looping(s.receivers[k])
    ensures var s := Exec(INITIAL, before);
            var e, s' := |s.emits|, Exec(Next(s, Snapshot(value, keys)), after);
            && e < |s'.emits| && k < |s'.receivers|
            && (s'.emits[e].course.Returned? && !Gone(s'.receivers[k]) ==> HandledOnce(s', e, k, value))
  {
    var s := Exec(INITIAL, before);
    InitialInv();
    InvHolds(INITIAL, before);
    var open := Snapshot(value, keys);
    var s1, e := Next(s, open), |s.emits|;
    assert SlotValid(s, k);
    var i :| 0 <= i < |keys| && keys[i] == k;
    InvKept(s, open);
    assert s1.emits[e].keys == keys && s1.emits[e].value == value && s1.receivers == s.receivers;
    assert LoopsOrGone(s1, e, i);
    LoopsOrGoneHolds(s1, after, e, i);
    InvHolds(s1, after);
    var s' := Exec(s1, after);
    if s'.emits[e].course.Returned? && !Gone(s'.receivers[k]) {
      assert EmitValid(s', e) && TicketValid(s', e, i);
      ReplyIsInResult(s'.emits[e].tickets, i);
      assert s'.emits[e].tickets[i] == Replied(s'.emits[e].tickets[i].reply);
    }
  }

  /** One emit after another: every callback of the first precedes every callback of the second. */
  lemma SequentialEmitsDoNotOverlap(events: seq<Event>, first: nat, second: nat, x: nat, y: nat)
    requires CanRun(INITIAL, events)
    requires var log := Exec(INITIAL, events).log; x < y < |log| && log[x] == Over(first) && log[y] == Opened(second)
    ensures var log := Exec(INITIAL, events).log;
            forall a, b :: 0 <= a < |log| && 0 <= b < |log| && log[a].emit == first && log[b].emit == second ==> a <= x < y <= b
  {
    InitialInv();
    InvHolds(INITIAL, events);
  }

  /* ----- the slot map ----- */

  /** Whatever is dropped, a receiver that waits keeps a sender of its own queue, so `recv` never reports an end. */
  lemma SubscriptionOutlivesSender(events: seq<Event>, k: Key)
    requires CanRun(INITIAL, events)
    ensures var s := Exec(INITIAL, events);
            && SlotsExact(s)
            && (k < |s.receivers| && s.receivers[k].phase.Waiting? ==> HasSender(s, k))
            && !Enabled(s, Disconnect(k))
  {
    InitialInv();
    InvHolds(INITIAL, events);
    assert SlotValid(Exec(INITIAL, events), k);
  }

  /* ----- what an emit waits for ----- */

  ghost predicate EmitCanStep(s: State, e: nat) {
    Enabled(s, Return(e)) || exists i: nat :: Enabled(s, Load(e, i)) || Enabled(s, Send(e, i)) || Enabled(s, Reap(e, i))
  }

  ghost predicate ReceiverCanStep(s: State, k: Key, reply: Reply) {
    Enabled(s, Take(k)) || Enabled(s, Answer(k, reply)) || Enabled(s, Disarm(k)) || Enabled(s, LeaveSlots(k))
    || Enabled(s, Close(k)) || Enabled(s, Discard(k))
  }

  /** The entry an emit waits for: its message lies with a receiver that is not subscribed. */
  ghost predicate Shelved(s: State, e: nat, i: nat) {
    Ticketed(s, e, i) && s.emits[e].tickets[i].Sent? && s.receivers[s.emits[e].keys[i]].phase.Idle?
  }

  lemma {:induction false} FreshCanLoad(s: State, e: nat, i: nat)
    requires Ticketed(s, e, i) && EmitValid(s, e) && s.emits[e].course.Ongoing? && s.emits[e].tickets[i].Fresh?
    ensures exists j :: Enabled(s, Load(e, j))
    decreases i
  {
    if j :| 0 <= j < i && s.emits[e].tickets[j].Fresh? {
      FreshCanLoad(s, e, j);
    } else {
      assert Enabled(s, Load(e, i));
    }
  }

  lemma StuckExactly(s: State, e: nat)
    requires Inv(s) && e < |s.emits| && s.emits[e].course.Ongoing?
    ensures !EmitCanStep(s, e) <==> AwaitsAnswers(s, e)
  {
    assert EmitValid(s, e);
    var tickets := s.emits[e].tickets;
    if i :| 0 <= i < |tickets| && tickets[i].Fresh? {
      FreshCanLoad(s, e, i);
    } else if i :| 0 <= i < |tickets| && tickets[i].Loaded? {
      assert Enabled(s, Send(e, i));
    } else if i :| 0 <= i < |tickets| && tickets[i].Sent? {
      assert !Settled(tickets[i]);
    } else if i :| 0 <= i < |tickets| && tickets[i].Finished? {
      assert Enabled(s, Reap(e, i));
    } else {
      assert Enabled(s, Return(e));
    }
  }

  lemma ShelvedExactlyIfStuck(s: State, e: nat, i: nat, reply: Reply)
    requires Inv(s) && Ticketed(s, e, i) && s.emits[e].tickets[i].Sent?
    ensures ReceiverCanStep(s, s.emits[e].keys[i], reply) <==> !Shelved(s, e, i)
  {
    var k, m := s.emits[e].keys[i], Message(e, i, s.emits[e].value);
    assert TicketValid(s, e, i);
    var r := s.receivers[k];
    assert Holds(r, m) == 1;
    if r.phase.Handling? {
      assert Has(r, r.phase.message) && MessageValid(s, k, r.phase.message);
      assert EnabledAt(s, Answer(k, reply));
    } else {
      assert m in r.queue;
      assert Has(r, r.queue[0]) && MessageValid(s, k, r.queue[0]);
      hide Inv, EnabledEmit;
    }
  }

  /** Everything has been read and sent, and some answer is outstanding. */
  ghost predicate AwaitsAnswers(s: State, e: nat)
    requires e < |s.emits|
  {
    && (forall i :: 0 <= i < |s.emits[e].tickets| ==> !s.emits[e].tickets[i].Fresh? && !s.emits[e].tickets[i].Loaded?)
    && exists i :: 0 <= i < |s.emits[e].tickets| && s.emits[e].tickets[i].Sent?
  }

  /**
   An emit cannot step exactly while an answer is all that it waits for. The receiver that holds the
   message can then step, exactly unless the message lies with it outside a subscription.
   */
  lemma EmitWaitsForReceivers(s: State, e: nat, reply: Reply)
    requires Inv(s) && e < |s.emits| && s.emits[e].course.Ongoing?
    ensures !EmitCanStep(s, e) <==> AwaitsAnswers(s, e)
    ensures forall i: nat :: Ticketed(s, e, i) && s.emits[e].tickets[i].Sent? ==>
              (ReceiverCanStep(s, s.emits[e].keys[i], reply) <==> !Shelved(s, e, i))
  {
    StuckExactly(s, e);
    forall i: nat | Ticketed(s, e, i) && s.emits[e].tickets[i].Sent?
      ensures ReceiverCanStep(s, s.emits[e].keys[i], reply) <==> !Shelved(s, e, i)
    {
      ShelvedExactlyIfStuck(s, e, i, reply);
    }
  }

  /* ----- how a message comes to lie with a receiver that is not subscribed ----- */

  /** The two ways: it is sent to an idle receiver, or it waits at one whose `subscribe_one` ends. */
  ghost predicate ShelvesAt(s: State, e: Event, x: nat, i: nat)
    requires Enabled(s, e) && Ticketed(s, x, i)
  {
    var k := s.emits[x].keys[i];
    || (e == Send(x, i) && s.receivers[k].phase.Idle?)
    || (e == Disarm(k) && s.receivers[k].phase.Settling? && s.emits[x].tickets[i].Sent?)
  }

  /** A receiver becomes idle only when its `subscribe_one` lowers the flag. */
  lemma IdleExactly(s: State, e: Event, k: Key)
    requires Enabled(s, e) && k < |s.receivers|
    ensures k < |Next(s, e).receivers|
    ensures Next(s, e).receivers[k].phase.Idle?
            <==> (s.receivers[k].phase.Idle? && Whose(s, e) != Some(k)) || (e == Disarm(k) && s.receivers[k].phase.Settling?)
                 || (e.Send? && s.receivers[k].phase.Idle?)
  {
    ReceiverFrame(s, e, k);
    if EnabledAt(s, e) {
      hide NextEmit, EnabledEmit;
    } else {
      hide NextAt, EnabledAt;
    }
  }

  /** A step shelves an entry exactly if it is one of the two. */
  lemma ShelvedExactly(s: State, e: Event, x: nat, i: nat)
    requires Inv(s) && Enabled(s, e) && Ticketed(s, x, i) && !Shelved(s, x, i)
    ensures Shelved(Next(s, e), x, i) <==> ShelvesAt(s, e, x, i)
  {
    var k := s.emits[x].keys[i];
    EmitFrame(s, e, x);
    IdleExactly(s, e, k);
    assert SlotValid(s, k);
    if Changes(s, e, x, i) {
      TicketStep(s, e, x, i);
    } else {
      TicketFrame(s, e, x, i);
    }
    hide Inv, Next, NextAt, NextEmit, EnabledAt, EnabledEmit;
  }

  ghost predicate Unshelved(s: State) {
    forall x: nat, i: nat :: !Shelved(s, x, i)
  }

  ghost predicate Shelves(s: State, e: Event)
    requires Enabled(s, e)
  {
    exists x: nat, i: nat :: Ticketed(s, x, i) && ShelvesAt(s, e, x, i)
  }

  lemma UnshelvedExactly(s: State, e: Event)
    requires Inv(s) && Enabled(s, e) && Unshelved(s)
    ensures Unshelved(Next(s, e)) <==> !Shelves(s, e)
  {
    forall x: nat, i: nat | Ticketed(s, x, i) ensures Shelved(Next(s, e), x, i) <==> ShelvesAt(s, e, x, i) {
      ShelvedExactly(s, e, x, i);
    }
    forall x: nat, i: nat | Shelved(Next(s, e), x, i) ensures Ticketed(s, x, i) {
      NoneNewShelved(s, e, x, i);
    }
    hide Inv, Next, Enabled, Shelved, ShelvesAt;
  }

  lemma NoneNewShelved(s: State, e: Event, x: nat, i: nat)
    requires Inv(s) && Enabled(s, e) && Shelved(Next(s, e), x, i)
    ensures Ticketed(s, x, i)
  {
    LogFrame(s, e);
    if x < |s.emits| {
      EmitFrame(s, e, x);
      assert EmitValid(s, x);
    } else {
      hide NextAt;
    }
  }

  ghost predicate AlwaysUnshelved(s: State, events: seq<Event>)
    requires CanRun(s, events)
    decreases |events|
  {
    Unshelved(s) && (events == [] || AlwaysUnshelved(Next(s, events[0]), events[1..]))
  }

  ghost predicate NoneShelves(s: State, events: seq<Event>)
    requires CanRun(s, events)
    decreases |events|
  {
    events == [] || (!Shelves(s, events[0]) && NoneShelves(Next(s, events[0]), events[1..]))
  }

  /** No message ever lies with a receiver that is not subscribed exactly if no step of the run is one of the two. */
  lemma {:induction false} RunsStayUnshelvedExactly(s: State, events: seq<Event>)
    requires Inv(s) && CanRun(s, events) && Unshelved(s)
    ensures AlwaysUnshelved(s, events) <==> NoneShelves(s, events)
    decreases |events|
  {
    if events != [] {
      InvKept(s, events[0]);
      UnshelvedExactly(s, events[0]);
      hide Inv, Next, Enabled, Unshelved, Shelves;
      if !Shelves(s, events[0]) {
        RunsStayUnshelvedExactly(Next(s, events[0]), events[1..]);
      } else if CanRun(Next(s, events[0]), events[1..]) {
        assert !AlwaysUnshelved(Next(s, events[0]), events[1..]);
      }
    }
  }

  /* ----- receivers that are only subscribed with `subscribe` ----- */

  predicate NeverOnce(r: Receiver) {
    !r.phase.Settling? && (r.phase.Waiting? || r.phase.Handling? ==> !r.phase.once)
  }

  /** The receiver is in no `subscribe_one`, and while it is idle nothing has been sent to it. */
  ghost predicate OnlyLoops(s: State, k: Key) {
    && (k < |s.receivers| ==> NeverOnce(s.receivers[k]))
    && forall x: nat, i: nat :: Ticketed(s, x, i) && s.emits[x].keys[i] == k && s.receivers[k].phase.Idle? ==>
         s.emits[x].tickets[i].Fresh? || s.emits[x].tickets[i].Skipped?
  }

  lemma NeverOnceKeptAt(s: State, e: Event, k: Key)
    requires EnabledAt(s, e) && k < |NextAt(s, e).receivers| && (k < |s.receivers| ==> NeverOnce(s.receivers[k]))
    requires e != Subscribe(k, true)
    ensures NeverOnce(NextAt(s, e).receivers[k])
  {
    if !e.Clone? && k != e.k {
      ReceiverStep(s, e);
      hide NextAt;
    }
    hide EnabledEmit;
  }

  lemma NeverOnceKept(s: State, e: Event, k: Key)
    requires Enabled(s, e) && k < |Next(s, e).receivers| && (k < |s.receivers| ==> NeverOnce(s.receivers[k]))
    requires e != Subscribe(k, true)
    ensures NeverOnce(Next(s, e).receivers[k])
  {
    if EnabledAt(s, e) {
      NeverOnceKeptAt(s, e, k);
      hide NextAt, NextEmit, EnabledEmit;
    } else {
      hide NextAt, EnabledAt;
    }
  }

  lemma NothingSentToIdle(s: State, e: Event, k: Key, x: nat, i: nat)
    requires Inv(s) && Enabled(s, e) && OnlyLoops(s, k)
    requires var s' := Next(s, e); Ticketed(s', x, i) && s'.emits[x].keys[i] == k && s'.receivers[k].phase.Idle?
    ensures var t := Next(s, e).emits[x].tickets[i]; t.Fresh? || t.Skipped?
  {
    LogFrame(s, e);
    if x == |s.emits| {
      hide NextAt;
    } else {
      EmitFrame(s, e, x);
      assert EmitValid(s, x) && Ticketed(s, x, i);
      IdleExactly(s, e, k);
      assert SlotValid(s, k);
      if Changes(s, e, x, i) {
        TicketStep(s, e, x, i);
      } else {
        TicketFrame(s, e, x, i);
      }
      hide Inv, Next, NextAt, NextEmit, EnabledAt, EnabledEmit;
    }
  }

  lemma OnlyLoopsKept(s: State, e: Event, k: Key)
    requires Inv(s) && Enabled(s, e) && OnlyLoops(s, k) && e != Subscribe(k, true)
    ensures OnlyLoops(Next(s, e), k)
  {
    var s' := Next(s, e);
    if k < |s'.receivers| {
      NeverOnceKept(s, e, k);
    }
    forall x: nat, i: nat | Ticketed(s', x, i) && s'.emits[x].keys[i] == k && s'.receivers[k].phase.Idle?
      ensures s'.emits[x].tickets[i].Fresh? || s'.emits[x].tickets[i].Skipped?
    {
      NothingSentToIdle(s, e, k, x, i);
    }
  }

  lemma {:induction false} OnlyLoopsHolds(s: State, events: seq<Event>, k: Key)
    requires Inv(s) && CanRun(s, events) && OnlyLoops(s, k) && Subscribe(k, true) !in events
    ensures OnlyLoops(Exec(s, events), k)
    decreases |events|
  {
    if events != [] {
      assert events[0] in events && forall e :: e in events[1..] ==> e in events;
      InvKept(s, events[0]);
      OnlyLoopsKept(s, events[0], k);
      hide Inv, Next, Enabled, OnlyLoops;
      OnlyLoopsHolds(Next(s, events[0]), events[1..], k);
    }
  }

  /** A receiver on which `subscribe_one` is never called never keeps an emit waiting outside a subscription. */
  lemma ShelvedOnlyAfterSubscribeOne(events: seq<Event>, k: Key)
    requires CanRun(INITIAL, events) && Subscribe(k, true) !in events
    ensures var s := Exec(INITIAL, events);
            forall x: nat, i: nat :: Ticketed(s, x, i) && s.emits[x].keys[i] == k ==> !Shelved(s, x, i)
  {
    InitialInv();
    OnlyLoopsHolds(INITIAL, events, k);
  }

  ghost predicate Reaches(events: seq<Event>, s: State) {
    CanRun(INITIAL, events) && Exec(INITIAL, events) == s
  }

  lemma {:induction false} ExecAppend(s: State, events: seq<Event>, e: Event)
    requires CanRun(s, events) && Enabled(Exec(s, events), e)
    ensures CanRun(s, events + [e]) && Exec(s, events + [e]) == Next(Exec(s, events), e)
    decreases |events|
  {
    if events != [] {
      assert (events + [e])[0] == events[0] && (events + [e])[1..] == events[1..] + [e];
      ExecAppend(Next(s, events[0]), events[1..], e);
    } else {
      assert [e][1..] == [] && [] + [e] == [e];
    }
  }

  lemma Go(events: seq<Event>, s: State, e: Event) returns (events': seq<Event>, s': State)
    requires Reaches(events, s) && Enabled(s, e)
    ensures s' == Next(s, e) && Reaches(events', s')
  {
    ExecAppend(INITIAL, events, e);
    events', s' := events + [e], Next(s, e);
  }

  /** An emit to the only receiver, whose flag is raised, up to the send. */
  lemma SendsToOne(events: seq<Event>, s: State, v: Value) returns (events': seq<Event>, s': State)
    requires Reaches(events, s) && s.senderAlive && s.slots == {0}
    requires |s.receivers| == 1 && s.receivers[0].active && !s.receivers[0].phase.Closed?
    ensures Reaches(events', s') && s'.senderAlive && s'.slots == {0}
    ensures s'.emits == s.emits + [Emit(v, [0], [Sent], Ongoing)]
    ensures s'.receivers == [s.receivers[0].(queue := s.receivers[0].queue + [Message(|s.emits|, 0, v)])]
  {
    var e := |s.emits|;
    events', s' := Go(events, s, Snapshot(v, [0]));
    assert s'.emits[e].tickets == [Fresh];
    assert s'.emits == s.emits + [Emit(v, [0], [Fresh], Ongoing)];
    assert EnabledEmit(s', Load(e, 0));
    events', s' := Go(events', s', Load(e, 0));
    assert s'.emits[e].tickets == [Loaded];
    assert s'.emits == s.emits + [Emit(v, [0], [Loaded], Ongoing)];
    assert EnabledEmit(s', Send(e, 0));
    events', s' := Go(events', s', Send(e, 0));
    assert s'.emits[e].tickets == [Sent];
  }

  /** The only receiver takes its one value and answers it, and the emit returns. */
  lemma AnswersOne(events: seq<Event>, s: State, v: Value, reply: Reply) returns (events': seq<Event>, s': State)
    requires Reaches(events, s) && s.receivers == [Receiver([Message(0, 0, v)], true, Waiting(true))]
    requires s.emits == [Emit(v, [0], [Sent], Ongoing)]
    ensures Reaches(events', s') && s'.senderAlive == s.senderAlive && s'.slots == s.slots
    ensures s'.receivers == [Receiver([], true, Settling)]
    ensures s'.emits == [Emit(v, [0], [Replied(reply)], Returned([reply]))]
  {
    events', s' := Go(events, s, Take(0));
    assert s'.receivers[0].queue == [];
    assert s'.receivers == [Receiver([], true, Handling(Message(0, 0, v), true))];
    assert EnabledAt(s', Answer(0, reply));
    events', s' := Go(events', s', Answer(0, reply));
    assert s'.emits[0].tickets == [Replied(reply)];
    assert s'.emits == [Emit(v, [0], [Replied(reply)], Ongoing)];
    assert [Replied(reply)][1..] == [] && Replies([Replied(reply)]) == [reply];
    events', s' := Go(events', s', Return(0));
  }

  /** The same, with another emit's message behind it that stays in the queue. */
  lemma AnswersFirst(events: seq<Event>, s: State, v: Value, w: Value, reply: Reply) returns (events': seq<Event>, s': State)
    requires Reaches(events, s) && s.receivers == [Receiver([Message(0, 0, v), Message(1, 0, w)], true, Waiting(true))]
    requires s.emits == [Emit(v, [0], [Sent], Ongoing), Emit(w, [0], [Sent], Ongoing)]
    ensures Reaches(events', s') && s'.receivers == [Receiver([Message(1, 0, w)], true, Settling)]
    ensures s'.emits == [Emit(v, [0], [Replied(reply)], Ongoing), Emit(w, [0], [Sent], Ongoing)]
  {
    events', s' := Go(events, s, Take(0));
    assert s'.receivers[0].queue == [Message(1, 0, w)];
    assert s'.receivers == [Receiver([Message(1, 0, w)], true, Handling(Message(0, 0, v), true))];
    assert EnabledAt(s', Answer(0, reply));
    events', s' := Go(events', s', Answer(0, reply));
    assert s'.emits[0].tickets == [Replied(reply)];
  }

  /**
   An emit can be left waiting with no callback on its way: the flag of `subscribe_one` stays raised
   after its answer, so the next emit may still send to the receiver, which then lowers the flag.
   */
  lemma LateSendIsShelved(v: Value, w: Value, reply: Reply) returns (events: seq<Event>, s: State)
    ensures Reaches(events, s) && |s.emits| == 2
    ensures s.emits[0].course == Returned([reply]) && s.emits[1].course.Ongoing?
    ensures Shelved(s, 1, 0) && !EmitCanStep(s, 1)
  {
    hide EnabledEmit, NextEmit;
    events, s := Go([], INITIAL, Subscribe(0, true));
    assert s.receivers == [Receiver([], true, Waiting(true))];
    events, s := SendsToOne(events, s, v);
    assert s.receivers[0].queue == [Message(0, 0, v)];
    events, s := AnswersOne(events, s, v, reply);
    events, s := SendsToOne(events, s, w);
    events, s := Go(events, s, Disarm(0));
    assert s.emits[1].tickets == [Sent];
    Waits(s);
  }

  /** No emit has to begin after the answer for that: of two that send before it, the second is left. */
  lemma EarlySendIsShelved(v: Value, w: Value, reply: Reply) returns (events: seq<Event>, s: State)
    ensures Reaches(events, s) && |s.emits| == 2 && s.emits[0].course.Ongoing? && s.emits[1].course.Ongoing?
    ensures Shelved(s, 1, 0) && !EmitCanStep(s, 1)
  {
    hide EnabledEmit, NextEmit;
    events, s := Go([], INITIAL, Subscribe(0, true));
    assert s.receivers == [Receiver([], true, Waiting(true))];
    events, s := SendsToOne(events, s, v);
    assert s.receivers[0].queue == [Message(0, 0, v)];
    events, s := SendsToOne(events, s, w);
    assert s.receivers[0].queue == [Message(0, 0, v), Message(1, 0, w)];
    events, s := AnswersFirst(events, s, v, w, reply);
    events, s := Go(events, s, Disarm(0));
    assert s.emits[1].tickets == [Sent];
    Waits(s);
  }

  lemma Waits(s: State)
    requires |s.emits| == 2 && s.emits[1].tickets == [Sent]
    ensures !EmitCanStep(s, 1)
  {
    assert s.emits[1].tickets[0] == Sent;
  }
}
