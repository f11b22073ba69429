/**
 The channel object: the slot map, the receivers and the emits under way, changed in place. Each
 method is one step of the program and is proved to be one event of `ConsistentChannel`.
 */
module ChannelObject {
  import opened ConsistentChannel

  class Channel {
    var slots: set<Key>
    var receivers: seq<Receiver>
    var emits: seq<Emit>
    var senderAlive: bool
    ghost var log: seq<Mark>

    /** `unbounded_channel`. */
    constructor ()
      ensures View() == INITIAL && Inv(View())
    {
      slots, receivers, emits, senderAlive, log := {0}, [Receiver([], false, Idle)], [], true, [];
      new;
      InitialInv();
    }

    ghost function View(): State
      reads this
    {
      State(slots, receivers, emits, senderAlive, log)
    }

    /** `Receiver::clone`, under the write lock. */
    method CloneReceiver(k: Key) returns (entry: Key)
      requires Inv(View()) && Enabled(View(), Clone(k))
      modifies this
      ensures View() == Next(old(View()), Clone(k)) && Inv(View())
      ensures entry !in old(slots) && entry in slots
    {
      InvKept(View(), Clone(k));
      assert SlotValid(View(), |receivers|);
      entry := |receivers|;
      slots, receivers := slots + {entry}, receivers + [Receiver([], false, Idle)];
    }

    /** The start of `subscribe` and `subscribe_one`: the guard raises the flag. */
    method StartSubscription(k: Key, once: bool)
      requires Inv(View()) && Enabled(View(), Subscribe(k, once))
      modifies this
      ensures View() == Next(old(View()), Subscribe(k, once)) && Inv(View())
      ensures receivers[k].active && k in slots
    {
      InvKept(View(), Subscribe(k, once));
      assert SlotValid(View(), k);
      receivers := receivers[k := receivers[k].(phase := Waiting(once), active := true)];
    }

    /** `recv` finds a message; the callback starts on its value. */
    method Receive(k: Key) returns (value: Value)
      requires Inv(View()) && Enabled(View(), Take(k))
      modifies this
      ensures View() == Next(old(View()), Take(k)) && Inv(View())
      ensures receivers[k].phase.message.emit < |emits| && value == emits[receivers[k].phase.message.emit].value
      ensures log == old(log) + [Began(receivers[k].phase.message.emit, receivers[k].phase.message.at, value)]
    {
      InvKept(View(), Take(k));
      assert Has(receivers[k], receivers[k].queue[0]) && MessageValid(View(), k, receivers[k].queue[0]);
      var r := receivers[k];
      var m := r.queue[0];
      value := m.value;
      receivers := receivers[k := r.(queue := r.queue[1..], phase := Handling(m, r.phase.once))];
      log := log + [Began(m.emit, m.at, m.value)];
    }

    /** The callback is done and its reply is sent; nobody is there to take it if the emit was abandoned. */
    method SendReply(k: Key, reply: Reply) returns (ok: bool)
      requires Inv(View()) && Enabled(View(), Answer(k, reply))
      modifies this
      ensures View() == Next(old(View()), Answer(k, reply)) && Inv(View())
      ensures ok <==> !Gone(receivers[k])
    {
      InvKept(View(), Answer(k, reply));
      var r, m := receivers[k], receivers[k].phase.message;
      var emit := emits[m.emit];
      ok := !emit.course.Abandoned?;
      if ok {
        receivers := receivers[k := r.(phase := if r.phase.once then Settling else Waiting(false))];
        emits := emits[m.emit := emit.(tickets := emit.tickets[m.at := Replied(reply)])];
        log := log + [Answered(m.emit, m.at, reply)];
      } else {
        receivers := receivers[k := r.(phase := Stopping)];
        emits := emits[m.emit := emit.(tickets := emit.tickets[m.at := Ignored])];
      }
    }

    /** The guard is dropped and lowers the flag. */
    method LowerFlag(k: Key)
      requires Inv(View()) && Enabled(View(), Disarm(k))
      modifies this
      ensures View() == Next(old(View()), Disarm(k)) && Inv(View())
      ensures !receivers[k].active && k in slots
    {
      InvKept(View(), Disarm(k));
      assert SlotValid(View(), k);
      receivers := receivers[k := receivers[k].(phase := if receivers[k].phase.Settling? then Idle else Dropping, active := false)];
    }

    /** `drop` of a receiver, under the write lock. */
    method RemoveEntry(k: Key)
      requires Inv(View()) && Enabled(View(), LeaveSlots(k))
      modifies this
      ensures View() == Next(old(View()), LeaveSlots(k)) && Inv(View())
      ensures k in old(slots) && slots == old(slots) - {k}
    {
      InvKept(View(), LeaveSlots(k));
      assert SlotValid(View(), k);
      slots := slots - {k};
      receivers := receivers[k := receivers[k].(phase := Detached)];
    }

    /** The start of `emit`, under the read lock; `keys` is the order in which the map is read. */
    method TakeSnapshot(value: Value, keys: seq<Key>) returns (e: nat)
      requires Inv(View()) && Enabled(View(), Snapshot(value, keys))
      modifies this
      ensures e == |old(emits)| && View() == Next(old(View()), Snapshot(value, keys)) && Inv(View())
      ensures forall k: Key :: k in emits[e].keys <==> k < |receivers| && Listed(receivers[k])
    {
      InvKept(View(), Snapshot(value, keys));
      assert EnabledEmit(View(), Snapshot(value, keys));
      forall k: Key ensures k in keys <==> k < |receivers| && Listed(receivers[k]) {
        assert SlotValid(View(), k);
      }
      e := |emits|;
      emits := emits + [Emit(value, keys, seq(|keys|, _ => Fresh), Ongoing)];
      log := log + [Opened(e)];
      assert emits[e].keys == keys;
    }

    /** Reading one flag; an inactive receiver is left out of the join. */
    method LoadFlag(e: nat, i: nat)
      requires Inv(View()) && Enabled(View(), Load(e, i))
      modifies this
      ensures View() == Next(old(View()), Load(e, i)) && Inv(View())
      ensures emits[e].tickets[i].Skipped? <==> !Subscribed(receivers[emits[e].keys[i]])
    {
      InvKept(View(), Load(e, i));
      assert SlotValid(View(), emits[e].keys[i]);
      var emit := emits[e];
      emits := emits[e := emit.(tickets := emit.tickets[i := if receivers[emit.keys[i]].active then Loaded else Skipped])];
    }

    /** The first poll of one future of the join. */
    method SendTo(e: nat, i: nat)
      requires Inv(View()) && Enabled(View(), Send(e, i))
      modifies this
      ensures View() == Next(old(View()), Send(e, i)) && Inv(View())
      ensures emits[e].tickets[i].Finished? ==> emits[e].keys[i] !in slots
    {
      InvKept(View(), Send(e, i));
      assert SlotValid(View(), emits[e].keys[i]);
      var emit := emits[e];
      var k := emit.keys[i];
      if receivers[k].phase.Closed? {
        emits := emits[e := emit.(tickets := emit.tickets[i := Finished])];
      } else {
        receivers := receivers[k := receivers[k].(queue := receivers[k].queue + [Message(e, i, emit.value)])];
        emits := emits[e := emit.(tickets := emit.tickets[i := Sent])];
      }
    }

    /** One removal at the end of `emit`, under the write lock. */
    method RemoveFinished(e: nat, i: nat)
      requires Inv(View()) && Enabled(View(), Reap(e, i))
      modifies this
      ensures View() == Next(old(View()), Reap(e, i)) && Inv(View()) && slots == old(slots)
      ensures receivers == old(receivers) && log == old(log)
      ensures emits == old(emits)[e := old(emits)[e].(tickets := old(emits)[e].tickets[i := Removed])]
    {
      InvKept(View(), Reap(e, i));
      StaleRemovalIsNoOp(View(), e, i);
      slots := slots - {emits[e].keys[i]};
      emits := emits[e := emits[e].(tickets := emits[e].tickets[i := Removed])];
    }

    /** The end of `emit` once every future of the join is done: the replies, in slot order. */
    method Gather(e: nat) returns (result: seq<Reply>)
      requires Inv(View()) && e < |emits| && emits[e].course.Ongoing?
      requires forall j :: 0 <= j < |emits[e].tickets| ==> Settled(emits[e].tickets[j])
      modifies this
      ensures Inv(View()) && result == Replies(old(emits[e].tickets))
      ensures slots == old(slots) && receivers == old(receivers) && |emits| == |old(emits)|
      ensures emits[e].course == Returned(result) && log == old(log) + [Over(e)]
    {
      hide Inv, Enabled, Swept, Replies, Next;
      result := [];
      var i := 0;
      ghost var was := emits[e].tickets;
      SweepStart(was);
      while i < |emits[e].tickets|
        invariant Inv(View()) && |emits| == |old(emits)| && emits[e].course.Ongoing?
        invariant i <= |was| && emits[e].tickets == Swept(was, i)
        invariant slots == old(slots) && receivers == old(receivers) && log == old(log)
        invariant Replies(was) == result + Replies(was[i..])
        decreases |was| - i
      {
        SweepStep(View(), e, was, i);
        match emits[e].tickets[i] {
          case Replied(reply) => result := result + [reply];
          case Finished => RemoveFinished(e, i);
          case _ =>
        }
        i := i + 1;
      }
      SweepEnds(View(), e, was, i);
      Conclude(e, result);
    }

    method Conclude(e: nat, result: seq<Reply>)
      requires Inv(View()) && Enabled(View(), Return(e)) && result == Replies(emits[e].tickets)
      modifies this
      ensures View() == Next(old(View()), Return(e)) && Inv(View())
      ensures slots == old(slots) && receivers == old(receivers) && |emits| == |old(emits)|
      ensures emits[e].course == Returned(result) && log == old(log) + [Over(e)]
    {
      InvKept(View(), Return(e));
      emits := emits[e := emits[e].(course := Returned(result))];
      log := log + [Over(e)];
    }
  }

  lemma {:induction false} SameReplies(a: seq<Ticket>, b: seq<Ticket>)
    requires |a| == |b| && forall j :: 0 <= j < |a| ==> a[j] == b[j] || (!a[j].Replied? && !b[j].Replied?)
    ensures Replies(a) == Replies(b)
    decreases |a|
  {
    if a != [] {
      SameReplies(a[1..], b[1..]);
    }
  }

  function Swept(tickets: seq<Ticket>, n: nat): (r: seq<Ticket>)
    ensures |r| == |tickets|
  {
    seq(|tickets|, j requires 0 <= j < |tickets| => if j < n && tickets[j].Finished? then Removed else tickets[j])
  }

  lemma SweepStep(s: State, e: nat, was: seq<Ticket>, i: nat)
    requires Inv(s) && e < |s.emits| && s.emits[e].course.Ongoing?
    requires i < |was| && s.emits[e].tickets == Swept(was, i) && forall j :: 0 <= j < |was| ==> Settled(was[j])
    ensures s.emits[e].tickets[i] == was[i]
    ensures was[i].Finished? ==> Enabled(s, Reap(e, i))
    ensures Swept(was, i + 1) == if was[i].Finished? then Swept(was, i)[i := Removed] else Swept(was, i)
    ensures Replies(was[i..]) == (if was[i].Replied? then [was[i].reply] else []) + Replies(was[i + 1..])
  {
    assert EmitValid(s, e);
    assert was[i..][1..] == was[i + 1..];
  }

  lemma SweepEnds(s: State, e: nat, was: seq<Ticket>, n: nat)
    requires e < |s.emits| && s.emits[e].course.Ongoing?
    requires n <= |was| && s.emits[e].tickets == Swept(was, n) && forall j :: 0 <= j < |was| ==> Settled(was[j])
    ensures n == |was| ==> Replies(was[n..]) == [] && Enabled(s, Return(e)) && Replies(s.emits[e].tickets) == Replies(was)
  {
    if n == |was| {
      assert EnabledEmit(s, Return(e));
      hide EnabledEmit, EnabledAt;
      SameReplies(s.emits[e].tickets, was);
    }
  }

  lemma SweepStart(was: seq<Ticket>)
    ensures Swept(was, 0) == was && was[0..] == was
  {
  }
}
