/** The batching adapter: up to fifteen items of the inner stream at a time, without waiting for more. */
module BatchedStream {
  import opened Outcomes

  const MAX_POLLS: nat := 15

  type Item(==, !new)

  datatype Poll<+T> = Pending | Ready(value: T)

  /** What the inner stream answers to its first poll, its second, and so on. */
  type Script = nat -> Poll<Option<Item>>

  datatype State = Active(at: nat, batch: seq<Item>) | Complete(at: nat)

  datatype Pulled = Pulled(at: nat, batch: seq<Item>, ended: bool)

  /** Up to `left` polls of the inner stream. */
  function Pull(script: Script, at: nat, batch: seq<Item>, left: nat): (r: Pulled)
    ensures at <= r.at <= at + left && (left > 0 ==> at < r.at)
    decreases left
  {
    if left == 0 then Pulled(at, batch, false)
    else
      match script(at)
      case Ready(Some(item)) => Pull(script, at + 1, batch + [item], left - 1)
      case Ready(None) => Pulled(at + 1, batch, true)
      case Pending => Pulled(at + 1, batch, false)
  }

  datatype Answer = Answer(state: State, poll: Poll<Option<seq<Item>>>)

  function PollNext(script: Script, s: State): Answer {
    match s
    case Complete(_) => Answer(s, Ready(None))
    case Active(at, batch) =>
      var p := Pull(script, at, batch, MAX_POLLS);
      if p.ended && p.batch != [] then Answer(Complete(p.at), Ready(Some(p.batch)))
      else Answer(Active(p.at, []), if p.ended then Ready(None) else if p.batch == [] then Pending else Ready(Some(p.batch)))
  }

  /* ----- polling until the end ----- */

  datatype Drained = Drained(state: State, batches: seq<seq<Item>>, done: bool)

  /** What `n` polls yield, up to the first that reports the end. */
  function Drain(script: Script, s: State, n: nat): Drained
    decreases n
  {
    if n == 0 then Drained(s, [], false)
    else
      var a := PollNext(script, s);
      if a.poll == Ready(None) then Drained(a.state, [], true)
      else
        var rest := Drain(script, a.state, n - 1);
        if a.poll.Pending? then rest else rest.(batches := [a.poll.value.value] + rest.batches)
  }

  predicate IsEnd(poll: Poll<Option<Item>>) {
    poll.Ready? && poll.value.None?
  }

  ghost predicate EndFree(script: Script, from: nat, to: nat) {
    forall i: nat :: from <= i < to ==> !IsEnd(script(i))
  }

  /** The items of the inner stream among its answers in a range, in order. */
  function Items(script: Script, from: nat, to: nat): seq<Item>
    decreases to - from
  {
    if from >= to then []
    else (if script(from).Ready? && script(from).value.Some? then [script(from).value.value] else []) + Items(script, from + 1, to)
  }

  function Concat(batches: seq<seq<Item>>): seq<Item> {
    if batches == [] then [] else batches[0] + Concat(batches[1..])
  }

  lemma {:induction false} ItemsSplit(script: Script, a: nat, m: nat, b: nat)
    requires a <= m <= b
    ensures Items(script, a, b) == Items(script, a, m) + Items(script, m, b)
    decreases m - a
  {
    if a < m {
      ItemsSplit(script, a + 1, m, b);
    }
  }

  lemma {:induction false} PullTakesItems(script: Script, at: nat, batch: seq<Item>, left: nat)
    ensures var p := Pull(script, at, batch, left);
            && p.batch == batch + Items(script, at, p.at) && |p.batch| <= |batch| + left
            && EndFree(script, at, if p.ended then p.at - 1 else p.at)
            && (p.ended ==> at < p.at && IsEnd(script(p.at - 1)))
    decreases left
  {
    if left > 0 && script(at).Ready? && script(at).value.Some? {
      PullTakesItems(script, at + 1, batch + [script(at).value.value], left - 1);
    } else if left > 0 {
      assert Items(script, at, at + 1) == Items(script, at + 1, at + 1) == [];
    }
  }

  predicate Over(d: Drained) {
    d.done || d.state.Complete?
  }

  /** The batches are the items taken so far, and the first end is where the draining stopped. */
  ghost predicate TakesItems(script: Script, at: nat, n: nat, d: Drained) {
    && at <= d.state.at && Concat(d.batches) == Items(script, at, d.state.at)
    && (forall i :: 0 <= i < |d.batches| ==> 0 < |d.batches[i]| <= MAX_POLLS)
    && (if Over(d) then at < d.state.at && IsEnd(script(d.state.at - 1)) && EndFree(script, at, d.state.at - 1)
        else d.state == Active(d.state.at, []) && EndFree(script, at, d.state.at) && at + n <= d.state.at)
    && (!d.done ==> at + n <= d.state.at)
  }

  lemma Joins(script: Script, at: nat, n: nat, p: Pulled, rest: Drained)
    requires at < p.at && p.batch == Items(script, at, p.at) && |p.batch| <= MAX_POLLS && EndFree(script, at, p.at)
    requires TakesItems(script, p.at, n, rest)
    ensures TakesItems(script, at, n + 1, if p.batch == [] then rest else rest.(batches := [p.batch] + rest.batches))
  {
    ItemsSplit(script, at, p.at, rest.state.at);
  }

  lemma DrainStep(script: Script, at: nat, n: nat)
    requires n > 0
    ensures var p, d := Pull(script, at, [], MAX_POLLS), Drain(script, Active(at, []), n);
            if p.ended then
              if p.batch == [] then d == Drained(Active(p.at, []), [], true) else d == Drained(Complete(p.at), [p.batch], n > 1)
            else
              var rest := Drain(script, Active(p.at, []), n - 1);
              d == if p.batch == [] then rest else rest.(batches := [p.batch] + rest.batches)
  {
    var p := Pull(script, at, [], MAX_POLLS);
    hide Pull;
    assert n > 1 ==> Drain(script, Complete(p.at), n - 1) == Drained(Complete(p.at), [], true);
  }

  lemma {:induction false} DrainTakesItems(script: Script, at: nat, n: nat)
    ensures TakesItems(script, at, n, Drain(script, Active(at, []), n))
    decreases n
  {
    if n > 0 {
      var p := Pull(script, at, [], MAX_POLLS);
      PullTakesItems(script, at, [], MAX_POLLS);
      DrainStep(script, at, n);
      hide Pull, Drain;
      if p.ended {
        assert [p.batch][1..] == [] && Concat([p.batch]) == p.batch;
      } else {
        DrainTakesItems(script, p.at, n - 1);
        Joins(script, at, n - 1, p, Drain(script, Active(p.at, []), n - 1));
        hide TakesItems;
      }
    }
  }

  /**
   Polled often enough, the adapter yields exactly the inner items before the first end, in order and
   in batches of one to fifteen, and then reports the end.
   */
  lemma BatchesAreTheStream(script: Script, end: nat, n: nat)
    requires EndFree(script, 0, end) && IsEnd(script(end)) && n >= end + 3
    ensures var d := Drain(script, Active(0, []), n);
            && d.done && Concat(d.batches) == Items(script, 0, end)
            && forall i :: 0 <= i < |d.batches| ==> 0 < |d.batches[i]| <= MAX_POLLS
  {
    var d := Drain(script, Active(0, []), n);
    DrainTakesItems(script, 0, n);
    assert end < d.state.at ==> !EndFree(script, 0, d.state.at);
    if Over(d) {
      assert d.state.at - 1 == end;
      ItemsSplit(script, 0, end, end + 1);
      assert Items(script, end, end + 1) == [];
    }
  }

  /** Before the end nothing is held back between two polls: all that was taken has been yielded. */
  lemma NothingIsHeldBack(script: Script, n: nat)
    ensures var d := Drain(script, Active(0, []), n);
            !Over(d) ==> d.state == Active(d.state.at, []) && d.state.at >= n && Concat(d.batches) == Items(script, 0, d.state.at)
  {
    DrainTakesItems(script, 0, n);
  }

  predicate IsItem(poll: Poll<Option<Item>>) {
    poll.Ready? && poll.value.Some?
  }

  lemma {:induction false} PullTakesRun(script: Script, at: nat, batch: seq<Item>, left: nat)
    ensures var p := Pull(script, at, batch, left);
            && |batch| <= |p.batch| <= |batch| + left && p.batch[..|batch|] == batch
            && (forall i :: |batch| <= i < |p.batch| ==> script(at + i - |batch|) == Ready(Some(p.batch[i])))
            && (|p.batch| == |batch| + left || !IsItem(script(at + |p.batch| - |batch|)))
            && (p.ended <==> |p.batch| < |batch| + left && IsEnd(script(at + |p.batch| - |batch|)))
    decreases left
  {
    if left > 0 && IsItem(script(at)) {
      PullTakesRun(script, at + 1, batch + [script(at).value.value], left - 1);
    }
  }

  /**
   One poll takes all that is ready, up to fifteen items and no further: it stops only at the
   fifteenth, or at an answer that is no item. It is pending exactly if the first answer is.
   */
  lemma PollTakesRun(script: Script, at: nat)
    ensures var a := PollNext(script, Active(at, []));
            && (a.poll.Pending? <==> script(at).Pending?)
            && (a.poll == Ready(None) <==> IsEnd(script(at)))
            && (a.poll.Ready? && a.poll.value.Some? ==>
                  var batch := a.poll.value.value;
                  && 0 < |batch| <= 15
                  && (forall i :: 0 <= i < |batch| ==> script(at + i) == Ready(Some(batch[i])))
                  && (|batch| == 15 || !IsItem(script(at + |batch|))))
  {
    var p := Pull(script, at, [], MAX_POLLS);
    PullTakesRun(script, at, [], MAX_POLLS);
    hide Pull;
    if p.batch == [] {
      assert script(at + |p.batch|) == script(at);
    } else {
      assert script(at + 0) == Ready(Some(p.batch[0]));
    }
  }

  /* ----- the program ----- */

  class Source {
    const script: Script
    var at: nat

    constructor (script: Script)
      ensures this.script == script && at == 0
    {
      this.script, at := script, 0;
    }

    method PollNext() returns (poll: Poll<Option<Item>>)
      modifies this
      ensures poll == script(old(at)) && at == old(at) + 1
    {
      poll, at := script(at), at + 1;
    }
  }

  lemma PullNext(script: Script, at: nat, batch: seq<Item>, left: nat)
    ensures Pull(script, at, batch, 0) == Pulled(at, batch, false)
    ensures left > 0 ==>
              Pull(script, at, batch, left) ==
                if IsItem(script(at)) then Pull(script, at + 1, batch + [script(at).value.value], left - 1)
                else Pulled(at + 1, batch, IsEnd(script(at)))
  {
  }

  class Batched {
    const stream: Source
    var batch: seq<Item>
    var complete: bool
    var wakes: nat

    constructor (stream: Source)
      ensures this.stream == stream && View() == Active(stream.at, [])
    {
      this.stream, batch, complete, wakes := stream, [], false, 0;
    }

    function View(): State
      reads this, stream
    {
      if complete then Complete(stream.at) else Active(stream.at, batch)
    }

    method Poll() returns (poll: Poll<Option<seq<Item>>>)
      modifies this, stream
      ensures Answer(View(), poll) == PollNext(stream.script, old(View()))
      ensures wakes == old(wakes) + if poll.Pending? then 1 else 0
    {
      if complete {
        return Ready(None);
      }
      ghost var goal := Pull(stream.script, stream.at, batch, MAX_POLLS);
      for i := 0 to MAX_POLLS
        invariant !complete && wakes == old(wakes) && goal == Pull(stream.script, stream.at, batch, MAX_POLLS - i)
      {
        PullNext(stream.script, stream.at, batch, MAX_POLLS - i);
        hide Pull;
        var answer := stream.PollNext();
        match answer {
          case Ready(Some(item)) => batch := batch + [item];
          case Ready(None) =>
            if batch == [] {
              return Ready(None);
            }
            var taken := batch;
            batch, complete := [], true;
            return Ready(Some(taken));
          case Pending => break;
        }
      }
      PullNext(stream.script, stream.at, batch, 0);
      if batch == [] {
        wakes := wakes + 1;
        return Pending;
      }
      var taken := batch;
      batch := [];
      return Ready(Some(taken));
    }
  }
}
