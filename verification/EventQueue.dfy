// internal/queue: the bounded event queue with its two back-pressure modes, and the sampler.
module EventQueue {
  import opened Events

  /** `Blocked`: no case of the select is ready, so the call has not returned and nothing has changed. */
  datatype PushOutcome = Accepted | QueueFull | PushCancelled | PushBlocked
  datatype PopOutcome = Popped(event: Event) | PopCancelled | PopBlocked

  datatype State = State(ch: seq<Event>, drops: nat)

  /** `done`: the context is cancelled. `pickDone`: which case the select takes when both are ready. */
  class Queue {
    const capacity: nat
    const dropIfQueueFull: bool
    var ch: seq<Event>
    var drops: nat

    ghost predicate Valid()
      reads this
    {
      |ch| <= capacity
    }

    ghost function Abstract(): State
      reads this
    {
      State(ch, drops)
    }

    constructor (capacity: nat, dropIfQueueFull: bool)
      ensures Valid() && Abstract() == State([], 0)
      ensures this.capacity == capacity && this.dropIfQueueFull == dropIfQueueFull
    {
      this.capacity := capacity;
      this.dropIfQueueFull := dropIfQueueFull;
      ch, drops := [], 0;
    }

    method Push(event: Event, done: bool, pickDone: bool) returns (r: PushOutcome)
      requires Valid()
      modifies this
      ensures Valid()
      ensures dropIfQueueFull ==> Abstract() == Step(old(Abstract()), capacity, PushOp(event))
      ensures dropIfQueueFull ==> r == if old(|ch|) < capacity then Accepted else QueueFull
      ensures !dropIfQueueFull ==> drops == old(drops) && ch == if r == Accepted then old(ch) + [event] else old(ch)
      ensures !dropIfQueueFull && !done ==> r == if old(|ch|) < capacity then Accepted else PushBlocked
      ensures !dropIfQueueFull && done ==> r == if old(|ch|) < capacity && !pickDone then Accepted else PushCancelled
    {
      if dropIfQueueFull {
        if |ch| < capacity {
          ch := ch + [event];
          return Accepted;
        }
        drops := drops + 1;
        return QueueFull;
      }
      if |ch| < capacity && !(done && pickDone) {
        ch := ch + [event];
        return Accepted;
      }
      return if done then PushCancelled else PushBlocked;
    }

    method Pop(done: bool, pickDone: bool) returns (r: PopOutcome)
      requires Valid()
      modifies this`ch
      ensures Valid()
      ensures r.Popped? <==> old(ch) != [] && !(done && pickDone)
      ensures r.Popped? ==> old(ch) == [r.event] + ch
      ensures !r.Popped? ==> ch == old(ch) && r == if done then PopCancelled else PopBlocked
    {
      if ch != [] && !(done && pickDone) {
        r := Popped(ch[0]);
        ch := ch[1..];
      } else {
        r := if done then PopCancelled else PopBlocked;
      }
    }

    method Size() returns (n: nat)
      requires Valid()
      ensures n == |ch| <= capacity
    {
      n := |ch|;
    }
  }

  // ---------------------------------------------------------------------------------------------------------
  // Runs in drop mode

  datatype Op = PushOp(event: Event) | PopOp

  function Step(s: State, capacity: nat, op: Op): State {
    match op
    case PushOp(e) => if |s.ch| < capacity then s.(ch := s.ch + [e]) else s.(drops := s.drops + 1)
    case PopOp => if s.ch == [] then s else s.(ch := s.ch[1..])
  }

  function After(s: State, capacity: nat, ops: seq<Op>): State {
    if ops == [] then s else Step(After(s, capacity, ops[..|ops| - 1]), capacity, ops[|ops| - 1])
  }

  /** Every pop of the run returns an event (a pop on the empty queue waits instead). */
  predicate PopsSucceed(s: State, capacity: nat, ops: seq<Op>) {
    ops == [] || (PopsSucceed(s, capacity, ops[..|ops| - 1])
                  && (ops[|ops| - 1].PopOp? ==> After(s, capacity, ops[..|ops| - 1]).ch != []))
  }

  /** Pushes minus pops. */
  function Net(ops: seq<Op>): int {
    if ops == [] then 0 else Net(ops[..|ops| - 1]) + (if ops[|ops| - 1].PushOp? then 1 else -1)
  }

  /** The highest level the run would reach above the capacity if nothing were dropped. */
  function Excess(start: nat, capacity: nat, ops: seq<Op>): nat {
    if ops == [] then 0
    else
      var before := Excess(start, capacity, ops[..|ops| - 1]);
      var level := start + Net(ops) - capacity;
      if level > before then level else before
  }

  lemma {:induction false} ExcessIsMax(start: nat, capacity: nat, ops: seq<Op>)
    requires start <= capacity
    ensures forall k | 0 <= k <= |ops| :: start + Net(ops[..k]) - capacity <= Excess(start, capacity, ops)
    ensures Excess(start, capacity, ops) == 0
            || exists k :: 0 <= k <= |ops| && start + Net(ops[..k]) - capacity == Excess(start, capacity, ops)
  {
    assert ops[..|ops|] == ops;
    if ops != [] {
      var front := ops[..|ops| - 1];
      ExcessIsMax(start, capacity, front);
      assert forall k | 0 <= k < |ops| :: front[..k] == ops[..k];
    }
  }

  /** The queue is a one-sided reflected walk: the number of drops is exactly the excess, for every run. */
  lemma {:induction false} DropsAreExcess(s: State, capacity: nat, ops: seq<Op>)
    requires |s.ch| <= capacity && PopsSucceed(s, capacity, ops)
    ensures After(s, capacity, ops).drops == s.drops + Excess(|s.ch|, capacity, ops)
    ensures |After(s, capacity, ops).ch| == |s.ch| + Net(ops) - Excess(|s.ch|, capacity, ops) <= capacity
  {
    if ops != [] {
      DropsAreExcess(s, capacity, ops[..|ops| - 1]);
    }
  }

  // ---------------------------------------------------------------------------------------------------------
  // Sampling

  /** rand.Float64 lies in [0, 1). */
  predicate IsDraw(draw: real) { 0.0 <= draw < 1.0 }

  /** The draws in [0, ratio) are selected. The source's separate test for a ratio of 1 or more changes nothing. */
  predicate Sampled(ratio: real, draw: real) { draw < ratio }

  /** How many of the first k of n evenly spread draws are selected. */
  function SelectedOf(ratio: real, n: nat, k: nat): nat
    requires n > 0
  {
    if k == 0 then 0 else SelectedOf(ratio, n, k - 1) + (if Sampled(ratio, (k - 1) as real / n as real) then 1 else 0)
  }

  lemma {:induction false} SelectedPrefix(ratio: real, n: nat, k: nat)
    requires n > 0 && k <= n && ratio >= 0.0
    ensures SelectedOf(ratio, n, k) <= k
    ensures SelectedOf(ratio, n, k) == k || ratio * n as real <= SelectedOf(ratio, n, k) as real
    ensures (SelectedOf(ratio, n, k) as real) < ratio * n as real + 1.0
  {
    assert ratio * n as real >= 0.0;
    if k > 0 {
      SelectedPrefix(ratio, n, k - 1);
      ScaledDraw(ratio, n, k - 1);
    }
  }

  lemma ScaledDraw(ratio: real, n: nat, k: nat)
    requires n > 0
    ensures Sampled(ratio, k as real / n as real) <==> k as real < ratio * n as real
  {
    var x := k as real / n as real;
    assert x * n as real == k as real;
    if x < ratio {
      assert (ratio - x) * n as real > 0.0;
    } else {
      assert (x - ratio) * n as real >= 0.0;
    }
  }

  /** The ratio is the share that is selected: of n evenly spread draws exactly ratio * n, rounded up. */
  lemma SampledShare(ratio: real, n: nat)
    requires n > 0 && 0.0 <= ratio <= 1.0
    ensures ratio * n as real <= SelectedOf(ratio, n, n) as real < ratio * n as real + 1.0
  {
    SelectedPrefix(ratio, n, n);
    assert (1.0 - ratio) * n as real >= 0.0;
  }

  class Sampler {
    const ratio: real
    var sampledTotal: nat

    constructor (ratio: real)
      ensures this.ratio == ratio && sampledTotal == 0
    {
      this.ratio := ratio;
      sampledTotal := 0;
    }

    method ShouldSample(draw: real) returns (b: bool)
      requires IsDraw(draw)
      modifies this
      ensures b <==> draw < ratio
      ensures sampledTotal == old(sampledTotal) + (if b then 1 else 0)
    {
      if ratio >= 1.0 {
        sampledTotal := sampledTotal + 1;
        return true;
      }
      if draw < ratio {
        sampledTotal := sampledTotal + 1;
        return true;
      }
      return false;
    }
  }
}
