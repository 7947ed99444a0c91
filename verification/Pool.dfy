// internal/kafka/writer.go: the shared messageCh and the pool of workers, every interleaving of their steps.
module Pool {
  import opened Seqs
  import opened Worker

  datatype PoolConfig = PoolConfig(workers: nat, maxMessages: nat)

  predicate ValidConfig(c: PoolConfig) { c.workers > 0 && c.maxMessages > 0 }

  function Capacity(c: PoolConfig): nat { c.workers * c.maxMessages }

  /** `accepted`: what Write let in. `input`: the producer's Input, all workers together. */
  datatype Pool = Pool(ch: seq<Message>, closed: bool, ctxDone: bool, panicked: bool, workers: seq<Worker>,
                       accepted: seq<Message>, drops: nat, input: seq<Record>)

  datatype PoolAction =
    | Write(m: Message)
    | Work(id: nat, a: Action)
    | Close
    | Cancel

  function Init(c: PoolConfig): Pool {
    Pool([], false, false, false, Fresh(c.workers), [], 0, [])
  }

  function Fresh(n: nat): (ws: seq<Worker>)
    ensures |ws| == n && forall j | 0 <= j < n :: ws[j] == FRESH
  {
    if n == 0 then [] else Fresh(n - 1) + [FRESH]
  }

  /** When the cases of a worker's select are ready; the send deadline may expire at any time. */
  predicate WorkReady(s: Pool, a: Action) {
    match a
    case Receive(m) => s.ch != [] && s.ch[0] == m
    case ChannelClosed => s.closed && s.ch == []
    case ContextDone => s.ctxDone
    case _ => true
  }

  predicate PoolEnabled(s: Pool, a: PoolAction) {
    match a
    case Write(m) => !s.panicked
    case Work(id, b) => id < |s.workers| && Enabled(s.workers[id], b) && WorkReady(s, b)
    case Close => true
    case Cancel => true
  }

  /** What one worker step hands to Input. */
  function Emitted(w: Worker, a: Action): seq<Record>
    requires Enabled(w, a)
  {
    match a
    case SendOk => [Sent(w.batch[w.pc.i])]
    case DlqWrite(Written) => [DeadLetter(w.batch[w.pc.k])]
    case _ => []
  }

  function WriteStep(c: PoolConfig, s: Pool, m: Message): Pool {
    if s.closed then s.(panicked := true)
    else if |s.ch| < Capacity(c) then s.(ch := s.ch + [m], accepted := s.accepted + [m])
    else s.(drops := s.drops + 1)
  }

  function WorkStep(c: PoolConfig, s: Pool, id: nat, a: Action): Pool
    requires PoolEnabled(s, Work(id, a))
  {
    s.(workers := s.workers[id := Step(c.maxMessages, s.workers[id], a)],
       ch := if a.Receive? then s.ch[1..] else s.ch,
       input := s.input + Emitted(s.workers[id], a))
  }

  function PoolStep(c: PoolConfig, s: Pool, a: PoolAction): Pool
    requires PoolEnabled(s, a)
  {
    match a
    case Write(m) => WriteStep(c, s, m)
    case Work(id, b) => WorkStep(c, s, id, b)
    case Close => s.(closed := true)
    case Cancel => s.(ctxDone := true)
  }

  // ---------------------------------------------------------------------------------------------------------
  // Where a worker keeps messages, and sums over the workers

  datatype Place = Received | InHand | Submitted | CountedLost | SilentlyLost | Missed | Resent

  function Stock(p: Place, w: Worker): seq<Message> {
    match p
    case Received => w.received
    case InHand => Held(w)
    case Submitted => Messages(w.out)
    case CountedLost => w.exhausted
    case SilentlyLost => w.gaveUp
    case Missed => w.missed
    case Resent => w.resent
  }

  /** How often message x occurs at place p, over all workers. */
  function Total(p: Place, ws: seq<Worker>, x: Message): int {
    if ws == [] then 0 else Total(p, ws[..|ws| - 1], x) + Count(Stock(p, ws[|ws| - 1]), x)
  }

  lemma {:induction false} TotalUpdate(p: Place, ws: seq<Worker>, id: nat, w: Worker, x: Message)
    requires id < |ws|
    ensures Total(p, ws[id := w], x) == Total(p, ws, x) - Count(Stock(p, ws[id]), x) + Count(Stock(p, w), x)
  {
    hide Stock, Count;
    var n := |ws| - 1;
    if id == n {
      assert ws[id := w][..n] == ws[..n];
    } else {
      assert ws[id := w][..n] == ws[..n][id := w];
      TotalUpdate(p, ws[..n], id, w, x);
    }
  }

  lemma ConservedCounts(w: Worker, x: Message)
    requires Conserved(w)
    ensures Count(Stock(Received, w), x) + Count(Stock(Resent, w), x)
         == Count(Stock(InHand, w), x) + Count(Stock(Submitted, w), x) + Count(Stock(CountedLost, w), x)
            + Count(Stock(SilentlyLost, w), x) + Count(Stock(Missed, w), x)
  {
    BalanceIsConservation(w);
    assert Balance(w, Held(w), x) == 0;
  }

  lemma {:induction false} TotalsConserve(ws: seq<Worker>, x: Message)
    requires forall j | 0 <= j < |ws| :: Conserved(ws[j])
    ensures Total(Received, ws, x) + Total(Resent, ws, x)
         == Total(InHand, ws, x) + Total(Submitted, ws, x) + Total(CountedLost, ws, x)
            + Total(SilentlyLost, ws, x) + Total(Missed, ws, x)
  {
    hide Conserved, Stock;
    if ws != [] {
      var w := ws[|ws| - 1];
      TotalsConserve(ws[..|ws| - 1], x);
      ConservedCounts(w, x);
    }
  }

  lemma {:induction false} FreshTotals(p: Place, n: nat, x: Message)
    ensures Total(p, Fresh(n), x) == 0
  {
    if n > 0 {
      assert Fresh(n)[..n - 1] == Fresh(n - 1);
      FreshTotals(p, n - 1, x);
    }
  }

  // ---------------------------------------------------------------------------------------------------------
  // Invariants of every run

  ghost predicate WorkersOk(c: PoolConfig, s: Pool) {
    && |s.workers| == c.workers
    && |s.ch| <= Capacity(c)
    && (forall j | 0 <= j < |s.workers| :: Inv(c.maxMessages, s.workers[j]))
  }

  ghost predicate Accounted(s: Pool, x: Message) {
    && Count(s.accepted, x) == Count(s.ch, x) + Total(Received, s.workers, x)
    && Count(Messages(s.input), x) == Total(Submitted, s.workers, x)
  }

  ghost predicate InOrder(s: Pool) {
    && (forall j | 0 <= j < |s.workers| :: Subseq(s.workers[j].received + s.ch, s.accepted))
    && (|s.workers| == 1 ==> s.workers[0].received + s.ch == s.accepted && s.workers[0].out == s.input)
  }

  /** Nothing in the pool comes from anywhere but Write. */
  predicate Sourced(s: Pool) {
    && (forall m | m in s.ch :: m in s.accepted)
    && (forall j | 0 <= j < |s.workers| :: forall m | m in s.workers[j].batch :: m in s.accepted)
    && (forall r | r in s.input :: r.msg in s.accepted)
  }

  predicate Leaving(w: Worker) {
    match w.pc
    case Collecting => false
    case Sending(_, exiting) => exiting
    case DeadLettering(_, exiting) => exiting
    case Exited => true
  }

  /** A worker leaves only when the context is done or through the closed and empty channel. */
  predicate LeavesWell(s: Pool) {
    forall j | 0 <= j < |s.workers| :: Leaving(s.workers[j]) ==> s.ctxDone || (s.closed && s.ch == [])
  }

  ghost predicate PoolInv(c: PoolConfig, s: Pool) {
    WorkersOk(c, s) && (forall x :: Accounted(s, x)) && InOrder(s) && Sourced(s) && LeavesWell(s)
  }

  lemma InitInv(c: PoolConfig)
    requires ValidConfig(c)
    ensures PoolInv(c, Init(c))
  {
    FreshInv(c.maxMessages);
    forall x ensures Accounted(Init(c), x) {
      FreshTotals(Received, c.workers, x);
      FreshTotals(Submitted, c.workers, x);
    }
  }

  lemma StepFields(maxMessages: nat, w: Worker, a: Action)
    requires Enabled(w, a)
    ensures Step(maxMessages, w, a).received == if a.Receive? then w.received + [a.m] else w.received
    ensures Step(maxMessages, w, a).out == w.out + Emitted(w, a)
  {
  }

  lemma WriteAccounted(c: PoolConfig, s: Pool, m: Message, x: Message)
    requires Accounted(s, x)
    ensures Accounted(WriteStep(c, s, m), x)
  {
    hide Total, Messages, Capacity;
  }

  lemma WriteInOrder(c: PoolConfig, s: Pool, m: Message)
    requires InOrder(s)
    ensures InOrder(WriteStep(c, s, m))
  {
    hide Subseq;
    var s' := WriteStep(c, s, m);
    if s'.ch != s.ch {
      forall j | 0 <= j < |s.workers| ensures Subseq(s.workers[j].received + s'.ch, s'.accepted) {
        var r := s.workers[j].received;
        SubseqSnoc(r + s.ch, s.accepted, m);
        assert r + (s.ch + [m]) == (r + s.ch) + [m];
      }
      if |s.workers| == 1 {
        var r := s.workers[0].received;
        assert r + (s.ch + [m]) == (r + s.ch) + [m];
      }
    }
  }

  lemma WorkAccounted(c: PoolConfig, s: Pool, id: nat, a: Action, x: Message)
    requires PoolEnabled(s, Work(id, a)) && Accounted(s, x)
    ensures Accounted(WorkStep(c, s, id, a), x)
  {
    hide Step, Messages, Emitted;
    var w := s.workers[id];
    StepFields(c.maxMessages, w, a);
    TotalUpdate(Received, s.workers, id, Step(c.maxMessages, w, a), x);
    TotalUpdate(Submitted, s.workers, id, Step(c.maxMessages, w, a), x);
    CountMessages(w.out, Emitted(w, a), x);
    CountMessages(s.input, Emitted(w, a), x);
    CountReceive(w.received, s.ch, a, x);
  }

  lemma CountMessages(a: seq<Record>, b: seq<Record>, x: Message)
    ensures Count(Messages(a + b), x) == Count(Messages(a), x) + Count(Messages(b), x)
  {
    MessagesAppend(a, b);
  }

  lemma CountReceive(received: seq<Message>, ch: seq<Message>, a: Action, x: Message)
    requires a.Receive? ==> ch != [] && ch[0] == a.m
    ensures a.Receive? ==> Count(received + [a.m], x) + Count(ch[1..], x) == Count(received, x) + Count(ch, x)
  {
    if a.Receive? {
      assert ch == [a.m] + ch[1..];
    }
  }

  lemma WorkInOrder(c: PoolConfig, s: Pool, id: nat, a: Action)
    requires PoolEnabled(s, Work(id, a)) && InOrder(s)
    ensures InOrder(WorkStep(c, s, id, a))
  {
    var s' := WorkStep(c, s, id, a);
    StepFields(c.maxMessages, s.workers[id], a);
    forall j | 0 <= j < |s'.workers| ensures Subseq(s'.workers[j].received + s'.ch, s'.accepted) {
      TakenInOrder(s, j, id, a);
    }
    if |s.workers| == 1 && a.Receive? {
      TakeHead(s.workers[0].received, s.ch, a.m);
    }
  }

  lemma TakeHead(r: seq<Message>, ch: seq<Message>, m: Message)
    requires ch != [] && ch[0] == m
    ensures (r + [m]) + ch[1..] == r + ch
  {
    assert ch == [m] + ch[1..];
  }

  lemma TakenInOrder(s: Pool, j: nat, id: nat, a: Action)
    requires j < |s.workers| && Subseq(s.workers[j].received + s.ch, s.accepted)
    requires a.Receive? ==> s.ch != [] && s.ch[0] == a.m
    ensures a.Receive? ==> Subseq(s.workers[j].received + s.ch[1..], s.accepted)
    ensures a.Receive? ==> Subseq(s.workers[j].received + [a.m] + s.ch[1..], s.accepted)
  {
    if a.Receive? {
      var r := s.workers[j].received;
      TakeHead(r, s.ch, a.m);
      SubseqDelete(r, a.m, s.ch[1..]);
      SubseqTrans(r + s.ch[1..], r + [a.m] + s.ch[1..], s.accepted);
    }
  }

  lemma WorkWorkersOk(c: PoolConfig, s: Pool, id: nat, a: Action)
    requires ValidConfig(c) && PoolEnabled(s, Work(id, a)) && WorkersOk(c, s)
    ensures WorkersOk(c, WorkStep(c, s, id, a))
  {
    hide Inv, Step;
    StepInv(c.maxMessages, s.workers[id], a);
  }

  lemma StepBatch(maxMessages: nat, w: Worker, a: Action)
    requires Enabled(w, a)
    ensures forall m | m in Step(maxMessages, w, a).batch :: m in w.batch || (a.Receive? && m == a.m)
    ensures forall r | r in Emitted(w, a) :: r.msg in w.batch
  {
  }

  lemma WorkSourced(c: PoolConfig, s: Pool, id: nat, a: Action)
    requires PoolEnabled(s, Work(id, a)) && Sourced(s)
    ensures Sourced(WorkStep(c, s, id, a))
  {
    hide Step, Emitted;
    StepBatch(c.maxMessages, s.workers[id], a);
  }

  lemma LeavingStep(maxMessages: nat, w: Worker, a: Action)
    requires Enabled(w, a)
    ensures Leaving(Step(maxMessages, w, a)) ==> Leaving(w) || a.ChannelClosed? || a.ContextDone?
  {
  }

  lemma WorkLeavesWell(c: PoolConfig, s: Pool, id: nat, a: Action)
    requires PoolEnabled(s, Work(id, a)) && LeavesWell(s)
    ensures LeavesWell(WorkStep(c, s, id, a))
  {
    hide Step, Emitted, Leaving;
    LeavingStep(c.maxMessages, s.workers[id], a);
  }

  /** Every step of every worker, and every Write, Close and Cancel, keeps the pool's accounts, orders and bounds. */
  lemma PoolStepInv(c: PoolConfig, s: Pool, a: PoolAction)
    requires ValidConfig(c) && PoolInv(c, s) && PoolEnabled(s, a)
    ensures PoolInv(c, PoolStep(c, s, a))
  {
    hide Inv, Subseq, Accounted, WorkersOk, InOrder, Sourced, LeavesWell;
    match a
    case Write(m) => WriteInv(c, s, m);
    case Work(id, b) => WorkInv(c, s, id, b);
    case Close | Cancel => FlagInv(c, s, a);
  }

  lemma WriteInv(c: PoolConfig, s: Pool, m: Message)
    requires PoolInv(c, s)
    ensures PoolInv(c, WriteStep(c, s, m))
  {
    hide Inv, Subseq, Accounted;
    WriteInOrder(c, s, m);
    forall x ensures Accounted(WriteStep(c, s, m), x) {
      WriteAccounted(c, s, m, x);
    }
  }

  lemma FlagInv(c: PoolConfig, s: Pool, a: PoolAction)
    requires PoolInv(c, s) && (a.Close? || a.Cancel?)
    ensures PoolInv(c, PoolStep(c, s, a))
  {
    hide Inv, Subseq;
    forall x ensures Accounted(PoolStep(c, s, a), x) {
      assert Accounted(s, x);
    }
  }

  lemma WorkInv(c: PoolConfig, s: Pool, id: nat, b: Action)
    requires ValidConfig(c) && PoolInv(c, s) && PoolEnabled(s, Work(id, b))
    ensures PoolInv(c, WorkStep(c, s, id, b))
  {
    hide Inv, Subseq, Accounted, WorkersOk, InOrder, Sourced, LeavesWell;
    WorkLeavesWell(c, s, id, b);
    WorkWorkersOk(c, s, id, b);
    WorkInOrder(c, s, id, b);
    WorkSourced(c, s, id, b);
    forall x ensures Accounted(WorkStep(c, s, id, b), x) {
      WorkAccounted(c, s, id, b, x);
    }
  }

  // ---------------------------------------------------------------------------------------------------------
  // Main results, for every state that satisfies the invariant (hence every reachable one)

  /** Every accepted message is accounted for exactly once: in the channel, held by one worker, handed to Input, or lost
      in one of three named ways. `Resent` are the dead-lettered duplicates, which occur once too often. */
  lemma Conservation(c: PoolConfig, s: Pool, x: Message)
    requires PoolInv(c, s)
    ensures Count(s.accepted, x) + Total(Resent, s.workers, x)
         == Count(s.ch, x) + Total(InHand, s.workers, x) + Count(Messages(s.input), x)
            + Total(CountedLost, s.workers, x) + Total(SilentlyLost, s.workers, x) + Total(Missed, s.workers, x)
  {
    assert Accounted(s, x);
    TotalsConserve(s.workers, x);
  }

  lemma {:induction false} TotalNotNegative(p: Place, ws: seq<Worker>, x: Message)
    ensures Total(p, ws, x) >= 0
  {
    if ws != [] {
      TotalNotNegative(p, ws[..|ws| - 1], x);
    }
  }

  lemma {:induction false} TotalAtLeast(p: Place, ws: seq<Worker>, j: nat, x: Message)
    requires j < |ws|
    ensures Total(p, ws, x) >= Count(Stock(p, ws[j]), x)
  {
    hide Stock;
    if j == |ws| - 1 {
      TotalNotNegative(p, ws[..j], x);
    } else {
      TotalAtLeast(p, ws[..|ws| - 1], j, x);
    }
  }

  lemma {:induction false} TotalAtLeastTwo(p: Place, ws: seq<Worker>, j: nat, k: nat, x: Message)
    requires j < k < |ws|
    ensures Total(p, ws, x) >= Count(Stock(p, ws[j]), x) + Count(Stock(p, ws[k]), x)
  {
    hide Stock;
    if k == |ws| - 1 {
      TotalAtLeast(p, ws[..k], j, x);
    } else {
      TotalAtLeastTwo(p, ws[..|ws| - 1], j, k, x);
    }
  }

  lemma WorkerFacts(c: PoolConfig, s: Pool, j: nat)
    requires WorkersOk(c, s) && j < |s.workers|
    ensures var w := s.workers[j]; Shape(c.maxMessages, w) && Ordered(w) && InputOrdered(w) && Tail(w)
  {
    assert Inv(c.maxMessages, s.workers[j]);
  }

  lemma HeldIsReceived(w: Worker, x: Message)
    requires Tail(w) && x in Held(w)
    ensures Count(w.received, x) >= 1
  {
    assert x in w.batch;
    assert x in w.received;
  }

  /** A message accepted once is not held by two workers, nor held and still in the channel; nor held and already
      submitted, unless it is a dead-lettered duplicate. */
  lemma HeldOnce(c: PoolConfig, s: Pool, j: nat, x: Message)
    requires PoolInv(c, s) && j < |s.workers| && x in Held(s.workers[j])
    requires Count(s.accepted, x) == 1
    ensures x !in s.ch
    ensures forall k | 0 <= k < |s.workers| && k != j :: x !in Held(s.workers[k])
    ensures Total(Resent, s.workers, x) == 0 ==> x !in Messages(s.input)
  {
    hide InOrder, Sourced, LeavesWell, Inv, Tail, Shape, Ordered, InputOrdered, Held;
    WorkerFacts(c, s, j);
    HeldIsReceived(s.workers[j], x);
    assert Accounted(s, x);
    TotalAtLeast(Received, s.workers, j, x);
    forall k | 0 <= k < |s.workers| && k != j ensures x !in Held(s.workers[k]) {
      if x in Held(s.workers[k]) {
        WorkerFacts(c, s, k);
        HeldIsReceived(s.workers[k], x);
        TotalAtLeastTwo(Received, s.workers, if j < k then j else k, if j < k then k else j, x);
        assert false;
      }
    }
    Conservation(c, s, x);
    TotalNotNegative(CountedLost, s.workers, x);
    TotalNotNegative(SilentlyLost, s.workers, x);
    TotalNotNegative(Missed, s.workers, x);
    TotalAtLeast(InHand, s.workers, j, x);
  }

  /** Each worker sends to the messages' own topics in acceptance order. Everything it hands to Input, dead letters
      included, and then what it holds, is in that order too as long as it has sent nothing twice; with one worker
      that is the whole Input stream. */
  lemma SendOrder(c: PoolConfig, s: Pool, j: nat)
    requires PoolInv(c, s) && j < |s.workers|
    ensures Subseq(SentMessages(s.workers[j].out) + Pending(s.workers[j]), s.accepted)
    ensures Subseq(SentMessages(s.workers[j].out), s.accepted)
    ensures s.workers[j].resent == [] ==> Subseq(Messages(s.workers[j].out) + Held(s.workers[j]), s.accepted)
    ensures s.workers[j].resent == [] ==> Subseq(Messages(s.workers[j].out), s.accepted)
    ensures |s.workers| == 1 ==> Subseq(SentMessages(s.input), s.accepted)
    ensures |s.workers| == 1 && s.workers[0].resent == [] ==> Subseq(Messages(s.input) + Held(s.workers[0]), s.accepted)
  {
    hide Inv, Subseq, SentMessages, Messages, Pending, Held, Shape, Accounted, Tail;
    WorkerFacts(c, s, j);
    var w := s.workers[j];
    ChainOrder(SentMessages(w.out), Pending(w), w.received, s.ch, s.accepted);
    if w.resent == [] {
      ChainOrder(Messages(w.out), Held(w), w.received, s.ch, s.accepted);
    }
  }

  lemma {:induction false} SubseqDistinct(a: seq<Message>, b: seq<Message>)
    requires Subseq(a, b) && DistinctMessages(b)
    ensures DistinctMessages(a) && Ids(a) <= Ids(b)
    decreases |b|
  {
    hide DistinctMessages, MessageId, Ids;
    NoMessages();
    if b == [] {
      assert a == [];
    } else {
      var b0, m := b[..|b| - 1], b[|b| - 1];
      assert b == b0 + [m];
      DistinctSnoc(b0, m);
      IdsSnoc(b0, m);
      if a == [] {
      } else if a[|a| - 1] == m {
        var a0 := a[..|a| - 1];
        assert a == a0 + [m];
        SubseqDistinct(a0, b0);
        DistinctSnoc(a0, m);
        IdsSnoc(a0, m);
      } else {
        SubseqDistinct(a, b0);
      }
    }
  }

  /** As long as no id is accepted twice, nothing is ever sent twice, so Input is in order whatever is cancelled. */
  lemma DistinctIdsNeverResend(c: PoolConfig, s: Pool, j: nat)
    requires PoolInv(c, s) && j < |s.workers| && DistinctMessages(s.accepted)
    ensures s.workers[j].resent == []
  {
    hide Inv, Subseq, DistinctMessages, Accounted, Shape;
    var w := s.workers[j];
    WorkerFacts(c, s, j);
    SubseqPrefix(w.received, s.ch);
    SubseqTrans(w.received, w.received + s.ch, s.accepted);
    SubseqDistinct(w.received, s.accepted);
  }

  lemma ChainOrder(sent: seq<Message>, pending: seq<Message>, received: seq<Message>, ch: seq<Message>,
                   accepted: seq<Message>)
    requires Subseq(sent + pending, received) && Subseq(received + ch, accepted)
    ensures Subseq(sent + pending, accepted) && Subseq(sent, accepted)
  {
    hide Subseq;
    SubseqPrefix(received, ch);
    SubseqTrans(received, received + ch, accepted);
    SubseqTrans(sent + pending, received, accepted);
    SubseqPrefix(sent, pending);
    SubseqTrans(sent, sent + pending, accepted);
  }

  function HeldTotal(ws: seq<Worker>): nat {
    if ws == [] then 0 else HeldTotal(ws[..|ws| - 1]) + |Held(ws[|ws| - 1])|
  }

  lemma {:induction false} HeldBound(maxMessages: nat, ws: seq<Worker>)
    requires forall j | 0 <= j < |ws| :: Shape(maxMessages, ws[j])
    ensures HeldTotal(ws) <= |ws| * maxMessages
  {
    if ws != [] {
      HeldBound(maxMessages, ws[..|ws| - 1]);
      assert Shape(maxMessages, ws[|ws| - 1]);
      assert |ws| * maxMessages == (|ws| - 1) * maxMessages + maxMessages;
    }
  }

  // ---------------------------------------------------------------------------------------------------------
  // Runs of the pool alone

  predicate Runs(c: PoolConfig, acts: seq<PoolAction>)
    decreases acts, 0
  {
    acts == [] || (Runs(c, acts[..|acts| - 1]) && PoolEnabled(After(c, acts[..|acts| - 1]), acts[|acts| - 1]))
  }

  function After(c: PoolConfig, acts: seq<PoolAction>): Pool
    requires Runs(c, acts)
    decreases acts, 1
  {
    if acts == [] then Init(c) else PoolStep(c, After(c, acts[..|acts| - 1]), acts[|acts| - 1])
  }

  lemma {:induction false} RunInvariant(c: PoolConfig, acts: seq<PoolAction>)
    requires ValidConfig(c) && Runs(c, acts)
    ensures PoolInv(c, After(c, acts))
  {
    if acts == [] {
      InitInv(c);
    } else {
      RunInvariant(c, acts[..|acts| - 1]);
      PoolStepInv(c, After(c, acts[..|acts| - 1]), acts[|acts| - 1]);
    }
  }

  // ---------------------------------------------------------------------------------------------------------
  // Draining after Close

  /** The context is not cancelled and no send deadline expires. */
  predicate Undisturbed(a: PoolAction) {
    !a.Cancel? && !(a.Work? && (a.a.SendCancelled? || a.a.ContextDone?))
  }

  predicate AllExited(s: Pool) { forall j | 0 <= j < |s.workers| :: s.workers[j].pc.Exited? }

  /** Undisturbed workers never cut a flush, and leave only through the closed and empty channel. */
  predicate DrainInv(s: Pool) {
    forall j | 0 <= j < |s.workers| :: !s.workers[j].cut && (Leaving(s.workers[j]) ==> s.closed && s.ch == [])
  }

  lemma CutStays(maxMessages: nat, w: Worker, a: Action)
    requires Enabled(w, a)
    ensures Step(maxMessages, w, a).cut == (w.cut || a.SendCancelled?)
  {
  }

  lemma DrainStep(c: PoolConfig, s: Pool, a: PoolAction)
    requires DrainInv(s) && PoolEnabled(s, a) && Undisturbed(a)
    ensures DrainInv(PoolStep(c, s, a))
  {
    if a.Work? {
      CutStays(c.maxMessages, s.workers[a.id], a.a);
      LeavingStep(c.maxMessages, s.workers[a.id], a.a);
    }
  }

  lemma {:induction false} DrainInvariant(c: PoolConfig, acts: seq<PoolAction>)
    requires ValidConfig(c) && Runs(c, acts) && (forall i | 0 <= i < |acts| :: Undisturbed(acts[i]))
    ensures DrainInv(After(c, acts))
  {
    if acts != [] {
      DrainInvariant(c, acts[..|acts| - 1]);
      DrainStep(c, After(c, acts[..|acts| - 1]), acts[|acts| - 1]);
    }
  }

  lemma {:induction false} AllSentMessages(out: seq<Record>)
    requires forall r | r in out :: r.Sent?
    ensures SentMessages(out) == Messages(out)
  {
    if out != [] {
      AllSentMessages(out[..|out| - 1]);
    }
  }

  lemma CleanExit(w: Worker)
    requires w.pc.Exited? && !w.cut && CleanSoFar(w)
    ensures Messages(w.out) == w.received
  {
    AllSentMessages(w.out);
    assert SentMessages(w.out) + [] == SentMessages(w.out);
  }

  lemma {:induction false} CleanTotals(ws: seq<Worker>, x: Message)
    requires forall j | 0 <= j < |ws| :: ws[j].pc.Exited? && !ws[j].cut && CleanSoFar(ws[j])
    ensures Total(Submitted, ws, x) == Total(Received, ws, x)
  {
    if ws != [] {
      CleanTotals(ws[..|ws| - 1], x);
      CleanExit(ws[|ws| - 1]);
    }
  }

  /** Close without cancellation loses nothing: when all workers have returned, Input got exactly what was accepted. */
  lemma DrainsCompletely(c: PoolConfig, acts: seq<PoolAction>)
    requires ValidConfig(c) && Runs(c, acts) && (forall i | 0 <= i < |acts| :: Undisturbed(acts[i]))
    requires AllExited(After(c, acts))
    ensures var s := After(c, acts);
            s.closed && s.ch == [] && multiset(Messages(s.input)) == multiset(s.accepted)
    ensures c.workers == 1 ==> Messages(After(c, acts).input) == After(c, acts).accepted
  {
    hide After, Runs, Messages, Total, InOrder, Sourced, LeavesWell, Conserved, Ordered, InputOrdered, Tail, Shape,
         Count;
    var s := After(c, acts);
    RunInvariant(c, acts);
    DrainInvariant(c, acts);
    assert Leaving(s.workers[0]) && s.ch == [];
    CleanWorkers(c, s);
    forall x ensures multiset(Messages(s.input))[x] == multiset(s.accepted)[x] {
      CleanCount(s, x);
    }
    if c.workers == 1 {
      CleanExit(s.workers[0]);
      SingleWorker(s);
    }
  }

  lemma CleanWorkers(c: PoolConfig, s: Pool)
    requires WorkersOk(c, s) && AllExited(s) && DrainInv(s)
    ensures forall j | 0 <= j < |s.workers| :: s.workers[j].pc.Exited? && !s.workers[j].cut && CleanSoFar(s.workers[j])
  {
    hide Shape, Conserved, Ordered, InputOrdered, Tail, CleanSoFar;
    assert forall j | 0 <= j < |s.workers| :: Inv(c.maxMessages, s.workers[j]);
  }

  lemma CleanCount(s: Pool, x: Message)
    requires Accounted(s, x) && s.ch == []
    requires forall j | 0 <= j < |s.workers| :: s.workers[j].pc.Exited? && !s.workers[j].cut && CleanSoFar(s.workers[j])
    ensures multiset(Messages(s.input))[x] == multiset(s.accepted)[x]
  {
    hide Messages, CleanSoFar, Total;
    CleanTotals(s.workers, x);
  }

  lemma SingleWorker(s: Pool)
    requires InOrder(s) && |s.workers| == 1 && s.ch == []
    ensures s.workers[0].received == s.accepted && s.workers[0].out == s.input
  {
    hide Subseq;
    assert s.workers[0].received + s.ch == s.workers[0].received;
  }

  // ---------------------------------------------------------------------------------------------------------
  // Termination after Close

  function WorkerMeasure(w: Worker): nat {
    match w.pc
    case Collecting => if w.batch == [] then 2 else 2 * |w.batch| + 4
    case Sending(i, _) => if i <= |w.batch| then 2 * |w.batch| - i + 3 else 0
    case DeadLettering(k, _) => if k <= |w.batch| then |w.batch| - k + 3 else 0
    case Exited => 0
  }

  function WorkersMeasure(ws: seq<Worker>): nat {
    if ws == [] then 0 else WorkersMeasure(ws[..|ws| - 1]) + WorkerMeasure(ws[|ws| - 1])
  }

  function Measure(s: Pool): nat { 5 * |s.ch| + WorkersMeasure(s.workers) }

  lemma {:induction false} MeasureUpdate(ws: seq<Worker>, id: nat, w: Worker)
    requires id < |ws|
    ensures WorkersMeasure(ws[id := w]) + WorkerMeasure(ws[id]) == WorkersMeasure(ws) + WorkerMeasure(w)
  {
    hide WorkerMeasure;
    var n := |ws| - 1;
    if id == n {
      assert ws[id := w][..n] == ws[..n];
    } else {
      assert ws[id := w][..n] == ws[..n][id := w];
      MeasureUpdate(ws[..n], id, w);
    }
  }

  /** A tick on an empty batch is the only step of a worker that changes nothing. */
  predicate Stutters(w: Worker, a: Action) { a.Tick? && w.batch == [] }

  lemma WorkerMeasureDrops(maxMessages: nat, w: Worker, a: Action)
    requires maxMessages > 0 && Shape(maxMessages, w) && Enabled(w, a)
    ensures var w' := Step(maxMessages, w, a);
            if a.Receive? then WorkerMeasure(w') <= WorkerMeasure(w) + 4
            else if Stutters(w, a) then w' == w
            else WorkerMeasure(w') < WorkerMeasure(w)
  {
    hide DistinctIds;
    if a.SendCancelled? {
      DistinctBounds(w.batch[..w.pc.i + 1]);
    }
  }

  lemma StutterEmits(w: Worker, a: Action)
    requires Enabled(w, a)
    ensures Stutters(w, a) ==> Emitted(w, a) == [] && !a.Receive?
  {
  }

  /** Every step of a worker, cancelled sends included, brings the end nearer, except a tick on an empty batch. */
  lemma EveryStepCounts(c: PoolConfig, s: Pool, id: nat, a: Action)
    requires ValidConfig(c) && WorkersOk(c, s) && PoolEnabled(s, Work(id, a))
    ensures var s' := WorkStep(c, s, id, a);
            if Stutters(s.workers[id], a) then s' == s else Measure(s') < Measure(s)
  {
    hide Inv, Step, Ordered, InputOrdered, Tail, Shape, Held, WorkerMeasure, Enabled, Stutters, Emitted, WorkersMeasure;
    WorkerFacts(c, s, id);
    var w := s.workers[id];
    WorkerMeasureDrops(c.maxMessages, w, a);
    StutterEmits(w, a);
    MeasureUpdate(s.workers, id, Step(c.maxMessages, w, a));
  }

  /** And it is never stuck: while a worker lives, step `a` counts and needs neither cancellation nor a deadline, but
      may need Input to accept a record; step `b` counts and does not need Input, but when a send blocks it is the
      cancellation or the deadline of the flush. */
  lemma NeverStuckAfterClose(c: PoolConfig, s: Pool) returns (id: nat, a: Action, b: Action)
    requires ValidConfig(c) && WorkersOk(c, s) && s.closed && !AllExited(s)
    ensures PoolEnabled(s, Work(id, a)) && !a.SendCancelled? && !a.ContextDone? && !Stutters(s.workers[id], a)
    ensures PoolEnabled(s, Work(id, b)) && Emitted(s.workers[id], b) == [] && !Stutters(s.workers[id], b)
    ensures b.SendCancelled? <==> s.workers[id].pc.Sending?
  {
    hide Inv, Ordered, InputOrdered, Tail;
    id :| 0 <= id < |s.workers| && !s.workers[id].pc.Exited?;
    var w := s.workers[id];
    WorkerFacts(c, s, id);
    a := if w.pc.Sending? then SendOk
         else if w.pc.DeadLettering? then DlqWrite(Written)
         else if s.ch == [] then ChannelClosed
         else Receive(s.ch[0]);
    b := if w.pc.Sending? then SendCancelled else if w.pc.DeadLettering? then DlqWrite(GaveUp) else a;
  }

  /** A run of worker steps that all count. */
  predicate Progresses(c: PoolConfig, s: Pool, steps: seq<(nat, Action)>)
    decreases steps
  {
    steps == [] ||
    (var (id, a) := steps[0];
     PoolEnabled(s, Work(id, a)) && !Stutters(s.workers[id], a) && Progresses(c, WorkStep(c, s, id, a), steps[1..]))
  }

  /** Such a run is no longer than the measure: no schedule keeps the workers busy for ever after Close. */
  lemma {:induction false} ProgressIsBounded(c: PoolConfig, s: Pool, steps: seq<(nat, Action)>)
    requires ValidConfig(c) && WorkersOk(c, s) && Progresses(c, s, steps)
    ensures |steps| <= Measure(s)
    decreases steps
  {
    hide WorkersOk, Measure, WorkStep;
    if steps != [] {
      var (id, a) := steps[0];
      EveryStepCounts(c, s, id, a);
      WorkWorkersOk(c, s, id, a);
      ProgressIsBounded(c, WorkStep(c, s, id, a), steps[1..]);
    }
  }

  // ---------------------------------------------------------------------------------------------------------
  // When nothing is lost between Close and the return of the last worker

  /** A schedule after Close up to the return of every worker. `expire`: the deadlines of flushes may expire; otherwise
      sends are cancelled by the context only. */
  predicate Completes(c: PoolConfig, s: Pool, expire: bool, steps: seq<(nat, Action)>)
    decreases steps
  {
    if steps == [] then AllExited(s)
    else
      var (id, a) := steps[0];
      && PoolEnabled(s, Work(id, a)) && (a.SendCancelled? ==> s.ctxDone || expire)
      && Completes(c, WorkStep(c, s, id, a), expire, steps[1..])
  }

  function Final(c: PoolConfig, s: Pool, expire: bool, steps: seq<(nat, Action)>): Pool
    requires Completes(c, s, expire, steps)
    decreases steps
  {
    if steps == [] then s else Final(c, WorkStep(c, s, steps[0].0, steps[0].1), expire, steps[1..])
  }

  function AllHeld(ws: seq<Worker>): seq<Message> {
    if ws == [] then [] else AllHeld(ws[..|ws| - 1]) + Held(ws[|ws| - 1])
  }

  /** Between s and the end, Input got exactly what was in the channel and in the workers' hands. */
  ghost predicate SubmitsAll(s: Pool, end: Pool) {
    multiset(Messages(end.input)) == multiset(Messages(s.input)) + multiset(s.ch) + multiset(AllHeld(s.workers))
  }

  predicate NoneDeadLettering(s: Pool) {
    forall j | 0 <= j < |s.workers| :: !s.workers[j].pc.DeadLettering?
  }

  predicate NothingHeld(s: Pool) {
    s.ch == [] && forall j | 0 <= j < |s.workers| :: Held(s.workers[j]) == []
  }

  predicate Quiet(s: Pool, expire: bool) {
    NoneDeadLettering(s) && (NothingHeld(s) || (!s.ctxDone && !expire))
  }

  lemma {:induction false} AllHeldCounts(ws: seq<Worker>, x: Message)
    ensures Count(AllHeld(ws), x) == Total(InHand, ws, x)
  {
    if ws != [] {
      AllHeldCounts(ws[..|ws| - 1], x);
    }
  }

  lemma {:induction false} AllHeldLength(ws: seq<Worker>)
    ensures |AllHeld(ws)| == HeldTotal(ws)
  {
    if ws != [] {
      AllHeldLength(ws[..|ws| - 1]);
    }
  }

  /** Copies of x on their way to Input or there. */
  function Flow(s: Pool, x: Message): int {
    Count(Messages(s.input), x) + Count(s.ch, x) + Total(InHand, s.workers, x)
  }

  lemma QuietFields(maxMessages: nat, w: Worker, a: Action)
    requires Enabled(w, a) && !a.SendCancelled? && !a.DlqWrite?
    ensures var w' := Step(maxMessages, w, a);
            && w'.resent == w.resent && w'.missed == w.missed && w'.exhausted == w.exhausted && w'.gaveUp == w.gaveUp
            && (w.pc.DeadLettering? || !w'.pc.DeadLettering?)
  {
  }

  lemma WorkerFlow(maxMessages: nat, w: Worker, a: Action, x: Message)
    requires Enabled(w, a) && !a.SendCancelled? && !a.DlqWrite?
    ensures var w' := Step(maxMessages, w, a);
            Count(Held(w'), x) + Count(Messages(Emitted(w, a)), x) - Count(Held(w), x)
            == if a.Receive? then Count(w.received + [a.m], x) - Count(w.received, x) else 0
  {
    hide Step, Held, Emitted, Messages, Count, Enabled;
    StepBalance(maxMessages, w, a, x);
    QuietFields(maxMessages, w, a);
    StepFields(maxMessages, w, a);
    CountMessages(w.out, Emitted(w, a), x);
  }

  lemma FlowStep(c: PoolConfig, s: Pool, id: nat, a: Action, x: Message)
    requires PoolEnabled(s, Work(id, a)) && !a.SendCancelled? && !a.DlqWrite?
    ensures Flow(WorkStep(c, s, id, a), x) == Flow(s, x)
  {
    hide Step, Messages, Emitted, Held, Count, Enabled, Total;
    var w := s.workers[id];
    WorkerFlow(c.maxMessages, w, a, x);
    TotalUpdate(InHand, s.workers, id, Step(c.maxMessages, w, a), x);
    CountMessages(s.input, Emitted(w, a), x);
    CountReceive(w.received, s.ch, a, x);
  }

  lemma IdleStep(maxMessages: nat, w: Worker, a: Action)
    requires Enabled(w, a) && Held(w) == [] && !w.pc.DeadLettering? && !a.Receive?
    ensures !a.SendCancelled? && !a.DlqWrite? && Held(Step(maxMessages, w, a)) == []
  {
    hide DistinctIds;
  }

  lemma QuietStep(c: PoolConfig, s: Pool, expire: bool, id: nat, a: Action)
    requires PoolEnabled(s, Work(id, a)) && Quiet(s, expire) && (a.SendCancelled? ==> s.ctxDone || expire)
    ensures !a.SendCancelled? && !a.DlqWrite? && Quiet(WorkStep(c, s, id, a), expire)
  {
    hide Step, Emitted, Held;
    if NothingHeld(s) {
      IdleStep(c.maxMessages, s.workers[id], a);
    }
    QuietFields(c.maxMessages, s.workers[id], a);
  }

  lemma {:induction false} ExitedHeld(ws: seq<Worker>, x: Message)
    requires forall j | 0 <= j < |ws| :: ws[j].pc.Exited?
    ensures Total(InHand, ws, x) == 0
  {
    if ws != [] {
      ExitedHeld(ws[..|ws| - 1], x);
    }
  }

  lemma {:induction false} QuietCompletes(c: PoolConfig, s: Pool, expire: bool, steps: seq<(nat, Action)>, x: Message)
    requires ValidConfig(c) && |s.workers| == c.workers && s.closed && LeavesWell(s)
    requires Quiet(s, expire) && Completes(c, s, expire, steps)
    ensures Count(Messages(Final(c, s, expire, steps).input), x) == Flow(s, x)
    decreases steps
  {
    hide Quiet, LeavesWell, WorkStep, Flow, Messages, Total, Count;
    if steps == [] {
      QuietEnd(s, expire, x);
    } else {
      var (id, a) := steps[0];
      QuietStep(c, s, expire, id, a);
      FlowStep(c, s, id, a, x);
      WorkLeavesWell(c, s, id, a);
      WorkFlags(c, s, id, a);
      QuietCompletes(c, WorkStep(c, s, id, a), expire, steps[1..], x);
    }
  }

  lemma WorkFlags(c: PoolConfig, s: Pool, id: nat, a: Action)
    requires PoolEnabled(s, Work(id, a))
    ensures var s' := WorkStep(c, s, id, a);
            && s'.closed == s.closed && s'.ctxDone == s.ctxDone && |s'.workers| == |s.workers|
            && s'.input == s.input + Emitted(s.workers[id], a)
  {
  }

  lemma QuietEnd(s: Pool, expire: bool, x: Message)
    requires |s.workers| > 0 && LeavesWell(s) && Quiet(s, expire) && AllExited(s)
    ensures Flow(s, x) == Count(Messages(s.input), x)
  {
    assert Leaving(s.workers[0]);
    ExitedHeld(s.workers, x);
  }

  // The other direction: schedules that lose something

  /** A worker can always go on without handing anything to Input: by giving up when the context is done or its deadline
      expires, otherwise by leaving through the closed channel or taking what is in it. */
  lemma SilentStep(c: PoolConfig, s: Pool) returns (id: nat, a: Action)
    requires ValidConfig(c) && WorkersOk(c, s) && !AllExited(s) && (s.ctxDone || s.closed)
    ensures PoolEnabled(s, Work(id, a)) && Emitted(s.workers[id], a) == [] && !Stutters(s.workers[id], a)
    ensures s.ctxDone ==> !a.Receive?
  {
    hide Inv, Ordered, InputOrdered, Tail;
    id :| 0 <= id < |s.workers| && !s.workers[id].pc.Exited?;
    var w := s.workers[id];
    WorkerFacts(c, s, id);
    a := if w.pc.Sending? then SendCancelled
         else if w.pc.DeadLettering? then DlqWrite(GaveUp)
         else if s.ctxDone then ContextDone
         else if s.ch == [] then ChannelClosed
         else Receive(s.ch[0]);
  }

  /** So all workers may return without handing anything more to Input. */
  lemma {:induction false} AllGiveUp(c: PoolConfig, s: Pool, expire: bool) returns (steps: seq<(nat, Action)>)
    requires ValidConfig(c) && WorkersOk(c, s) && (s.ctxDone || (s.closed && expire))
    ensures Completes(c, s, expire, steps) && Final(c, s, expire, steps).input == s.input
    decreases Measure(s)
  {
    hide WorkersOk, Measure, WorkStep, Emitted, Enabled;
    if AllExited(s) {
      steps := [];
    } else {
      var id, a := SilentStep(c, s);
      EveryStepCounts(c, s, id, a);
      WorkWorkersOk(c, s, id, a);
      WorkFlags(c, s, id, a);
      assert s.input + [] == s.input;
      var rest := AllGiveUp(c, WorkStep(c, s, id, a), expire);
      steps := [(id, a)] + rest;
      assert steps[1..] == rest;
    }
  }

  function Potential(s: Pool): nat { |s.input| + |s.ch| + HeldTotal(s.workers) }

  lemma {:induction false} HeldTotalUpdate(ws: seq<Worker>, id: nat, w: Worker)
    requires id < |ws|
    ensures HeldTotal(ws[id := w]) + |Held(ws[id])| == HeldTotal(ws) + |Held(w)|
  {
    hide Held;
    var n := |ws| - 1;
    if id == n {
      assert ws[id := w][..n] == ws[..n];
    } else {
      assert ws[id := w][..n] == ws[..n][id := w];
      HeldTotalUpdate(ws[..n], id, w);
    }
  }

  lemma WorkerPotential(maxMessages: nat, w: Worker, a: Action)
    requires Enabled(w, a) && !a.SendCancelled?
    ensures |Held(Step(maxMessages, w, a))| + |Emitted(w, a)| <= |Held(w)| + (if a.Receive? then 1 else 0)
    ensures a == DlqWrite(GaveUp) ==> |Held(Step(maxMessages, w, a))| + |Emitted(w, a)| < |Held(w)|
  {
  }

  lemma PotentialStep(c: PoolConfig, s: Pool, id: nat, a: Action)
    requires PoolEnabled(s, Work(id, a)) && !a.SendCancelled?
    ensures Potential(WorkStep(c, s, id, a)) <= Potential(s)
    ensures a == DlqWrite(GaveUp) ==> Potential(WorkStep(c, s, id, a)) < Potential(s)
  {
    hide Step, Emitted, Held, HeldTotal, Enabled;
    WorkerPotential(c.maxMessages, s.workers[id], a);
    HeldTotalUpdate(s.workers, id, Step(c.maxMessages, s.workers[id], a));
  }

  /** Some completion always exists, and Input ends with no more than was there and on its way. */
  lemma {:induction false} SomeCompletion(c: PoolConfig, s: Pool, expire: bool) returns (steps: seq<(nat, Action)>)
    requires ValidConfig(c) && WorkersOk(c, s) && s.closed
    ensures Completes(c, s, expire, steps) && |Final(c, s, expire, steps).input| <= Potential(s)
    decreases Measure(s)
  {
    hide WorkersOk, Measure, WorkStep, HeldTotal;
    if AllExited(s) {
      steps := [];
    } else {
      var id, a, _ := NeverStuckAfterClose(c, s);
      EveryStepCounts(c, s, id, a);
      WorkWorkersOk(c, s, id, a);
      WorkFlags(c, s, id, a);
      PotentialStep(c, s, id, a);
      var rest := SomeCompletion(c, WorkStep(c, s, id, a), expire);
      steps := [(id, a)] + rest;
      assert steps[1..] == rest;
    }
  }

  lemma SubmittedLength(s: Pool, end: Pool)
    requires SubmitsAll(s, end)
    ensures |end.input| == Potential(s)
  {
    MessagesLength(s.input);
    MessagesLength(end.input);
    AllHeldLength(s.workers);
    assert |multiset(Messages(end.input))| == |end.input|;
  }

  lemma {:induction false} SomethingHeld(ws: seq<Worker>, j: nat)
    requires j < |ws| && Held(ws[j]) != []
    ensures HeldTotal(ws) > 0
  {
    hide Held;
    if j < |ws| - 1 {
      SomethingHeld(ws[..|ws| - 1], j);
    }
  }

  /** A schedule that loses something, for a state that is not quiet. */
  lemma LosingCompletion(c: PoolConfig, s: Pool, expire: bool) returns (steps: seq<(nat, Action)>)
    requires ValidConfig(c) && WorkersOk(c, s) && s.closed && !Quiet(s, expire)
    ensures Completes(c, s, expire, steps) && |Final(c, s, expire, steps).input| < Potential(s)
  {
    hide WorkersOk, WorkStep, HeldTotal, Measure, Held;
    if s.ctxDone || expire {
      steps := AllGiveUp(c, s, expire);
      NotQuietHolds(c, s);
    } else {
      var j :| 0 <= j < |s.workers| && s.workers[j].pc.DeadLettering?;
      var a := DlqWrite(GaveUp);
      DeadLetteringEnabled(c, s, j);
      PotentialStep(c, s, j, a);
      WorkWorkersOk(c, s, j, a);
      WorkFlags(c, s, j, a);
      var rest := SomeCompletion(c, WorkStep(c, s, j, a), expire);
      steps := [(j, a)] + rest;
      assert steps[1..] == rest;
    }
  }

  lemma DeadLetteringEnabled(c: PoolConfig, s: Pool, j: nat)
    requires WorkersOk(c, s) && j < |s.workers| && s.workers[j].pc.DeadLettering?
    ensures PoolEnabled(s, Work(j, DlqWrite(GaveUp))) && Held(s.workers[j]) != []
  {
    hide Inv, Ordered, InputOrdered, Tail;
    WorkerFacts(c, s, j);
  }

  lemma NotQuietHolds(c: PoolConfig, s: Pool)
    requires WorkersOk(c, s) && !(NoneDeadLettering(s) && NothingHeld(s))
    ensures |s.ch| + HeldTotal(s.workers) > 0
  {
    hide Inv, HeldTotal, Held;
    if s.ch == [] {
      if j: nat :| j < |s.workers| && s.workers[j].pc.DeadLettering? {
        DeadLetteringEnabled(c, s, j);
        SomethingHeld(s.workers, j);
      } else {
        var j: nat :| j < |s.workers| && Held(s.workers[j]) != [];
        SomethingHeld(s.workers, j);
      }
    }
  }

  /** Closing loses nothing, whatever the schedule, if and only if there is nothing left to lose, in the channel or in a
      batch. If no deadline expires, it is enough that the context is live and no worker is dead-lettering. */
  lemma CloseLosesNothingIff(c: PoolConfig, s: Pool, expire: bool)
    requires ValidConfig(c) && PoolInv(c, s) && s.closed
    ensures (forall steps | Completes(c, s, expire, steps) :: SubmitsAll(s, Final(c, s, expire, steps)))
            <==> NothingHeld(s) || (!expire && !s.ctxDone && NoneDeadLettering(s))
    ensures exists steps :: Completes(c, s, expire, steps)
  {
    hide Accounted, InOrder, Sourced, LeavesWell, Completes, Final, NoneDeadLettering, NothingHeld, SubmitsAll, Inv,
         Potential;
    var some := SomeCompletion(c, s, expire);
    if NothingHeld(s) {
      NothingHeldIsQuiet(c, s);
    }
    if Quiet(s, expire) {
      forall steps | Completes(c, s, expire, steps) ensures SubmitsAll(s, Final(c, s, expire, steps)) {
        QuietSubmitsAll(c, s, expire, steps);
      }
    } else {
      var steps := LosingCompletion(c, s, expire);
      if SubmitsAll(s, Final(c, s, expire, steps)) {
        SubmittedLength(s, Final(c, s, expire, steps));
        assert false;
      }
    }
  }

  lemma NothingHeldIsQuiet(c: PoolConfig, s: Pool)
    requires WorkersOk(c, s) && NothingHeld(s)
    ensures NoneDeadLettering(s)
  {
    hide Inv, Held;
    forall j | 0 <= j < |s.workers| ensures !s.workers[j].pc.DeadLettering? {
      if s.workers[j].pc.DeadLettering? {
        DeadLetteringEnabled(c, s, j);
      }
    }
  }

  lemma QuietSubmitsAll(c: PoolConfig, s: Pool, expire: bool, steps: seq<(nat, Action)>)
    requires ValidConfig(c) && PoolInv(c, s) && s.closed && Quiet(s, expire) && Completes(c, s, expire, steps)
    ensures SubmitsAll(s, Final(c, s, expire, steps))
  {
    hide Accounted, InOrder, Sourced, LeavesWell, Completes, Final, Quiet, Inv, Messages, Total, AllHeld;
    var (sent, all) := (multiset(Messages(Final(c, s, expire, steps).input)),
                        multiset(Messages(s.input)) + multiset(s.ch) + multiset(AllHeld(s.workers)));
    forall x ensures sent[x] == all[x] {
      QuietCompletes(c, s, expire, steps, x);
      AllHeldCounts(s.workers, x);
      assert all[x] == Flow(s, x);
    }
  }
}
