// What holds in every state the adapter can reach, whatever the interleaving.
module PipelineProofs {
  import opened Seqs
  import opened Events
  import opened Worker
  import opened Pool
  import opened Pipeline

  // ---------------------------------------------------------------------------------------------------------
  // Order: what the pipeline holds, read from the writer back to the reader, is a subsequence of what was received

  function EventOf(m: Message): Event { m.event }

  function ReaderHand(s: State): seq<Event> {
    if s.reader.Holding? then [s.reader.e] else []
  }

  function ProcessorHand(s: State): seq<Event> {
    if s.processor.Sampling? || s.processor.Pushing? then [s.processor.e] else []
  }

  function FeederHand(s: State): seq<Event> {
    match s.feeder
    case Normalizing(e) => [e]
    case Writing(m) => [m.event]
    case _ => []
  }

  function Accepted(s: State): seq<Event> { Map(EventOf, s.pool.accepted) }

  function Row(a: seq<Event>, k: seq<Event>, q: seq<Event>, p: seq<Event>, g: seq<Event>, r: seq<Event>): seq<Event> {
    a + (k + (q + (p + (g + r))))
  }

  function Chain(s: State): seq<Event> {
    Row(Accepted(s), FeederHand(s), s.queue, ProcessorHand(s), s.grpcCh, ReaderHand(s))
  }

  ghost predicate InReceiveOrder(s: State) { Subseq(Chain(s), s.log.received) }

  lemma RowReceive(a: seq<Event>, k: seq<Event>, q: seq<Event>, p: seq<Event>, g: seq<Event>, e: Event)
    ensures Row(a, k, q, p, g, [e]) == Row(a, k, q, p, g, []) + [e]
  {
  }

  lemma RowSend(a: seq<Event>, k: seq<Event>, q: seq<Event>, p: seq<Event>, g: seq<Event>, e: Event)
    ensures Row(a, k, q, p, g + [e], []) == Row(a, k, q, p, g, [e])
  {
    assert g + [e] + [] == g + [e];
  }

  lemma RowTake(a: seq<Event>, k: seq<Event>, q: seq<Event>, g: seq<Event>, r: seq<Event>)
    requires g != []
    ensures Row(a, k, q, [g[0]], g[1..], r) == Row(a, k, q, [], g, r)
  {
    assert [g[0]] + (g[1..] + r) == [] + (g + r);
  }

  lemma RowPush(a: seq<Event>, k: seq<Event>, q: seq<Event>, e: Event, g: seq<Event>, r: seq<Event>)
    ensures Row(a, k, q + [e], [], g, r) == Row(a, k, q, [e], g, r)
  {
    assert (q + [e]) + ([] + (g + r)) == q + ([e] + (g + r));
  }

  lemma RowPop(a: seq<Event>, q: seq<Event>, p: seq<Event>, g: seq<Event>, r: seq<Event>)
    requires q != []
    ensures Row(a, [q[0]], q[1..], p, g, r) == Row(a, [], q, p, g, r)
  {
    assert [q[0]] + (q[1..] + (p + (g + r))) == [] + (q + (p + (g + r)));
  }

  lemma RowWrite(a: seq<Event>, e: Event, q: seq<Event>, p: seq<Event>, g: seq<Event>, r: seq<Event>)
    ensures Row(a + [e], [], q, p, g, r) == Row(a, [e], q, p, g, r)
  {
    var t := q + (p + (g + r));
    assert (a + [e]) + ([] + t) == a + ([e] + t);
  }

  lemma RowLoseAtReader(a: seq<Event>, k: seq<Event>, q: seq<Event>, p: seq<Event>, g: seq<Event>, e: Event)
    ensures Subseq(Row(a, k, q, p, g, []), Row(a, k, q, p, g, [e]))
  {
    hide Subseq, Row;
    RowReceive(a, k, q, p, g, e);
    SubseqPrefix(Row(a, k, q, p, g, []), [e]);
  }

  lemma RowLoseAtProcessor(a: seq<Event>, k: seq<Event>, q: seq<Event>, e: Event, g: seq<Event>, r: seq<Event>)
    ensures Subseq(Row(a, k, q, [], g, r), Row(a, k, q, [e], g, r))
  {
    hide Subseq;
    var (front, t) := (a + (k + q), g + r);
    SubseqDelete(front, e, t);
    assert front + t == Row(a, k, q, [], g, r);
    assert front + [e] + t == Row(a, k, q, [e], g, r);
  }

  lemma RowLoseAtFeeder(a: seq<Event>, e: Event, q: seq<Event>, p: seq<Event>, g: seq<Event>, r: seq<Event>)
    ensures Subseq(Row(a, [], q, p, g, r), Row(a, [e], q, p, g, r))
  {
    hide Subseq;
    var t := q + (p + (g + r));
    SubseqDelete(a, e, t);
    assert a + t == Row(a, [], q, p, g, r);
    assert a + [e] + t == Row(a, [e], q, p, g, r);
  }

  /** Enough to keep the order: the chain is unchanged, loses something, or gains what is received. */
  lemma OrderKept(s: State, s': State)
    requires InReceiveOrder(s) && s'.log.received == s.log.received && Subseq(Chain(s'), Chain(s))
    ensures InReceiveOrder(s')
  {
    SubseqTrans(Chain(s'), Chain(s), s.log.received);
  }

  lemma ReaderOrder(c: Setup, s: State, a: ReaderAction)
    requires InReceiveOrder(s) && ReaderEnabled(c, s, a)
    ensures InReceiveOrder(ReaderStep(c, s, a))
  {
    hide Subseq, Row;
    var s' := ReaderStep(c, s, a);
    var x, k, q, p := Accepted(s), FeederHand(s), s.queue, ProcessorHand(s);
    match a {
      case Recv(e) =>
        RowReceive(x, k, q, p, s.grpcCh, e);
        SubseqSnoc(Chain(s), s.log.received, e);
      case SendEvent => RowSend(x, k, q, p, s.grpcCh, s.reader.e);
      case SendGivenUp | SendDropped =>
        RowLoseAtReader(x, k, q, p, s.grpcCh, s.reader.e);
        OrderKept(s, s');
      case _ =>
    }
  }

  lemma ProcessorOrder(c: Setup, s: State, a: ProcessorAction)
    requires InReceiveOrder(s) && ProcessorEnabled(c, s, a)
    ensures InReceiveOrder(ProcessorStep(c, s, a))
  {
    hide Subseq, Row;
    var s' := ProcessorStep(c, s, a);
    var x, k, g, r := Accepted(s), FeederHand(s), s.grpcCh, ReaderHand(s);
    match a {
      case Take => RowTake(x, k, s.queue, g, r);
      case PushOk => RowPush(x, k, s.queue, s.processor.e, g, r);
      case Sample(_) | PushDropped | PushGivenUp =>
        RowLoseAtProcessor(x, k, s.queue, s.processor.e, g, r);
        if !s'.processor.Pushing? {
          OrderKept(s, s');
        }
      case _ =>
    }
  }

  lemma MapOne(ms: seq<Message>, m: Message)
    ensures Map(EventOf, ms + [m]) == Map(EventOf, ms) + [m.event]
  {
    assert (ms + [m])[..|ms|] == ms;
  }

  lemma FeederOrder(c: Setup, s: State, a: FeederAction)
    requires InReceiveOrder(s) && FeederEnabled(c, s, a)
    ensures InReceiveOrder(FeederStep(c, s, a))
  {
    hide Subseq, Row, Map, BuildMessage;
    var s' := FeederStep(c, s, a);
    var x, p, g, r := Accepted(s), ProcessorHand(s), s.grpcCh, ReaderHand(s);
    match a {
      case Pop => RowPop(x, s.queue, p, g, r);
      case NormalizeError | Skip(_) =>
        RowLoseAtFeeder(x, s.feeder.e, s.queue, p, g, r);
        OrderKept(s, s');
      case Prepare(t) => BuiltFrom(c, s.feeder.e, t);
      case WriteMessage =>
        MapOne(s.pool.accepted, s.feeder.m);
        RowWrite(x, s.feeder.m.event, s.queue, p, g, r);
        RowLoseAtFeeder(x, s.feeder.m.event, s.queue, p, g, r);
        if !s'.feeder.CountingOut? || s'.feeder.status != Success {
          OrderKept(s, s');
        }
      case _ =>
    }
  }

  lemma BuiltFrom(c: Setup, e: Event, t: string)
    ensures BuildMessage(c, e, t).event == e
  {
  }

  // ---------------------------------------------------------------------------------------------------------
  // Conservation: every received event is in exactly one place

  function N(s: seq<Event>, x: Event): int { multiset(s)[x] }

  /** Received, minus every place the event can be. */
  function Unplaced(s: State, x: Event): int {
    N(s.log.received, x)
    - N(ReaderHand(s), x) - N(s.log.streamDropped, x) - N(s.log.cancelLost, x) - N(s.grpcCh, x)
    - N(ProcessorHand(s), x) - N(s.log.sampledOut, x) - N(s.log.queueDropped, x) - N(s.log.pushCancelled, x)
    - N(s.queue, x) - N(FeederHand(s), x) - N(s.log.failed, x) - N(s.log.skipped, x) - N(s.log.rejected, x)
    - N(s.log.panicLost, x) - N(Accepted(s), x)
  }

  lemma HeadCount(q: seq<Event>, x: Event)
    requires q != []
    ensures N(q[1..], x) == N(q, x) - N([q[0]], x)
  {
    assert q == [q[0]] + q[1..];
  }

  lemma SnocCount(q: seq<Event>, e: Event, x: Event)
    ensures N(q + [e], x) == N(q, x) + N([e], x)
  {
  }

  lemma EmptyCount(x: Event)
    ensures N([], x) == 0
  {
  }

  lemma ReaderPlaced(c: Setup, s: State, a: ReaderAction, x: Event)
    requires ReaderEnabled(c, s, a)
    ensures Unplaced(ReaderStep(c, s, a), x) == Unplaced(s, x)
  {
    hide Map, N;
    EmptyCount(x);
    if a.Recv? {
      SnocCount(s.log.received, a.e, x);
    } else if s.reader.Holding? {
      SnocCount(s.grpcCh, s.reader.e, x);
      SnocCount(s.log.cancelLost, s.reader.e, x);
      SnocCount(s.log.streamDropped, s.reader.e, x);
    }
  }

  lemma ProcessorPlaced(c: Setup, s: State, a: ProcessorAction, x: Event)
    requires ProcessorEnabled(c, s, a)
    ensures Unplaced(ProcessorStep(c, s, a), x) == Unplaced(s, x)
  {
    hide Map, N;
    EmptyCount(x);
    if a.Take? {
      HeadCount(s.grpcCh, x);
    } else if s.processor.Sampling? || s.processor.Pushing? {
      SnocCount(s.log.sampledOut, s.processor.e, x);
      SnocCount(s.queue, s.processor.e, x);
      SnocCount(s.log.queueDropped, s.processor.e, x);
      SnocCount(s.log.pushCancelled, s.processor.e, x);
    }
  }

  lemma FeederPlaced(c: Setup, s: State, a: FeederAction, x: Event)
    requires FeederEnabled(c, s, a)
    ensures Unplaced(FeederStep(c, s, a), x) == Unplaced(s, x)
  {
    hide Map, N, BuildMessage;
    EmptyCount(x);
    match a {
      case Pop => HeadCount(s.queue, x);
      case NormalizeError => SnocCount(s.log.failed, s.feeder.e, x);
      case Skip(_) => SnocCount(s.log.skipped, s.feeder.e, x);
      case Prepare(t) => BuiltFrom(c, s.feeder.e, t);
      case WriteMessage =>
        MapOne(s.pool.accepted, s.feeder.m);
        SnocCount(Accepted(s), s.feeder.m.event, x);
        SnocCount(s.log.rejected, s.feeder.m.event, x);
        SnocCount(s.log.panicLost, s.feeder.m.event, x);
      case _ =>
    }
  }

  // ---------------------------------------------------------------------------------------------------------
  // The counter ledger

  function One(b: bool): nat { if b then 1 else 0 }

  /** Events that left the queue, by what became of them. */
  function LeftQueue(s: State): nat {
    |FeederHand(s)| + |s.log.failed| + |s.log.skipped| + |s.log.rejected| + |s.log.panicLost| + |s.pool.accepted|
  }

  /** Events that went through Push. */
  function ThroughPush(s: State): nat {
    |s.log.queueDropped| + |s.log.pushCancelled| + |s.queue| + LeftQueue(s)
  }

  predicate StreamLedger(s: State) {
    && s.count.received == |s.log.received|
    && s.count.streamFull == |s.log.streamDropped|
    && s.count.received == |ReaderHand(s)| + s.count.streamFull + |s.log.cancelLost| + |s.grpcCh|
                           + One(s.processor.Sampling?) + |s.log.sampledOut| + s.count.sampled
  }

  predicate PushLedger(s: State) {
    && s.count.sampled == One(s.processor.Pushing?) + ThroughPush(s)
    && s.count.eventsIn + One(s.processor.CountingIn?) == ThroughPush(s)
    && s.count.queueFull == |s.log.queueDropped|
  }

  predicate OutLedger(s: State) {
    && s.count.normalizeErrors == |s.log.failed|
    && s.count.outSuccess + One(s.feeder == CountingOut(Success)) == |s.pool.accepted|
    && s.count.outFailed + One(s.feeder == CountingOut(Failed)) == |s.log.rejected| == s.pool.drops
    && s.count.outSkipped + One(s.feeder == CountingOut(NotInitialized)) == |s.log.skipped|
  }

  /** What the exported counters say, each exact up to the one event its goroutine has in hand. */
  predicate Ledger(s: State) { StreamLedger(s) && PushLedger(s) && OutLedger(s) }

  /** Losses the counters do not show happen only after cancellation, and at most one of them at the reader. */
  predicate SilentLosses(c: Setup, s: State) {
    && (s.log.cancelLost != [] ==>
          s.pool.ctxDone && |s.log.cancelLost| == 1 && (s.reader.Disconnected? || s.reader.ReaderStopped?))
    && (s.log.pushCancelled != [] ==> s.pool.ctxDone && !c.dropIfQueueFull)
    && (s.log.queueDropped != [] ==> c.dropIfQueueFull)
  }

  predicate Bounded(c: Setup, s: State) {
    && |s.grpcCh| <= c.maxQueue
    && |s.queue| <= c.maxQueue
  }

  predicate Phases(s: State) {
    && (s.pool.ctxDone <==> !s.main.Serving?)
    && (s.pool.closed <==> s.main.WriterClosed?)
    && (s.pool.panicked <==> s.feeder.FeederPanicked?)
    && (s.pool.panicked ==> s.pool.closed)
    && (s.log.panicLost != [] ==> s.pool.panicked)
  }

  predicate Counted(c: Setup, s: State) {
    Ledger(s) && SilentLosses(c, s) && Bounded(c, s) && Phases(s)
  }

  lemma ReaderStreamLedger(c: Setup, s: State, a: ReaderAction)
    requires StreamLedger(s) && ReaderEnabled(c, s, a)
    ensures StreamLedger(ReaderStep(c, s, a))
  {
  }

  lemma ReaderFrame(c: Setup, s: State, a: ReaderAction)
    requires ReaderEnabled(c, s, a)
    ensures var s' := ReaderStep(c, s, a);
            && s'.processor == s.processor && s'.queue == s.queue && s'.feeder == s.feeder && s'.pool == s.pool
            && s'.log == s.log.(received := s'.log.received, streamDropped := s'.log.streamDropped,
                                cancelLost := s'.log.cancelLost)
            && s'.count == s.count.(received := s'.count.received, streamFull := s'.count.streamFull)
  {
  }

  /** The reader touches nothing the two other ledgers speak of. */
  lemma ReaderElsewhere(c: Setup, s: State, a: ReaderAction)
    requires PushLedger(s) && OutLedger(s) && ReaderEnabled(c, s, a)
    ensures PushLedger(ReaderStep(c, s, a)) && OutLedger(ReaderStep(c, s, a))
  {
    hide ReaderStep, ReaderEnabled;
    ReaderFrame(c, s, a);
  }

  lemma ReaderLedger(c: Setup, s: State, a: ReaderAction)
    requires Ledger(s) && ReaderEnabled(c, s, a)
    ensures Ledger(ReaderStep(c, s, a))
  {
    hide StreamLedger, PushLedger, OutLedger, ReaderStep, ReaderEnabled;
    ReaderStreamLedger(c, s, a);
    ReaderElsewhere(c, s, a);
  }

  lemma ReaderCounted(c: Setup, s: State, a: ReaderAction)
    requires Counted(c, s) && ReaderEnabled(c, s, a)
    ensures Counted(c, ReaderStep(c, s, a))
  {
    ReaderLedger(c, s, a);
    hide Ledger;
  }

  lemma ProcessorPushLedger(c: Setup, s: State, a: ProcessorAction)
    requires PushLedger(s) && ProcessorEnabled(c, s, a)
    ensures PushLedger(ProcessorStep(c, s, a))
  {
  }

  lemma ProcessorElsewhere(c: Setup, s: State, a: ProcessorAction)
    requires StreamLedger(s) && OutLedger(s) && ProcessorEnabled(c, s, a)
    ensures StreamLedger(ProcessorStep(c, s, a)) && OutLedger(ProcessorStep(c, s, a))
  {
  }

  lemma ProcessorLedger(c: Setup, s: State, a: ProcessorAction)
    requires Ledger(s) && ProcessorEnabled(c, s, a)
    ensures Ledger(ProcessorStep(c, s, a))
  {
    hide StreamLedger, PushLedger, OutLedger, ProcessorStep, ProcessorEnabled;
    ProcessorPushLedger(c, s, a);
    ProcessorElsewhere(c, s, a);
  }

  lemma ProcessorCounted(c: Setup, s: State, a: ProcessorAction)
    requires Counted(c, s) && ProcessorEnabled(c, s, a)
    ensures Counted(c, ProcessorStep(c, s, a))
  {
    ProcessorLedger(c, s, a);
    hide Ledger;
  }

  lemma FeederOutLedger(c: Setup, s: State, a: FeederAction)
    requires OutLedger(s) && FeederEnabled(c, s, a)
    ensures OutLedger(FeederStep(c, s, a))
  {
    hide BuildMessage;
  }

  /** What leaves the queue stays in the account of what went through Push. */
  lemma FeederFrame(c: Setup, s: State, a: FeederAction)
    requires FeederEnabled(c, s, a)
    ensures var s' := FeederStep(c, s, a);
            && s'.reader == s.reader && s'.grpcCh == s.grpcCh && s'.processor == s.processor
            && ThroughPush(s') == ThroughPush(s)
            && s'.log == s.log.(failed := s'.log.failed, skipped := s'.log.skipped, rejected := s'.log.rejected,
                                panicLost := s'.log.panicLost)
            && s'.count == s.count.(normalizeErrors := s'.count.normalizeErrors, outSuccess := s'.count.outSuccess,
                                    outFailed := s'.count.outFailed, outSkipped := s'.count.outSkipped)
  {
    hide BuildMessage;
  }

  lemma FeederElsewhere(c: Setup, s: State, a: FeederAction)
    requires StreamLedger(s) && PushLedger(s) && FeederEnabled(c, s, a)
    ensures StreamLedger(FeederStep(c, s, a)) && PushLedger(FeederStep(c, s, a))
  {
    hide FeederStep, FeederEnabled, ThroughPush;
    FeederFrame(c, s, a);
  }

  lemma FeederLedger(c: Setup, s: State, a: FeederAction)
    requires Ledger(s) && FeederEnabled(c, s, a)
    ensures Ledger(FeederStep(c, s, a))
  {
    hide StreamLedger, PushLedger, OutLedger, FeederStep, FeederEnabled;
    FeederOutLedger(c, s, a);
    FeederElsewhere(c, s, a);
  }

  lemma FeederCounted(c: Setup, s: State, a: FeederAction)
    requires Counted(c, s) && FeederEnabled(c, s, a)
    ensures Counted(c, FeederStep(c, s, a))
  {
    hide BuildMessage;
    FeederLedger(c, s, a);
    hide Ledger;
  }

  // ---------------------------------------------------------------------------------------------------------
  // Messages are built from their event

  predicate Built(c: Setup, m: Message) { m == BuildMessage(c, m.event, m.traceId) }

  predicate AllBuilt(c: Setup, s: State) {
    && (forall m | m in s.pool.accepted :: Built(c, m))
    && (s.feeder.Writing? ==> Built(c, s.feeder.m))
  }

  lemma FeederBuilt(c: Setup, s: State, a: FeederAction)
    requires AllBuilt(c, s) && FeederEnabled(c, s, a)
    ensures AllBuilt(c, FeederStep(c, s, a))
  {
  }

  // ---------------------------------------------------------------------------------------------------------
  // The invariant

  ghost predicate Sound(c: Setup, s: State) {
    && PoolInv(c.pool, s.pool)
    && InReceiveOrder(s)
    && (forall x :: Unplaced(s, x) == 0)
    && Counted(c, s)
    && AllBuilt(c, s)
  }

  lemma StartSound(c: Setup)
    requires ValidSetup(c)
    ensures Sound(c, Start(c))
  {
    InitInv(c.pool);
  }

  lemma ReaderSound(c: Setup, s: State, a: ReaderAction)
    requires Sound(c, s) && ReaderEnabled(c, s, a)
    ensures Sound(c, ReaderStep(c, s, a))
  {
    hide PoolInv, InReceiveOrder, Unplaced, Counted;
    ReaderOrder(c, s, a);
    ReaderCounted(c, s, a);
    forall x ensures Unplaced(ReaderStep(c, s, a), x) == 0 {
      ReaderPlaced(c, s, a, x);
    }
  }

  lemma ProcessorSound(c: Setup, s: State, a: ProcessorAction)
    requires Sound(c, s) && ProcessorEnabled(c, s, a)
    ensures Sound(c, ProcessorStep(c, s, a))
  {
    hide PoolInv, InReceiveOrder, Unplaced, Counted;
    ProcessorOrder(c, s, a);
    ProcessorCounted(c, s, a);
    forall x ensures Unplaced(ProcessorStep(c, s, a), x) == 0 {
      ProcessorPlaced(c, s, a, x);
    }
  }

  lemma FeederSound(c: Setup, s: State, a: FeederAction)
    requires ValidSetup(c) && Sound(c, s) && FeederEnabled(c, s, a)
    ensures Sound(c, FeederStep(c, s, a))
  {
    hide PoolInv, InReceiveOrder, Unplaced, Counted, AllBuilt, BuildMessage, WriteStep;
    FeederOrder(c, s, a);
    FeederCounted(c, s, a);
    FeederBuilt(c, s, a);
    if a.WriteMessage? {
      WriteInv(c.pool, s.pool, s.feeder.m);
    }
    forall x ensures Unplaced(FeederStep(c, s, a), x) == 0 {
      FeederPlaced(c, s, a, x);
    }
  }

  /** A step that only touches the pool's workers or its flags, or main's counter. */
  lemma QuietSound(c: Setup, s: State, s': State)
    requires Sound(c, s) && PoolInv(c.pool, s'.pool) && Phases(s')
    requires s' == s.(pool := s'.pool, main := s'.main)
    requires s'.pool.accepted == s.pool.accepted && s'.pool.drops == s.pool.drops
    requires s.pool.ctxDone ==> s'.pool.ctxDone
    ensures Sound(c, s')
  {
    hide PoolInv, Map, Chain, Subseq, Built, N, BuildMessage;
    QuietChain(s, s');
    forall x ensures Unplaced(s', x) == 0 {
      QuietPlaced(s, s', x);
    }
  }

  lemma QuietChain(s: State, s': State)
    requires s' == s.(pool := s'.pool, main := s'.main) && s'.pool.accepted == s.pool.accepted
    ensures Chain(s') == Chain(s)
  {
    hide Map, Row;
  }

  lemma QuietPlaced(s: State, s': State, x: Event)
    requires s' == s.(pool := s'.pool, main := s'.main) && s'.pool.accepted == s.pool.accepted
    ensures Unplaced(s', x) == Unplaced(s, x)
  {
    hide Map, N;
  }

  lemma MoveSound(c: Setup, s: State, m: Move)
    requires ValidSetup(c) && Sound(c, s) && MoveEnabled(c, s, m)
    ensures Sound(c, MoveStep(c, s, m))
  {
    hide Sound, PoolInv;
    match m
    case Read(r) => ReaderSound(c, s, r);
    case Handle(p) => ProcessorSound(c, s, p);
    case Feed(f) => FeederSound(c, s, f);
    case Pooled(id, w) => PooledSound(c, s, id, w);
    case Control(k) => MainSound(c, s, k);
  }

  lemma PooledSound(c: Setup, s: State, id: nat, w: Action)
    requires ValidSetup(c) && Sound(c, s) && PoolEnabled(s.pool, Work(id, w))
    ensures Sound(c, s.(pool := WorkStep(c.pool, s.pool, id, w)))
  {
    hide PoolInv, InReceiveOrder, Unplaced, AllBuilt, Step, Ledger;
    WorkInv(c.pool, s.pool, id, w);
    QuietSound(c, s, s.(pool := WorkStep(c.pool, s.pool, id, w)));
  }

  lemma MainSound(c: Setup, s: State, k: MainAction)
    requires ValidSetup(c) && Sound(c, s) && MainEnabled(s, k)
    ensures Sound(c, MainStep(s, k))
  {
    hide PoolInv, InReceiveOrder, Unplaced, AllBuilt, Ledger;
    FlagInv(c.pool, s.pool, Cancel);
    FlagInv(c.pool, s.pool, Close);
    QuietSound(c, s, MainStep(s, k));
  }

  lemma {:induction false} RunSound(c: Setup, moves: seq<Move>)
    requires ValidSetup(c) && IsRun(c, moves)
    ensures Sound(c, Reached(c, moves))
  {
    hide Sound;
    if moves == [] {
      StartSound(c);
    } else {
      RunSound(c, moves[..|moves| - 1]);
      MoveSound(c, Reached(c, moves[..|moves| - 1]), moves[|moves| - 1]);
    }
  }
}
