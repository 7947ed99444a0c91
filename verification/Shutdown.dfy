// cmd/consumer/main.go: the shutdown sequence, for every run of every setup. When closing the writer can panic, when
// everything comes to an end, and what is lost on the way.
module Shutdown {
  import opened Events
  import opened Wrappers
  import opened Worker
  import opened Pool
  import opened Pipeline
  import opened PipelineProofs
  import Adapter

  // ---------------------------------------------------------------------------------------------------------
  // Waiting for writeToKafka before Close is safe

  lemma StepPanic(c: Setup, s: State, m: Move)
    requires MoveEnabled(c, s, m)
    ensures MoveStep(c, s, m).pool.panicked <==> s.pool.panicked || (m == Feed(WriteMessage) && s.pool.closed)
  {
  }

  /** Close is taken only once writeToKafka has returned. */
  ghost predicate GuardedClose(c: Setup, moves: seq<Move>)
    requires IsRun(c, moves)
  {
    moves == [] ||
    (GuardedClose(c, moves[..|moves| - 1]) &&
     (Reached(c, moves).pool.closed && !Reached(c, moves[..|moves| - 1]).pool.closed
      ==> Reached(c, moves[..|moves| - 1]).feeder.FeederStopped?))
  }

  lemma StoppedStays(c: Setup, s: State, m: Move)
    requires MoveEnabled(c, s, m)
    ensures s.feeder.FeederStopped? ==> MoveStep(c, s, m).feeder.FeederStopped?
    ensures s.feeder.FeederStopped? ==> m != Feed(WriteMessage)
  {
  }

  /** With that guard no run panics. */
  lemma {:induction false} GuardedCloseIsSafe(c: Setup, moves: seq<Move>)
    requires IsRun(c, moves) && GuardedClose(c, moves)
    ensures var s := Reached(c, moves); !s.pool.panicked && (s.pool.closed ==> s.feeder.FeederStopped?)
  {
    if moves != [] {
      var front, m := moves[..|moves| - 1], moves[|moves| - 1];
      GuardedCloseIsSafe(c, front);
      StepPanic(c, Reached(c, front), m);
      StoppedStays(c, Reached(c, front), m);
      CloseLeavesFeeder(c, Reached(c, front), m);
    }
  }

  lemma CloseLeavesFeeder(c: Setup, s: State, m: Move)
    requires MoveEnabled(c, s, m)
    ensures MoveStep(c, s, m).pool.closed && !s.pool.closed ==> MoveStep(c, s, m).feeder == s.feeder
  {
  }

  lemma Extend(c: Setup, moves: seq<Move>, m: Move)
    requires IsRun(c, moves) && MoveEnabled(c, Reached(c, moves), m)
    ensures IsRun(c, moves + [m]) && Reached(c, moves + [m]) == MoveStep(c, Reached(c, moves), m)
  {
    assert (moves + [m])[..|moves|] == moves;
  }

  // ---------------------------------------------------------------------------------------------------------
  // Exactly when closing the writer can lead to a send on the closed channel

  /** An event can still come to the queue after cancellation. */
  predicate EventCanArrive(c: Setup, s: State) {
    || s.queue != []
    || s.processor.Pushing?
    || (c.sampleRatio > 0.0 &&
          (s.processor.Sampling?
           || (!s.processor.ProcessorStopped? && (s.grpcCh != [] || s.reader.Receiving? || s.reader.Holding?))))
  }

  /** writeToKafka can still come to Write after cancellation. */
  predicate CanStillWrite(c: Setup, s: State) {
    || s.feeder.Writing?
    || (c.kafkaUp &&
          (s.feeder.Normalizing? || ((s.feeder.Popping? || s.feeder.CountingOut?) && EventCanArrive(c, s))))
  }

  lemma StaysUnable(c: Setup, s: State, m: Move)
    requires MoveEnabled(c, s, m) && s.pool.ctxDone && !CanStillWrite(c, s)
    ensures MoveStep(c, s, m).pool.ctxDone && !CanStillWrite(c, MoveStep(c, s, m)) && m != Feed(WriteMessage)
  {
    hide BuildMessage, Step, Emitted;
  }

  /** How far writeToKafka is from its next Write. */
  function Distance(s: State): nat {
    match s.feeder
    case Writing(_) => 0
    case Normalizing(_) => 1
    case Popping => 2 + ArrivalDistance(s)
    case _ => 3 + ArrivalDistance(s)
  }

  function ArrivalDistance(s: State): nat {
    if s.queue != [] then 0
    else if s.processor.Pushing? then 1
    else if s.processor.Sampling? then 2
    else (if s.grpcCh != [] then 3 else if s.reader.Holding? then 4 else 5) + (if s.processor.CountingIn? then 1 else 0)
  }

  const SOME_EVENT := Event("", Other, None, "")

  /** The move that brings an event nearer to Write. */
  function NextMove(s: State): Move {
    match s.feeder
    case Writing(_) => Feed(WriteMessage)
    case Normalizing(_) => Feed(Prepare(""))
    case Popping =>
      if s.queue != [] then Feed(Pop)
      else if s.processor.Pushing? then Handle(PushOk)
      else if s.processor.Sampling? then Handle(Sample(0.0))
      else if s.processor.CountingIn? then Handle(CountIn)
      else if s.grpcCh != [] then Handle(Take)
      else if s.reader.Holding? then Read(SendEvent)
      else Read(Recv(SOME_EVENT))
    case _ => Feed(CountOut)
  }

  lemma NextMoveAdvances(c: Setup, s: State)
    requires c.maxQueue > 0 && CanStillWrite(c, s) && !s.feeder.Writing?
    ensures MoveEnabled(c, s, NextMove(s))
    ensures var s' := MoveStep(c, s, NextMove(s));
            CanStillWrite(c, s') && Distance(s') < Distance(s) && s'.pool == s.pool
  {
    hide BuildMessage;
  }

  /** As long as it can, writeToKafka may come to a Write before any worker or main does anything more. */
  lemma {:induction false} WriteFollows(c: Setup, moves: seq<Move>) returns (more: seq<Move>)
    requires c.maxQueue > 0 && IsRun(c, moves) && CanStillWrite(c, Reached(c, moves))
    ensures IsRun(c, moves + more)
    ensures Reached(c, moves + more).feeder.Writing? && Reached(c, moves + more).pool == Reached(c, moves).pool
    decreases Distance(Reached(c, moves))
  {
    hide MoveStep, MoveEnabled, CanStillWrite, NextMove, Distance, IsRun, Reached;
    var s := Reached(c, moves);
    more := [];
    assert moves + more == moves;
    if !s.feeder.Writing? {
      var m := NextMove(s);
      NextMoveAdvances(c, s);
      Extend(c, moves, m);
      var rest := WriteFollows(c, moves + [m]);
      more := [m] + rest;
      assert moves + [m] + rest == moves + more;
    }
  }

  predicate PanicsAfter(c: Setup, moves: seq<Move>, more: seq<Move>) {
    IsRun(c, moves + more) && Reached(c, moves + more).pool.panicked
  }

  predicate ClosedUnharmed(s: State) { s.pool.closed && s.pool.ctxDone && !s.pool.panicked }

  lemma {:induction false} NeverPanics(c: Setup, moves: seq<Move>, more: seq<Move>)
    requires IsRun(c, moves) && IsRun(c, moves + more)
    requires Reached(c, moves).pool.ctxDone && !Reached(c, moves).pool.panicked && !CanStillWrite(c, Reached(c, moves))
    ensures var s := Reached(c, moves + more); s.pool.ctxDone && !s.pool.panicked && !CanStillWrite(c, s)
    decreases |more|
  {
    hide MoveStep, MoveEnabled, CanStillWrite;
    if more == [] {
      assert moves + more == moves;
    } else {
      var n := |more| - 1;
      assert (moves + more)[..|moves + more| - 1] == moves + more[..n];
      NeverPanics(c, moves, more[..n]);
      StaysUnable(c, Reached(c, moves + more[..n]), more[n]);
      StepPanic(c, Reached(c, moves + more[..n]), more[n]);
    }
  }

  lemma PanicFollows(c: Setup, moves: seq<Move>) returns (more: seq<Move>)
    requires c.maxQueue > 0 && IsRun(c, moves) && Reached(c, moves).pool.closed && CanStillWrite(c, Reached(c, moves))
    ensures PanicsAfter(c, moves, more)
  {
    hide CanStillWrite, IsRun, Reached;
    more := WriteFollows(c, moves);
    Extend(c, moves + more, Feed(WriteMessage));
    assert moves + more + [Feed(WriteMessage)] == moves + (more + [Feed(WriteMessage)]);
    more := more + [Feed(WriteMessage)];
  }

  /** The move that closes the writer: the second look at the empty queue, or the timeout. */
  predicate Closes(c: Setup, s: State, m: Move) {
    MoveEnabled(c, s, m) && !s.pool.closed && MoveStep(c, s, m).pool.closed
  }

  lemma ClosingKeeps(c: Setup, s: State, m: Move)
    requires Closes(c, s, m) && Phases(s)
    ensures ClosedUnharmed(MoveStep(c, s, m))
    ensures CanStillWrite(c, MoveStep(c, s, m)) <==> CanStillWrite(c, s)
  {
    hide BuildMessage, Step, Emitted;
  }

  /** Closing the writer can lead to a send on the closed channel if and only if, at that moment, writeToKafka can
      still come to a Write. */
  lemma PanicsAfterCloseIff(c: Setup, moves: seq<Move>, m: Move)
    requires ValidSetup(c) && IsRun(c, moves) && Closes(c, Reached(c, moves), m)
    ensures IsRun(c, moves + [m])
    ensures (exists more :: PanicsAfter(c, moves + [m], more)) <==> CanStillWrite(c, Reached(c, moves))
  {
    hide PoolInv, InReceiveOrder, Unplaced, AllBuilt, Ledger, MoveStep, MoveEnabled, CanStillWrite, SilentLosses;
    var s := Reached(c, moves);
    RunSound(c, moves);
    Extend(c, moves, m);
    ClosingKeeps(c, s, m);
    if CanStillWrite(c, s) {
      var more := PanicFollows(c, moves + [m]);
    } else {
      forall more | PanicsAfter(c, moves + [m], more) ensures false {
        NeverPanics(c, moves + [m], more);
      }
    }
  }

  /** Main's guard, the queue seen empty twice, does not decide that condition: it is taken in any state that drains
      with an empty queue, and then the panic is possible exactly when writeToKafka can still come to a Write, for
      instance with an event between Pop and Write. */
  lemma EmptyQueueIsNoGuard(c: Setup, moves: seq<Move>)
    requires ValidSetup(c) && IsRun(c, moves)
    requires var s := Reached(c, moves); s.main.Draining? && s.queue == []
    ensures var closing := moves + [Control(PollEmpty)] + [Control(Recheck)];
            && IsRun(c, closing) && Reached(c, closing).main.WriterClosed?
            && ((exists more :: PanicsAfter(c, closing, more)) <==> CanStillWrite(c, Reached(c, moves)))
  {
    hide PoolInv, InReceiveOrder, Unplaced, AllBuilt, Ledger, SilentLosses;
    RunSound(c, moves);
    Extend(c, moves, Control(PollEmpty));
    Extend(c, moves + [Control(PollEmpty)], Control(Recheck));
    PanicsAfterCloseIff(c, moves + [Control(PollEmpty)], Control(Recheck));
  }

  /** One event travels from the stream to writeToKafka's hand. */
  lemma OneEventToHand(c: Setup, e: Event, traceId: string) returns (moves: seq<Move>)
    requires ValidSetup(c) && c.kafkaUp && c.sampleRatio > 0.0
    ensures IsRun(c, moves)
    ensures var s := Reached(c, moves);
            && s.reader == AtTop && s.grpcCh == [] && s.processor == Waiting && s.queue == []
            && s.feeder == Writing(BuildMessage(c, e, traceId)) && s.main == Serving && s.pool == Init(c.pool)
            && s.log.received == [e]
  {
    hide BuildMessage, Init;
    moves := OneEventToQueue(c, e);
    Extend(c, moves, Feed(Pop));
    moves := moves + [Feed(Pop)];
    Extend(c, moves, Feed(Prepare(traceId)));
    moves := moves + [Feed(Prepare(traceId))];
  }

  lemma OneEventToQueue(c: Setup, e: Event) returns (moves: seq<Move>)
    requires ValidSetup(c) && c.sampleRatio > 0.0
    ensures IsRun(c, moves)
    ensures var s := Reached(c, moves);
            && s.reader == AtTop && s.grpcCh == [] && s.processor == Waiting && s.queue == [e]
            && s.feeder == Popping && s.main == Serving && s.pool == Init(c.pool) && s.log.received == [e]
  {
    hide Init;
    moves := OneEventToChannel(c, e);
    Extend(c, moves, Handle(Take));
    moves := moves + [Handle(Take)];
    Extend(c, moves, Handle(Sample(0.0)));
    moves := moves + [Handle(Sample(0.0))];
    Extend(c, moves, Handle(PushOk));
    moves := moves + [Handle(PushOk)];
    Extend(c, moves, Handle(CountIn));
    moves := moves + [Handle(CountIn)];
  }

  lemma OneEventToChannel(c: Setup, e: Event) returns (moves: seq<Move>)
    requires ValidSetup(c)
    ensures IsRun(c, moves)
    ensures var s := Reached(c, moves);
            && s.reader == AtTop && s.grpcCh == [e] && s.processor == Waiting && s.queue == []
            && s.feeder == Popping && s.main == Serving && s.pool == Init(c.pool) && s.log.received == [e]
  {
    InitFlags(c.pool);
    hide Init;
    moves := [];
    Extend(c, moves, Read(Connect));
    moves := moves + [Read(Connect)];
    Extend(c, moves, Read(TopOk));
    moves := moves + [Read(TopOk)];
    Extend(c, moves, Read(Recv(e)));
    moves := moves + [Read(Recv(e))];
    Extend(c, moves, Read(SendEvent));
    moves := moves + [Read(SendEvent)];
  }

  lemma InitFlags(c: PoolConfig)
    ensures var p := Init(c);
            && !p.ctxDone && !p.closed && !p.panicked && p.ch == [] && p.accepted == [] && p.input == []
            && |p.workers| == c.workers
            && forall j | 0 <= j < c.workers :: p.workers[j] == FRESH
  {
  }

  /** Whatever the configuration, as long as Kafka is up and something is sampled, some run panics during shutdown. */
  lemma SomeShutdownPanics(c: Setup, e: Event) returns (moves: seq<Move>)
    requires ValidSetup(c) && c.kafkaUp && c.sampleRatio > 0.0
    ensures IsRun(c, moves) && Reached(c, moves).pool.panicked && Reached(c, moves).log.panicLost == [e]
  {
    InitFlags(c.pool);
    hide BuildMessage, Init;
    moves := OneEventToHand(c, e, "");
    Extend(c, moves, Control(Signal));
    moves := moves + [Control(Signal)];
    Extend(c, moves, Control(PollEmpty));
    moves := moves + [Control(PollEmpty)];
    Extend(c, moves, Control(Recheck));
    moves := moves + [Control(Recheck)];
    RunSoundLosses(c, moves);
    BuiltFrom(c, e, "");
    assert Reached(c, moves).log.panicLost == [];
    Extend(c, moves, Feed(WriteMessage));
    moves := moves + [Feed(WriteMessage)];
  }

  lemma RunSoundLosses(c: Setup, moves: seq<Move>)
    requires ValidSetup(c) && IsRun(c, moves)
    ensures !Reached(c, moves).pool.panicked ==> Reached(c, moves).log.panicLost == []
  {
    hide PoolInv, InReceiveOrder, Unplaced, AllBuilt, Ledger;
    RunSound(c, moves);
  }

  /** Every goroutine has returned; writeToKafka may have done so by the recovered panic. */
  predicate Quiescent(s: State) {
    && s.reader.ReaderStopped? && s.processor.ProcessorStopped? && AllExited(s.pool) && s.main.WriterClosed?
    && (s.feeder.FeederStopped? || s.feeder.FeederPanicked?)
  }

  /** After cancellation every idle worker may return at once, whatever is in the channel. */
  lemma {:induction false} WorkersLeave(c: Setup, moves: seq<Move>, k: nat) returns (more: seq<Move>)
    requires IsRun(c, moves) && k <= |Reached(c, moves).pool.workers|
    requires var p := Reached(c, moves).pool;
             p.ctxDone && forall j | 0 <= j < |p.workers| :: p.workers[j] == FRESH
    ensures IsRun(c, moves + more)
    ensures var s, s' := Reached(c, moves), Reached(c, moves + more);
            && s' == s.(pool := s.pool.(workers := s'.pool.workers))
            && |s'.pool.workers| == |s.pool.workers|
            && (forall j | 0 <= j < k :: s'.pool.workers[j].pc.Exited?)
            && (forall j | k <= j < |s.pool.workers| :: s'.pool.workers[j] == FRESH)
  {
    hide Reached, IsRun, Step, Emitted;
    if k == 0 {
      more := [];
      assert moves + more == moves;
    } else {
      more := WorkersLeave(c, moves, k - 1);
      var m := Pooled(k - 1, ContextDone);
      var s := Reached(c, moves + more);
      FreshLeaves(c.pool.maxMessages);
      Extend(c, moves + more, m);
      assert s.pool.input + [] == s.pool.input;
      assert (moves + more) + [m] == moves + (more + [m]);
      more := more + [m];
    }
  }

  lemma FreshLeaves(maxMessages: nat)
    ensures Enabled(FRESH, ContextDone) && Step(maxMessages, FRESH, ContextDone).pc.Exited?
    ensures Emitted(FRESH, ContextDone) == []
  {
  }

  /** README.md promises that graceful shutdown loses nothing. For every configuration there is a run in which a
      message counted as written successfully stays behind in the channel when every goroutine has returned. */
  lemma ShutdownCanLose(c: Setup, e: Event) returns (moves: seq<Move>)
    requires ValidSetup(c) && c.kafkaUp && c.sampleRatio > 0.0
    ensures IsRun(c, moves)
    ensures var s := Reached(c, moves);
            && Quiescent(s) && s.count.outSuccess == 1 && s.pool.input == []
            && s.pool.ch == s.pool.accepted == [BuildMessage(c, e, "")]
  {
    hide BuildMessage, Init;
    InitFlags(c.pool);
    moves := AcceptedThenSignal(c, e);
    var more := WorkersLeave(c, moves, c.pool.workers);
    moves := moves + more;
    moves := EveryoneStops(c, moves);
  }

  lemma AcceptedThenSignal(c: Setup, e: Event) returns (moves: seq<Move>)
    requires ValidSetup(c) && c.kafkaUp && c.sampleRatio > 0.0
    ensures IsRun(c, moves)
    ensures var s := Reached(c, moves);
            && s.reader == AtTop && s.processor == Waiting && s.feeder == Popping && s.queue == [] && s.main == Draining
            && s.count.outSuccess == 1
            && s.pool == Init(c.pool).(ch := [BuildMessage(c, e, "")], accepted := [BuildMessage(c, e, "")],
                                       ctxDone := true)
  {
    hide BuildMessage, Init;
    InitFlags(c.pool);
    moves := OneEventToHand(c, e, "");
    NoSuccessYet(c, moves);
    CapacityPositive(c.pool);
    Extend(c, moves, Feed(WriteMessage));
    moves := moves + [Feed(WriteMessage)];
    Extend(c, moves, Feed(CountOut));
    moves := moves + [Feed(CountOut)];
    Extend(c, moves, Control(Signal));
    moves := moves + [Control(Signal)];
  }

  lemma CapacityPositive(c: PoolConfig)
    requires ValidConfig(c)
    ensures Capacity(c) > 0
  {
  }

  lemma NoSuccessYet(c: Setup, moves: seq<Move>)
    requires ValidSetup(c) && IsRun(c, moves)
    ensures Reached(c, moves).pool.accepted == [] ==> Reached(c, moves).count.outSuccess == 0
  {
    hide PoolInv, InReceiveOrder, Unplaced, AllBuilt;
    RunSound(c, moves);
  }

  lemma EveryoneStops(c: Setup, before: seq<Move>) returns (moves: seq<Move>)
    requires IsRun(c, before)
    requires var s := Reached(c, before);
             && s.reader == AtTop && s.processor == Waiting && s.feeder == Popping && s.queue == []
             && s.main == Draining
             && s.pool.ctxDone && AllExited(s.pool)
    ensures IsRun(c, moves) && Quiescent(Reached(c, moves))
    ensures Reached(c, moves).pool == Reached(c, before).pool.(closed := true)
    ensures Reached(c, moves).count == Reached(c, before).count
  {
    moves := before;
    Extend(c, moves, Read(TopCancelled));
    moves := moves + [Read(TopCancelled)];
    Extend(c, moves, Read(GiveUp));
    moves := moves + [Read(GiveUp)];
    Extend(c, moves, Handle(StopProcessor));
    moves := moves + [Handle(StopProcessor)];
    Extend(c, moves, Feed(StopFeeder));
    moves := moves + [Feed(StopFeeder)];
    Extend(c, moves, Control(PollEmpty));
    moves := moves + [Control(PollEmpty)];
    Extend(c, moves, Control(Recheck));
    moves := moves + [Control(Recheck)];
  }

  /** What shutdown leaves behind: when every goroutine has returned, nothing is in anyone's hands, and each received
      event that did not reach Write is in one of the drop lists, still in a channel, or the one whose Write
      panicked. */
  lemma QuiescentAccounting(c: Setup, moves: seq<Move>, x: Event, m: Message)
    requires ValidSetup(c) && IsRun(c, moves) && Quiescent(Reached(c, moves))
    ensures var s := Reached(c, moves);
            N(s.log.received, x) - N(Accepted(s), x)
            == N(s.log.streamDropped, x) + N(s.log.sampledOut, x) + N(s.log.queueDropped, x) + N(s.log.failed, x)
               + N(s.log.skipped, x) + N(s.log.rejected, x)
               + (N(s.grpcCh, x) + N(s.queue, x) + N(s.log.cancelLost, x) + N(s.log.pushCancelled, x)
                  + N(s.log.panicLost, x))
    ensures var p := Reached(c, moves).pool;
            Count(p.accepted, m) + Total(Resent, p.workers, m)
            == Count(Messages(p.input), m) + Total(CountedLost, p.workers, m)
               + (Count(p.ch, m) + Total(SilentlyLost, p.workers, m) + Total(Missed, p.workers, m))
  {
    hide PoolInv, InReceiveOrder, Ledger, AllBuilt, N, Accepted, Count, Messages, Total, Unplaced;
    Adapter.NothingVanishes(c, moves, x, m);
    RunSound(c, moves);
    EmptyCount(x);
    ExitedHeld(Reached(c, moves).pool.workers, m);
  }

  // ---------------------------------------------------------------------------------------------------------
  // Everything comes to an end

  function ReaderWeight(r: Reader): nat {
    match r
    case ReaderStopped => 0
    case Disconnected => 1
    case AtTop => 2
    case Holding(_) => 18
    case Receiving => 19
  }

  function ProcessorWeight(p: Processor): nat {
    match p
    case ProcessorStopped => 0
    case Waiting => 1
    case CountingIn => 2
    case Pushing(_) => 14
    case Sampling(_) => 15
  }

  function FeederWeight(f: Feeder): nat {
    match f
    case FeederStopped | FeederPanicked => 0
    case Popping => 1
    case CountingOut(_) => 2
    case Writing(_) => 8
    case Normalizing(_) => 9
  }

  function MainWeight(m: Main, queueEmpty: bool): nat {
    match m
    case Serving => 3
    case Draining => if queueEmpty then 2 else 1
    case SawEmpty => if queueEmpty then 1 else 2
    case WriterClosed => 0
  }

  /** What is left to do once the context is cancelled. */
  function Work(s: State): nat {
    ReaderWeight(s.reader) + 15 * |s.grpcCh| + ProcessorWeight(s.processor) + 10 * |s.queue| + FeederWeight(s.feeder)
    + MainWeight(s.main, s.queue == []) + Measure(s.pool)
  }

  /** A worker's tick on an empty batch. */
  predicate Idles(s: State, m: Move) {
    m.Pooled? && m.id < |s.pool.workers| && Stutters(s.pool.workers[m.id], m.w)
  }

  lemma FeederWorks(c: Setup, s: State, a: FeederAction)
    requires FeederEnabled(c, s, a)
    ensures Work(FeederStep(c, s, a)) < Work(s)
  {
    hide BuildMessage, WorkersMeasure;
  }

  lemma ReaderWorks(c: Setup, s: State, a: ReaderAction)
    requires s.pool.ctxDone && ReaderEnabled(c, s, a)
    ensures Work(ReaderStep(c, s, a)) < Work(s)
  {
    hide Measure;
  }

  lemma ProcessorWorks(c: Setup, s: State, a: ProcessorAction)
    requires ProcessorEnabled(c, s, a)
    ensures Work(ProcessorStep(c, s, a)) < Work(s)
  {
    hide Measure;
  }

  lemma MainWorks(s: State, a: MainAction)
    requires MainEnabled(s, a)
    ensures Work(MainStep(s, a)) < Work(s)
  {
    hide WorkersMeasure;
  }

  lemma MoveWorks(c: Setup, s: State, m: Move)
    requires s.pool.ctxDone && MoveEnabled(c, s, m) && !m.Pooled?
    ensures Work(MoveStep(c, s, m)) < Work(s)
  {
    hide Work, ReaderStep, ProcessorStep, FeederStep, MainStep;
    match m
    case Read(r) => ReaderWorks(c, s, r);
    case Handle(p) => ProcessorWorks(c, s, p);
    case Feed(f) => FeederWorks(c, s, f);
    case Control(k) => MainWorks(s, k);
  }

  /** After cancellation every move of every goroutine, whatever it is, leaves less to do, except the idle ticks, which
      change nothing. */
  lemma EveryMoveWorks(c: Setup, s: State, m: Move)
    requires ValidSetup(c) && WorkersOk(c.pool, s.pool) && s.pool.ctxDone && MoveEnabled(c, s, m)
    ensures if Idles(s, m) then MoveStep(c, s, m) == s else Work(MoveStep(c, s, m)) < Work(s)
  {
    hide WorkersOk, Measure, WorkStep, Stutters;
    if m.Pooled? {
      EveryStepCounts(c.pool, s.pool, m.id, m.w);
    } else {
      MoveWorks(c, s, m);
    }
  }

  /** A continuation without idle ticks. */
  predicate Busy(c: Setup, moves: seq<Move>, more: seq<Move>)
    requires IsRun(c, moves)
  {
    more == [] ||
    (var front := more[..|more| - 1];
     Busy(c, moves, front) && IsRun(c, moves + front) && !Idles(Reached(c, moves + front), more[|more| - 1]))
  }

  lemma ContextStaysDone(c: Setup, s: State, m: Move)
    requires MoveEnabled(c, s, m)
    ensures s.pool.ctxDone ==> MoveStep(c, s, m).pool.ctxDone
    ensures s.pool.closed ==> MoveStep(c, s, m).pool.closed
  {
    hide BuildMessage, Step, Emitted;
  }

  /** So no schedule keeps the adapter busy for ever after cancellation. */
  lemma {:induction false} BusyIsBounded(c: Setup, moves: seq<Move>, more: seq<Move>)
    requires ValidSetup(c) && IsRun(c, moves) && Reached(c, moves).pool.ctxDone
    requires IsRun(c, moves + more) && Busy(c, moves, more)
    ensures Reached(c, moves + more).pool.ctxDone
    ensures |more| + Work(Reached(c, moves + more)) <= Work(Reached(c, moves))
    decreases |more|
  {
    hide Work, MoveStep, MoveEnabled, PoolInv, Idles, InReceiveOrder, Unplaced, Counted, AllBuilt;
    if more == [] {
      assert moves + more == moves;
    } else {
      var n := |more| - 1;
      assert (moves + more)[..|moves + more| - 1] == moves + more[..n];
      BusyIsBounded(c, moves, more[..n]);
      RunSound(c, moves + more[..n]);
      PoolWorkers(c.pool, Reached(c, moves + more[..n]).pool);
      EveryMoveWorks(c, Reached(c, moves + more[..n]), more[n]);
      ContextStaysDone(c, Reached(c, moves + more[..n]), more[n]);
    }
  }

  lemma PoolWorkers(c: PoolConfig, p: Pool)
    requires PoolInv(c, p)
    ensures WorkersOk(c, p)
  {
  }

  /** The next move of a goroutine that gives up what it has as fast as it can. */
  function FinishMove(s: State): Move {
    if !s.reader.ReaderStopped? then
      match s.reader
      case Receiving => Read(RecvFailed)
      case Holding(_) => Read(SendGivenUp)
      case AtTop => Read(TopCancelled)
      case _ => Read(GiveUp)
    else if !s.processor.ProcessorStopped? then
      match s.processor
      case Sampling(_) => Handle(Sample(0.0))
      case CountingIn => Handle(CountIn)
      case Pushing(_) => Handle(PushOk)
      case _ => Handle(StopProcessor)
    else if !(s.feeder.FeederStopped? || s.feeder.FeederPanicked?) then
      match s.feeder
      case Normalizing(_) => Feed(NormalizeError)
      case Writing(_) => Feed(WriteMessage)
      case CountingOut(_) => Feed(CountOut)
      case _ => Feed(StopFeeder)
    else if s.main.SawEmpty? then Control(Recheck)
    else Control(DrainTimeout)
  }

  /** A push into the full queue is dropped or given up. */
  function FinishMoveAt(c: Setup, s: State): Move {
    var m := FinishMove(s);
    if m != Handle(PushOk) || |s.queue| < c.maxQueue then m
    else if c.dropIfQueueFull then Handle(PushDropped)
    else Handle(PushGivenUp)
  }

  lemma FinishMoveReady(c: Setup, s: State)
    requires s.pool.ctxDone && Phases(s) && AllExited(s.pool) && !Quiescent(s)
    ensures MoveEnabled(c, s, FinishMoveAt(c, s)) && !FinishMoveAt(c, s).Pooled?
  {
    hide AllExited;
  }

  lemma QuietMove(c: Setup, s: State, m: Move)
    requires MoveEnabled(c, s, m) && (m.Pooled? ==> Emitted(s.pool.workers[m.id], m.w) == [])
    ensures MoveStep(c, s, m).pool.input == s.pool.input
    ensures s.pool.accepted <= MoveStep(c, s, m).pool.accepted
  {
    hide BuildMessage, Step, Emitted;
    assert s.pool.input + [] == s.pool.input;
  }

  /** After cancellation, as long as some goroutine lives, some move that is no idle tick is ready, and one that hands
      nothing to Input. */
  lemma NeverStuck(c: Setup, s: State) returns (m: Move)
    requires ValidSetup(c) && WorkersOk(c.pool, s.pool) && Phases(s) && s.pool.ctxDone && !Quiescent(s)
    ensures MoveEnabled(c, s, m) && !Idles(s, m)
    ensures m.Pooled? ==> Emitted(s.pool.workers[m.id], m.w) == []
  {
    hide WorkersOk, Stutters, Emitted, AllExited, FinishMoveAt, Phases;
    if AllExited(s.pool) {
      FinishMoveReady(c, s);
      m := FinishMoveAt(c, s);
    } else {
      var id, a := SilentStep(c.pool, s.pool);
      m := Pooled(id, a);
    }
  }

  /** A continuation that ends with every goroutine returned. */
  predicate Finishes(c: Setup, moves: seq<Move>, more: seq<Move>) {
    IsRun(c, moves + more) && Quiescent(Reached(c, moves + more))
  }

  /** From every state after cancellation the whole adapter can return, even without handing anything more to Input. */
  lemma {:induction false} SomeFinish(c: Setup, moves: seq<Move>) returns (more: seq<Move>)
    requires ValidSetup(c) && IsRun(c, moves) && Reached(c, moves).pool.ctxDone
    ensures Finishes(c, moves, more)
    ensures var p, p' := Reached(c, moves).pool, Reached(c, moves + more).pool;
            p'.input == p.input && p.accepted <= p'.accepted
    decreases Work(Reached(c, moves))
  {
    hide Work, MoveStep, MoveEnabled, IsRun, Reached, Quiescent, PoolInv, Idles, InReceiveOrder, Unplaced, Ledger,
         SilentLosses, AllBuilt, Emitted, Phases;
    var s := Reached(c, moves);
    more := [];
    assert moves + more == moves;
    if !Quiescent(s) {
      RunSound(c, moves);
      PoolWorkers(c.pool, s.pool);
      var m := NeverStuck(c, s);
      EveryMoveWorks(c, s, m);
      QuietMove(c, s, m);
      ContextStaysDone(c, s, m);
      Extend(c, moves, m);
      var rest := SomeFinish(c, moves + [m]);
      more := [m] + rest;
      assert moves + [m] + rest == moves + more;
    }
  }

  // ---------------------------------------------------------------------------------------------------------
  // Exactly when shutdown loses nothing that Write accepts

  /** Between p and the end, Input got exactly what was in the channel and in the workers' hands, and what was accepted
      since. */
  ghost predicate KeepsAll(p: Pool, end: Pool) {
    multiset(Messages(end.input)) + multiset(p.accepted)
    == multiset(Messages(p.input)) + multiset(p.ch) + multiset(AllHeld(p.workers)) + multiset(end.accepted)
  }

  /** A continuation that ends with all workers returned. */
  predicate WorkersReturn(c: Setup, moves: seq<Move>, more: seq<Move>) {
    IsRun(c, moves + more) && AllExited(Reached(c, moves + more).pool)
  }

  /** Nothing in the channel or in a batch, and nothing on its way to a Write. */
  predicate NothingToLose(c: Setup, s: State) {
    NothingHeld(s.pool) && (s.pool.closed || !CanStillWrite(c, s))
  }

  predicate Spent(c: Setup, s: State) {
    s.pool.ctxDone && NothingToLose(c, s) && NoneDeadLettering(s.pool)
  }

  lemma StaysSpent(c: Setup, s: State, m: Move)
    requires MoveEnabled(c, s, m) && Spent(c, s)
    ensures Spent(c, MoveStep(c, s, m))
    ensures var p := MoveStep(c, s, m).pool; p.input == s.pool.input && p.accepted == s.pool.accepted
  {
    hide BuildMessage, Step, Held, Emitted, CanStillWrite;
    if !s.pool.closed {
      StaysUnable(c, s, m);
    }
    ContextStaysDone(c, s, m);
    if m.Pooled? {
      QuietStep(c.pool, s.pool, true, m.id, m.w);
      IdleStep(c.pool.maxMessages, s.pool.workers[m.id], m.w);
      IdleEmits(s.pool.workers[m.id], m.w);
    }
  }

  lemma IdleEmits(w: Worker, a: Action)
    requires Enabled(w, a) && Held(w) == [] && !w.pc.DeadLettering?
    ensures Emitted(w, a) == []
  {
  }

  lemma {:induction false} StaysSpentLong(c: Setup, moves: seq<Move>, more: seq<Move>)
    requires IsRun(c, moves) && IsRun(c, moves + more) && Spent(c, Reached(c, moves))
    ensures Spent(c, Reached(c, moves + more))
    ensures var p, p' := Reached(c, moves).pool, Reached(c, moves + more).pool;
            p'.input == p.input && p'.accepted == p.accepted
    decreases |more|
  {
    hide MoveStep, MoveEnabled, Spent;
    if more == [] {
      assert moves + more == moves;
    } else {
      var n := |more| - 1;
      assert (moves + more)[..|moves + more| - 1] == moves + more[..n];
      StaysSpentLong(c, moves, more[..n]);
      StaysSpent(c, Reached(c, moves + more[..n]), more[n]);
    }
  }

  lemma {:induction false} NothingHeldSum(ws: seq<Worker>)
    requires forall j | 0 <= j < |ws| :: Held(ws[j]) == []
    ensures AllHeld(ws) == []
  {
    if ws != [] {
      NothingHeldSum(ws[..|ws| - 1]);
    }
  }

  lemma SpentKeepsAll(p: Pool, end: Pool)
    requires NothingHeld(p) && end.input == p.input && end.accepted == p.accepted
    ensures KeepsAll(p, end)
  {
    hide Held, Messages;
    NothingHeldSum(p.workers);
  }

  lemma KeptLength(p: Pool, end: Pool)
    requires KeepsAll(p, end)
    ensures |end.input| + |p.accepted| == |p.input| + |p.ch| + HeldTotal(p.workers) + |end.accepted|
  {
    MessagesLength(p.input);
    MessagesLength(end.input);
    AllHeldLength(p.workers);
    assert |multiset(Messages(end.input)) + multiset(p.accepted)| == |end.input| + |p.accepted|;
  }

  /** A continuation that loses something, for a state that has something to lose. */
  lemma LosingFinish(c: Setup, moves: seq<Move>) returns (more: seq<Move>)
    requires ValidSetup(c) && IsRun(c, moves) && Reached(c, moves).pool.ctxDone && !NothingToLose(c, Reached(c, moves))
    ensures Finishes(c, moves, more) && !KeepsAll(Reached(c, moves).pool, Reached(c, moves + more).pool)
  {
    hide IsRun, Reached, Quiescent, PoolInv, InReceiveOrder, Unplaced, Counted, AllBuilt, KeepsAll, CanStillWrite, Held,
         HeldTotal;
    var p := Reached(c, moves).pool;
    RunSound(c, moves);
    PoolWorkers(c.pool, p);
    if NothingHeld(p) {
      var first := WriteFollows(c, moves);
      var second := AcceptAndFinish(c, moves + first);
      more := first + second;
      assert moves + first + second == moves + more;
    } else {
      more := SomeFinish(c, moves);
      NotQuietHolds(c.pool, p);
    }
    var end := Reached(c, moves + more).pool;
    if KeepsAll(p, end) {
      KeptLength(p, end);
      assert false;
    }
  }

  /** The message is accepted, and everyone returns. */
  lemma AcceptAndFinish(c: Setup, moves: seq<Move>) returns (more: seq<Move>)
    requires ValidSetup(c) && IsRun(c, moves)
    requires var s := Reached(c, moves); s.feeder.Writing? && s.pool.ctxDone && !s.pool.closed && s.pool.ch == []
    ensures Finishes(c, moves, more)
    ensures var p, p' := Reached(c, moves).pool, Reached(c, moves + more).pool;
            p'.input == p.input && |p.accepted| < |p'.accepted|
  {
    hide IsRun, Reached, Quiescent;
    CapacityPositive(c.pool);
    Extend(c, moves, Feed(WriteMessage));
    var rest := SomeFinish(c, moves + [Feed(WriteMessage)]);
    more := [Feed(WriteMessage)] + rest;
    assert moves + [Feed(WriteMessage)] + rest == moves + more;
  }

  /** At any time after cancellation: every continuation keeps everything Write accepted or still accepts, up to the
      return of the workers or of all goroutines, if and only if there is nothing to lose. */
  lemma CancelledKeepsAllIff(c: Setup, moves: seq<Move>)
    requires ValidSetup(c) && IsRun(c, moves) && Reached(c, moves).pool.ctxDone
    ensures (forall more | WorkersReturn(c, moves, more) ::
               KeepsAll(Reached(c, moves).pool, Reached(c, moves + more).pool))
            <==> NothingToLose(c, Reached(c, moves))
    ensures (forall more | Finishes(c, moves, more) :: KeepsAll(Reached(c, moves).pool, Reached(c, moves + more).pool))
            <==> NothingToLose(c, Reached(c, moves))
    ensures exists more :: Finishes(c, moves, more)
  {
    hide IsRun, Reached, PoolInv, InReceiveOrder, Unplaced, Counted, AllBuilt, KeepsAll, CanStillWrite, Held, HeldTotal,
         AllExited;
    var s := Reached(c, moves);
    var some := SomeFinish(c, moves);
    if NothingToLose(c, s) {
      RunSound(c, moves);
      PoolWorkers(c.pool, s.pool);
      NothingHeldIsQuiet(c.pool, s.pool);
      forall more | IsRun(c, moves + more) ensures KeepsAll(s.pool, Reached(c, moves + more).pool) {
        StaysSpentLong(c, moves, more);
        SpentKeepsAll(s.pool, Reached(c, moves + more).pool);
      }
    } else {
      var more := LosingFinish(c, moves);
      assert WorkersReturn(c, moves, more);
    }
  }

  /** README.md's promise, decided when the signal arrives: the shutdown that follows loses no message accepted by Write
      before or after, in any run, if and only if at that time the channel and all batches are empty and writeToKafka
      can no longer come to a Write. */
  lemma GracefulShutdownIff(c: Setup, moves: seq<Move>)
    requires ValidSetup(c) && IsRun(c, moves) && Reached(c, moves).main.Serving?
    ensures var signalled := moves + [Control(Signal)];
            && IsRun(c, signalled) && Reached(c, signalled).pool.ctxDone
            && (exists more :: Finishes(c, signalled, more))
            && ((forall more | Finishes(c, signalled, more) ::
                   KeepsAll(Reached(c, moves).pool, Reached(c, signalled + more).pool))
                <==> NothingHeld(Reached(c, moves).pool) && !CanStillWrite(c, Reached(c, moves)))
            && ((forall more | WorkersReturn(c, signalled, more) ::
                   KeepsAll(Reached(c, moves).pool, Reached(c, signalled + more).pool))
                <==> NothingHeld(Reached(c, moves).pool) && !CanStillWrite(c, Reached(c, moves)))
  {
    hide IsRun, Reached, PoolInv, InReceiveOrder, Unplaced, Ledger, SilentLosses, AllBuilt, AllHeld, Messages, Held,
         AllExited, Finishes, WorkersReturn;
    var s := Reached(c, moves);
    RunSound(c, moves);
    Extend(c, moves, Control(Signal));
    var signalled := moves + [Control(Signal)];
    CancelledKeepsAllIff(c, signalled);
    forall end: Pool ensures KeepsAll(s.pool, end) <==> KeepsAll(Reached(c, signalled).pool, end) {
    }
  }

  lemma {:induction false} ClosedAcceptsNothing(c: Setup, moves: seq<Move>, more: seq<Move>)
    requires IsRun(c, moves) && IsRun(c, moves + more) && Reached(c, moves).pool.closed
    ensures var p, p' := Reached(c, moves).pool, Reached(c, moves + more).pool; p'.closed && p'.accepted == p.accepted
    decreases |more|
  {
    hide MoveStep, MoveEnabled;
    if more == [] {
      assert moves + more == moves;
    } else {
      var n := |more| - 1;
      assert (moves + more)[..|moves + more| - 1] == moves + more[..n];
      ClosedAcceptsNothing(c, moves, more[..n]);
      ClosedStep(c, Reached(c, moves + more[..n]), more[n]);
    }
  }

  lemma ClosedStep(c: Setup, s: State, m: Move)
    requires MoveEnabled(c, s, m) && s.pool.closed
    ensures MoveStep(c, s, m).pool.closed && MoveStep(c, s, m).pool.accepted == s.pool.accepted
  {
    hide BuildMessage, Step, Emitted;
  }

  lemma KeepsIsSubmits(p: Pool, end: Pool)
    requires end.accepted == p.accepted
    ensures KeepsAll(p, end) <==> SubmitsAll(p, end)
  {
    hide Messages, AllHeld;
    var (a, b) := (multiset(Messages(end.input)),
                   multiset(Messages(p.input)) + multiset(p.ch) + multiset(AllHeld(p.workers)));
    var acc := multiset(p.accepted);
    assert KeepsAll(p, end) <==> a + acc == b + acc;
    assert a == (a + acc) - acc && b == (b + acc) - acc;
  }

  /** The part after Close: every run in which all workers return hands to Input exactly what the channel and the
      batches held when main closed the writer if and only if they held nothing. */
  lemma ShutdownLosesNothingIff(c: Setup, moves: seq<Move>)
    requires ValidSetup(c) && IsRun(c, moves) && Reached(c, moves).main.WriterClosed?
    ensures (forall more | WorkersReturn(c, moves, more) ::
               SubmitsAll(Reached(c, moves).pool, Reached(c, moves + more).pool))
            <==> NothingHeld(Reached(c, moves).pool)
    ensures exists more :: WorkersReturn(c, moves, more)
  {
    hide IsRun, Reached, PoolInv, InReceiveOrder, Unplaced, Ledger, SilentLosses, AllBuilt, KeepsAll, SubmitsAll,
         AllExited, NothingHeld, CanStillWrite;
    RunSound(c, moves);
    CancelledKeepsAllIff(c, moves);
    var some :| Finishes(c, moves, some);
    assert WorkersReturn(c, moves, some);
    forall more | WorkersReturn(c, moves, more)
      ensures KeepsAll(Reached(c, moves).pool, Reached(c, moves + more).pool)
              <==> SubmitsAll(Reached(c, moves).pool, Reached(c, moves + more).pool)
    {
      ClosedAcceptsNothing(c, moves, more);
      KeepsIsSubmits(Reached(c, moves).pool, Reached(c, moves + more).pool);
    }
  }

  // ---------------------------------------------------------------------------------------------------------
  // The drain loop of main

  /** One turn of the loop: the 30 s timeout, or a tick with the queue size seen and seen again half a second later. */
  datatype Poll = TimedOut | Ticked(size: nat, again: nat)

  predicate EndsDrain(p: Poll) { p.TimedOut? || (p.size == 0 && p.again == 0) }

  /** The moves of main in one turn of the loop. */
  function PollMoves(p: Poll): seq<MainAction> {
    match p
    case TimedOut => [DrainTimeout]
    case Ticked(size, _) => if size == 0 then [PollEmpty, Recheck] else []
  }

  /** Main between the two looks of a turn that saw the queue as it is in `s`, and after the turn. */
  function MainBetween(p: Poll, s: State): Main {
    if PollMoves(p) != [] && MainEnabled(s, PollMoves(p)[0]) then MainStep(s, PollMoves(p)[0]).main else s.main
  }

  function MainAfter(p: Poll, later: State): Main {
    if |PollMoves(p)| == 2 && MainEnabled(later, Recheck) then MainStep(later, Recheck).main else later.main
  }

  /** A turn that sees the queue as it is in `s` and, half a second later, as it is in `later` is main's part of the
      transition system, and closes the writer exactly when it ends the loop. */
  lemma PollIsMain(p: Poll, s: State, later: State)
    requires s.main.Draining? && (p.Ticked? ==> p.size == |s.queue| && p.again == |later.queue|)
    requires later.main == MainBetween(p, s)
    ensures PollMoves(p) != [] ==> MainEnabled(s, PollMoves(p)[0])
    ensures |PollMoves(p)| == 2 ==> MainEnabled(later, Recheck)
    ensures MainAfter(p, later)
         == if p.TimedOut? || (p.size == 0 && p.again == 0) then WriterClosed else Draining
    ensures p.TimedOut? ==> MainAfter(p, later) == MainStep(s, DrainTimeout).main
    ensures p.Ticked? && p.size == 0 ==> MainStep(s, PollEmpty).main == SawEmpty
  {
  }

  method WaitForDrain(polls: seq<Poll>, startSize: nat) returns (drained: bool, used: nat)
    ensures used <= |polls|
    ensures drained ==>
              used > 0 && (polls[used - 1] == TimedOut || (polls[used - 1].size == 0 && polls[used - 1].again == 0))
    ensures !drained ==> used == |polls|
    ensures forall i | 0 <= i < (if drained then used - 1 else used) ::
              polls[i].Ticked? && (polls[i].size > 0 || polls[i].again > 0)
  {
    var lastQueueSize := startSize;
    drained, used := false, 0;
    while !drained && used < |polls|
      invariant used <= |polls|
      invariant drained ==> used > 0 && EndsDrain(polls[used - 1])
      invariant forall i | 0 <= i < (if drained then used - 1 else used) :: !EndsDrain(polls[i])
      decreases |polls| - used
    {
      match polls[used] {
        case TimedOut =>
          drained := true;
        case Ticked(size, again) =>
          if size == 0 {
            if again == 0 {
              drained := true;
            }
          } else if size != lastQueueSize {
            lastQueueSize := size;
          }
      }
      used := used + 1;
    }
  }
}
