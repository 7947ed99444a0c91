// The main results about the whole adapter, for every run of every setup.
module Adapter {
  import opened Seqs
  import opened Events
  import opened Worker
  import opened Pool
  import opened Pipeline
  import opened PipelineProofs
  import opened Wrappers
  import Config
  import EventQueue
  import Reconnect

  // ---------------------------------------------------------------------------------------------------------
  // Order and conservation end to end

  /** What a worker hands to Input follows the order in which the events were received: always for the messages' own
      topics, and for everything, dead letters included, if it has sent nothing twice. */
  ghost predicate WorkerInOrder(s: State, w: Worker) {
    && Subseq(Map(EventOf, SentMessages(w.out)), s.log.received)
    && (w.resent == [] ==> Subseq(Map(EventOf, Messages(w.out)), s.log.received))
  }

  /** Accepted by Write ++ in hand ++ queue ++ in hand ++ grpcEventCh ++ in hand is a subsequence of what was received;
      so is what each worker hands to Input, and with one worker the whole Input stream. The only exception are
      messages dead-lettered after they were sent, and there are none if no id is accepted twice. */
  lemma ReceiveOrderEndToEnd(c: Setup, moves: seq<Move>)
    requires ValidSetup(c) && IsRun(c, moves)
    ensures var s := Reached(c, moves);
            && Subseq(Chain(s), s.log.received)
            && (forall j | 0 <= j < |s.pool.workers| :: WorkerInOrder(s, s.pool.workers[j]))
            && |s.pool.workers| == c.pool.workers
            && (|s.pool.workers| == 1 ==>
                  Subseq(Map(EventOf, SentMessages(s.pool.input)), s.log.received)
                  && (s.pool.workers[0].resent == [] ==> Subseq(Map(EventOf, Messages(s.pool.input)), s.log.received)))
            && (DistinctMessages(s.pool.accepted) ==>
                  forall j | 0 <= j < |s.pool.workers| :: s.pool.workers[j].resent == [])
  {
    hide Subseq, Map, SentMessages, Messages, Inv, Accounted, Unplaced, Counted, AllBuilt, Sourced, DistinctMessages,
         LeavesWell, WorkerInOrder;
    RunSound(c, moves);
    var s := Reached(c, moves);
    forall j | 0 <= j < |s.pool.workers| ensures WorkerInOrder(s, s.pool.workers[j])
      ensures DistinctMessages(s.pool.accepted) ==> s.pool.workers[j].resent == []
    {
      WorkerOrder(c, s, j);
      if DistinctMessages(s.pool.accepted) {
        DistinctIdsNeverResend(c.pool, s.pool, j);
      }
    }
    if c.pool.workers == 1 {
      WorkerOrder(c, s, 0);
      InputIsWorkerOutput(s.pool);
      assert WorkerInOrder(s, s.pool.workers[0]);
      OneWorkerInOrder(s);
    }
  }

  lemma InputIsWorkerOutput(p: Pool)
    requires InOrder(p) && |p.workers| == 1
    ensures p.workers[0].out == p.input
  {
  }

  lemma OneWorkerInOrder(s: State)
    requires |s.pool.workers| == 1 && s.pool.workers[0].out == s.pool.input && WorkerInOrder(s, s.pool.workers[0])
    ensures Subseq(Map(EventOf, SentMessages(s.pool.input)), s.log.received)
    ensures s.pool.workers[0].resent == [] ==> Subseq(Map(EventOf, Messages(s.pool.input)), s.log.received)
  {
  }

  lemma WorkerOrder(c: Setup, s: State, j: nat)
    requires PoolInv(c.pool, s.pool) && InReceiveOrder(s) && j < |s.pool.workers|
    ensures WorkerInOrder(s, s.pool.workers[j])
  {
    hide Subseq, Map, SentMessages, Messages, PoolInv, InReceiveOrder;
    SendOrder(c.pool, s.pool, j);
    AcceptedToReceived(s, SentMessages(s.pool.workers[j].out));
    if s.pool.workers[j].resent == [] {
      AcceptedToReceived(s, Messages(s.pool.workers[j].out));
    }
  }

  lemma AcceptedToReceived(s: State, sent: seq<Message>)
    requires InReceiveOrder(s) && Subseq(sent, s.pool.accepted)
    ensures Subseq(Map(EventOf, sent), s.log.received)
  {
    hide Subseq, Map;
    SubseqMap(EventOf, sent, s.pool.accepted);
    var rest := FeederHand(s) + (s.queue + (ProcessorHand(s) + (s.grpcCh + ReaderHand(s))));
    SubseqPrefix(Accepted(s), rest);
    SubseqTrans(Map(EventOf, sent), Accepted(s), Chain(s));
    SubseqTrans(Map(EventOf, sent), Chain(s), s.log.received);
  }

  /** Every received event is in exactly one place, and every accepted message likewise inside the pool. */
  lemma NothingVanishes(c: Setup, moves: seq<Move>, x: Event, m: Message)
    requires ValidSetup(c) && IsRun(c, moves)
    ensures var s := Reached(c, moves);
            N(s.log.received, x) ==
              N(ReaderHand(s), x) + N(s.grpcCh, x) + N(ProcessorHand(s), x) + N(s.queue, x) + N(FeederHand(s), x)
              + N(s.log.streamDropped, x) + N(s.log.cancelLost, x) + N(s.log.sampledOut, x) + N(s.log.queueDropped, x)
              + N(s.log.pushCancelled, x) + N(s.log.failed, x) + N(s.log.skipped, x) + N(s.log.rejected, x)
              + N(s.log.panicLost, x) + N(Accepted(s), x)
    ensures var p := Reached(c, moves).pool;
            Count(p.accepted, m) + Total(Resent, p.workers, m)
            == Count(p.ch, m) + Total(InHand, p.workers, m) + Count(Messages(p.input), m)
               + Total(CountedLost, p.workers, m) + Total(SilentlyLost, p.workers, m) + Total(Missed, p.workers, m)
  {
    hide PoolInv, Counted, AllBuilt, InReceiveOrder, N, Accepted, Count, Total;
    RunSound(c, moves);
    var s := Reached(c, moves);
    assert Unplaced(s, x) == 0;
    Conservation(c.pool, s.pool, m);
  }

  /** The exported counters account for every event, each exact up to the one in its goroutine's hand, and before
      cancellation no event is lost outside them on the way to the writer. */
  lemma CountersAccount(c: Setup, moves: seq<Move>)
    requires ValidSetup(c) && IsRun(c, moves)
    ensures var s := Reached(c, moves); Ledger(s) && SilentLosses(c, s)
    ensures var s := Reached(c, moves);
            !s.pool.ctxDone ==> s.log.cancelLost == [] && s.log.pushCancelled == [] && s.log.panicLost == []
  {
    hide PoolInv, InReceiveOrder, Unplaced, AllBuilt, Ledger;
    RunSound(c, moves);
  }

  // ---------------------------------------------------------------------------------------------------------
  // Drop counting

  /** What one move does to the event queue. */
  function QueueOp(s: State, m: Move): seq<EventQueue.Op> {
    if m == Feed(Pop) then [EventQueue.PopOp]
    else if (m == Handle(PushOk) || m == Handle(PushDropped)) && s.processor.Pushing?
    then [EventQueue.PushOp(s.processor.e)]
    else []
  }

  function QueueOps(c: Setup, moves: seq<Move>): seq<EventQueue.Op>
    requires IsRun(c, moves)
  {
    if moves == [] then []
    else QueueOps(c, moves[..|moves| - 1]) + QueueOp(Reached(c, moves[..|moves| - 1]), moves[|moves| - 1])
  }

  function QueueState(s: State): EventQueue.State { EventQueue.State(s.queue, s.count.queueFull) }

  lemma QueueMove(c: Setup, s: State, m: Move)
    requires MoveEnabled(c, s, m) && c.dropIfQueueFull
    ensures QueueState(MoveStep(c, s, m)) ==
            if QueueOp(s, m) == [] then QueueState(s) else EventQueue.Step(QueueState(s), c.maxQueue, QueueOp(s, m)[0])
    ensures QueueOp(s, m) == [EventQueue.PopOp] ==> s.queue != []
  {
    hide BuildMessage;
  }

  lemma {:induction false} QueueRefinesWalk(c: Setup, moves: seq<Move>)
    requires IsRun(c, moves) && c.dropIfQueueFull
    ensures EventQueue.After(EventQueue.State([], 0), c.maxQueue, QueueOps(c, moves)) == QueueState(Reached(c, moves))
    ensures EventQueue.PopsSucceed(EventQueue.State([], 0), c.maxQueue, QueueOps(c, moves))
  {
    hide MoveEnabled, MoveStep, QueueOp;
    if moves != [] {
      var front, m := moves[..|moves| - 1], moves[|moves| - 1];
      var s := Reached(c, front);
      QueueRefinesWalk(c, front);
      QueueMove(c, s, m);
      AtMostOneOp(s, m);
      var ops, op := QueueOps(c, front), QueueOp(s, m);
      assert QueueOps(c, moves) == ops + op;
      if op == [] {
        assert ops + op == ops;
      } else {
        assert (ops + op)[..|ops|] == ops && op == [op[0]];
      }
    }
  }

  lemma AtMostOneOp(s: State, m: Move)
    ensures |QueueOp(s, m)| <= 1
  {
  }

  /** In drop mode drops_total{queue_full} is, over every run, exactly the highest level by which pushes would have
      outrun pops and the capacity: the adapter never drops an event that would have fitted. */
  lemma QueueFullIsExcess(c: Setup, moves: seq<Move>)
    requires IsRun(c, moves) && c.dropIfQueueFull
    ensures Reached(c, moves).count.queueFull == EventQueue.Excess(0, c.maxQueue, QueueOps(c, moves))
    ensures |Reached(c, moves).queue|
         == EventQueue.Net(QueueOps(c, moves)) - EventQueue.Excess(0, c.maxQueue, QueueOps(c, moves))
  {
    hide Reached, QueueOps;
    QueueRefinesWalk(c, moves);
    EventQueue.DropsAreExcess(EventQueue.State([], 0), c.maxQueue, QueueOps(c, moves));
  }

  // ---------------------------------------------------------------------------------------------------------
  // Residency

  function Resident(s: State): nat {
    |s.grpcCh| + |s.queue| + |s.pool.ch| + HeldTotal(s.pool.workers)
    + |ReaderHand(s)| + |ProcessorHand(s)| + |FeederHand(s)|
  }

  lemma ResidencyBound(c: Setup, moves: seq<Move>)
    requires ValidSetup(c) && IsRun(c, moves)
    ensures Resident(Reached(c, moves)) <= 2 * c.maxQueue + 2 * (c.pool.workers * c.pool.maxMessages) + 3
  {
    hide InReceiveOrder, Unplaced, AllBuilt, Ledger, Phases, SilentLosses, Subseq, Accounted, Sourced, InOrder,
         LeavesWell, Inv, Ordered, InputOrdered, Tail, Shape, HeldTotal, Reached, IsRun;
    RunSound(c, moves);
    var s := Reached(c, moves);
    forall j | 0 <= j < |s.pool.workers| ensures Shape(c.pool.maxMessages, s.pool.workers[j]) {
      WorkerFacts(c.pool, s.pool, j);
    }
    HeldBound(c.pool.maxMessages, s.pool.workers);
  }

  lemma ResidencyOfValidated(c: Setup, cfg: Config.Config, moves: seq<Move>)
    requires Config.Validate(cfg).Ok?
    requires c.maxQueue == cfg.maxQueue && c.pool == PoolConfig(cfg.writerWorkers, cfg.maxMessages) && IsRun(c, moves)
    ensures Resident(Reached(c, moves)) <= 2_000_000 + 200_000_000 + 3
  {
    hide Resident, Reached;
    ResidencyBound(c, moves);
    Product(c.pool.workers, c.pool.maxMessages, 1000, 100000);
  }

  lemma Product(a: nat, b: nat, x: nat, y: nat)
    requires a <= x && b <= y
    ensures a * b <= x * y
  {
    assert a * b <= x * b;
    assert x * b <= x * y;
  }

  // ---------------------------------------------------------------------------------------------------------
  // The receive loop as the reader of the transition system

  /** The moves of the reader in one turn of the receive loop. */
  function TurnMoves(t: Reconnect.Turn): seq<ReaderAction> {
    if t.doneAtTop then [TopCancelled]
    else if t.recv.None? then [TopOk, RecvFailed]
    else [TopOk, Recv(t.recv.value),
          if Reconnect.Abandons(t) then SendGivenUp else if t.room then SendEvent else SendDropped]
  }

  /** A turn that starts in `s` and comes to its send in `later` consists of moves of the reader, goes on exactly when
      the reader does, and sends, drops and gives up what the receive loop sends, drops and gives up. */
  lemma TurnIsReader(c: Setup, t: Reconnect.Turn, s: State, later: State)
    requires s.reader.AtTop? && t.doneAtTop == s.pool.ctxDone
    requires |TurnMoves(t)| == 3 ==>
               && later.reader == Holding(t.recv.value)
               && t.room == (|later.grpcCh| < c.maxQueue) && t.done == later.pool.ctxDone
    ensures ReaderEnabled(c, s, TurnMoves(t)[0])
    ensures |TurnMoves(t)| < 3 ==> Reconnect.EndOfTurn(t).Some? && !Reconnect.Abandons(t)
    ensures |TurnMoves(t)| == 3 ==>
              && ReaderEnabled(c, later, TurnMoves(t)[2])
              && var end := ReaderStep(c, later, TurnMoves(t)[2]);
                 && (end.reader.AtTop? <==> Reconnect.EndOfTurn(t).None?)
                 && (end.reader.AtTop? ==>
                       && end.grpcCh == later.grpcCh + Reconnect.Delivered([t])
                       && end.log.streamDropped == later.log.streamDropped + Reconnect.Dropped([t])
                       && end.log.cancelLost == later.log.cancelLost)
                 && (!end.reader.AtTop? ==>
                       && end.grpcCh == later.grpcCh && end.log.streamDropped == later.log.streamDropped
                       && end.log.cancelLost == later.log.cancelLost + [t.recv.value])
  {
    assert [t][..0] == [];
  }

  /** The turn of the receive loop that a move of the reader completes. */
  function CompletedTurn(c: Setup, s: State, r: ReaderAction): seq<Reconnect.Turn>
    requires ReaderEnabled(c, s, r)
  {
    match r
    case TopCancelled => [Reconnect.Turn(true, None, false, true, false)]
    case RecvFailed => [Reconnect.Turn(false, None, false, false, false)]
    case SendEvent => [Reconnect.Turn(false, Some(s.reader.e), true, s.pool.ctxDone, false)]
    case SendGivenUp => [Reconnect.Turn(false, Some(s.reader.e), |s.grpcCh| < c.maxQueue, true, true)]
    case SendDropped => [Reconnect.Turn(false, Some(s.reader.e), false, false, false)]
    case _ => []
  }

  /** The streams after a move: a connection opens one, a completed turn is added to the last. */
  function StreamsAfter(c: Setup, ss: seq<seq<Reconnect.Turn>>, s: State, m: Move): seq<seq<Reconnect.Turn>>
    requires MoveEnabled(c, s, m)
  {
    if m == Read(Connect) then ss + [[]]
    else if m.Read? && ss != [] then ss[..|ss| - 1] + [ss[|ss| - 1] + CompletedTurn(c, s, m.r)]
    else ss
  }

  /** The streams of a run, each as the turns its receive loop has completed. */
  function Streams(c: Setup, moves: seq<Move>): seq<seq<Reconnect.Turn>>
    requires IsRun(c, moves)
  {
    if moves == [] then []
    else StreamsAfter(c, Streams(c, moves[..|moves| - 1]), Reached(c, moves[..|moves| - 1]), moves[|moves| - 1])
  }

  function Taken(c: Setup, moves: seq<Move>): seq<Event>
    requires IsRun(c, moves)
  {
    if moves == [] then []
    else Taken(c, moves[..|moves| - 1])
         + (if moves[|moves| - 1] == Handle(Take) then [Reached(c, moves[..|moves| - 1]).grpcCh[0]] else [])
  }

  function AllTurns(ss: seq<seq<Reconnect.Turn>>): seq<Reconnect.Turn> {
    if ss == [] then [] else AllTurns(ss[..|ss| - 1]) + ss[|ss| - 1]
  }

  predicate GoesOn(turns: seq<Reconnect.Turn>) {
    forall i | 0 <= i < |turns| :: Reconnect.EndOfTurn(turns[i]).None?
  }

  /** A stream that ended with its last turn and not before. */
  predicate Ended(turns: seq<Reconnect.Turn>) {
    turns != [] && GoesOn(turns[..|turns| - 1]) && Reconnect.EndOfTurn(turns[|turns| - 1]).Some?
  }

  predicate InStream(s: State) { s.reader.AtTop? || s.reader.Receiving? || s.reader.Holding? }

  predicate StreamsEnd(ss: seq<seq<Reconnect.Turn>>, s: State) {
    && (forall i | 0 <= i < |ss| - 1 :: Ended(ss[i]))
    && (InStream(s) ==> ss != [] && GoesOn(ss[|ss| - 1]))
    && (!InStream(s) && ss != [] ==> Ended(ss[|ss| - 1]))
  }

  predicate SameLists(turns: seq<Reconnect.Turn>, taken: seq<Event>, s: State) {
    && Reconnect.Delivered(turns) == taken + s.grpcCh
    && Reconnect.Dropped(turns) == s.log.streamDropped
    && Reconnect.GivenUp(turns) == s.log.cancelLost
  }

  lemma StreamsEndStep(c: Setup, ss: seq<seq<Reconnect.Turn>>, s: State, m: Move)
    requires StreamsEnd(ss, s) && MoveEnabled(c, s, m)
    ensures StreamsEnd(StreamsAfter(c, ss, s, m), MoveStep(c, s, m))
  {
    hide BuildMessage, Step, Emitted;
    if m.Read? && ss != [] {
      var turns := ss[|ss| - 1];
      assert turns + [] == turns;
      if InStream(s) {
        TurnEnds(c, turns, s, m.r);
      }
    }
  }

  lemma TurnEnds(c: Setup, turns: seq<Reconnect.Turn>, s: State, r: ReaderAction)
    requires ReaderEnabled(c, s, r) && InStream(s) && GoesOn(turns)
    ensures var turns' := turns + CompletedTurn(c, s, r);
            if InStream(ReaderStep(c, s, r)) then GoesOn(turns') else Ended(turns')
  {
    var ts := CompletedTurn(c, s, r);
    if ts != [] {
      assert (turns + ts)[..|turns|] == turns;
    } else {
      assert turns + ts == turns;
    }
  }

  lemma TurnsAppend(turns: seq<Reconnect.Turn>, t: Reconnect.Turn)
    ensures Reconnect.Delivered(turns + [t]) == Reconnect.Delivered(turns) + Reconnect.DeliveredBy(t)
    ensures Reconnect.Dropped(turns + [t]) == Reconnect.Dropped(turns) + Reconnect.DroppedBy(t)
    ensures Reconnect.GivenUp(turns + [t]) == Reconnect.GivenUp(turns) + Reconnect.GivenUpBy(t)
  {
    assert (turns + [t])[..|turns|] == turns;
  }

  lemma AllTurnsAfter(c: Setup, ss: seq<seq<Reconnect.Turn>>, s: State, m: Move)
    requires MoveEnabled(c, s, m) && StreamsEnd(ss, s)
    ensures AllTurns(StreamsAfter(c, ss, s, m)) == AllTurns(ss) + (if m.Read? then CompletedTurn(c, s, m.r) else [])
  {
    var ss' := StreamsAfter(c, ss, s, m);
    if m == Read(Connect) {
      assert ss'[..|ss|] == ss;
    } else if m.Read? && ss != [] {
      assert ss'[..|ss| - 1] == ss[..|ss| - 1];
    }
  }

  lemma SameListsStep(c: Setup, turns: seq<Reconnect.Turn>, taken: seq<Event>, s: State, m: Move)
    requires SameLists(turns, taken, s) && MoveEnabled(c, s, m)
    ensures SameLists(turns + (if m.Read? then CompletedTurn(c, s, m.r) else []),
                      taken + (if m == Handle(Take) then [s.grpcCh[0]] else []), MoveStep(c, s, m))
  {
    hide BuildMessage, Step, Emitted, Reconnect.Delivered, Reconnect.Dropped, Reconnect.GivenUp;
    assert turns + [] == turns && taken + [] == taken;
    if m.Read? && CompletedTurn(c, s, m.r) != [] {
      TurnsAppend(turns, CompletedTurn(c, s, m.r)[0]);
      TurnLists(c, s, m.r);
    }
    if m == Handle(Take) {
      assert s.grpcCh == [s.grpcCh[0]] + s.grpcCh[1..];
    }
  }

  lemma TurnLists(c: Setup, s: State, r: ReaderAction)
    requires ReaderEnabled(c, s, r) && CompletedTurn(c, s, r) != []
    ensures var t, s' := CompletedTurn(c, s, r)[0], ReaderStep(c, s, r);
            && CompletedTurn(c, s, r) == [t]
            && s'.grpcCh == s.grpcCh + Reconnect.DeliveredBy(t)
            && s'.log.streamDropped == s.log.streamDropped + Reconnect.DroppedBy(t)
            && s'.log.cancelLost == s.log.cancelLost + Reconnect.GivenUpBy(t)
  {
  }

  /** In every run the reader is a sequence of runs of the receive loop, every one but the current ended by its last
      turn, and what they deliver, drop and give up is what went through grpcEventCh, was dropped and was given up. */
  lemma {:induction false} ReaderIsReceiveLoop(c: Setup, moves: seq<Move>)
    requires IsRun(c, moves)
    ensures StreamsEnd(Streams(c, moves), Reached(c, moves))
    ensures SameLists(AllTurns(Streams(c, moves)), Taken(c, moves), Reached(c, moves))
  {
    hide MoveStep, MoveEnabled, StreamsAfter, StreamsEnd, AllTurns;
    if moves == [] {
      NoStreams(c);
    } else {
      var front, m := moves[..|moves| - 1], moves[|moves| - 1];
      ReaderIsReceiveLoop(c, front);
      StreamsEndStep(c, Streams(c, front), Reached(c, front), m);
      AllTurnsAfter(c, Streams(c, front), Reached(c, front), m);
      SameListsStep(c, AllTurns(Streams(c, front)), Taken(c, front), Reached(c, front), m);
    }
  }

  lemma NoStreams(c: Setup)
    ensures StreamsEnd([], Start(c)) && SameLists(AllTurns([]), [], Start(c))
  {
  }

  /** Such a stream, given to the receive loop, comes to its end, and not before its last turn. */
  lemma EndedEnds(turns: seq<Reconnect.Turn>)
    requires Ended(turns)
    ensures Reconnect.Ends(Reconnect.StreamScript(true, turns))
    ensures forall i | 0 <= i < |turns| :: Reconnect.EndOfTurn(turns[i]).Some? <==> i == |turns| - 1
  {
    var n := |turns| - 1;
    assert Reconnect.EndOfTurn(turns[n]).Some?;
    assert forall i | 0 <= i < n :: turns[..n][i] == turns[i];
  }

  // ---------------------------------------------------------------------------------------------------------
  // Sampling: what is passed on is decided by the draws alone

  /** The draws of a run, in order. */
  function Draws(moves: seq<Move>): seq<real> {
    if moves == [] then []
    else Draws(moves[..|moves| - 1])
         + (if moves[|moves| - 1].Handle? && moves[|moves| - 1].p.Sample? then [moves[|moves| - 1].p.draw] else [])
  }

  function CountBelow(draws: seq<real>, ratio: real): nat {
    if draws == [] then 0
    else CountBelow(draws[..|draws| - 1], ratio) + (if draws[|draws| - 1] < ratio then 1 else 0)
  }

  /** The events whose draw is below the ratio, or not, in order. */
  function Drawn(events: seq<Event>, draws: seq<real>, ratio: real, below: bool): seq<Event>
    requires |draws| == |events|
  {
    if draws == [] then []
    else
      var n := |draws| - 1;
      Drawn(events[..n], draws[..n], ratio, below) + (if (draws[n] < ratio) == below then [events[n]] else [])
  }

  lemma {:induction false} DrawnLength(events: seq<Event>, draws: seq<real>, ratio: real)
    requires |draws| == |events|
    ensures |Drawn(events, draws, ratio, true)| == CountBelow(draws, ratio)
    ensures |Drawn(events, draws, ratio, false)| == |draws| - CountBelow(draws, ratio)
  {
    if draws != [] {
      DrawnLength(events[..|draws| - 1], draws[..|draws| - 1], ratio);
    }
  }

  /** The events a run hands to Push, in order: into the queue, dropped, or given up. */
  function Pushed(c: Setup, moves: seq<Move>): seq<Event>
    requires IsRun(c, moves)
  {
    if moves == [] then []
    else
      var s, m := Reached(c, moves[..|moves| - 1]), moves[|moves| - 1];
      Pushed(c, moves[..|moves| - 1])
      + (if m.Handle? && (m.p.PushOk? || m.p.PushDropped? || m.p.PushGivenUp?) && s.processor.Pushing?
         then [s.processor.e] else [])
  }

  /** The event taken from grpcEventCh whose draw is still to come. */
  function Undrawn(s: State): seq<Event> { if s.processor.Sampling? then [s.processor.e] else [] }

  function AtPush(s: State): seq<Event> { if s.processor.Pushing? then [s.processor.e] else [] }

  ghost predicate SampledSoFar(c: Setup, s: State, drawn: seq<Event>, draws: seq<real>, taken: seq<Event>,
                               pushed: seq<Event>) {
    && taken == drawn + Undrawn(s) && |drawn| == |draws|
    && pushed + AtPush(s) == Drawn(drawn, draws, c.sampleRatio, true)
    && s.log.sampledOut == Drawn(drawn, draws, c.sampleRatio, false)
    && s.count.sampled == CountBelow(draws, c.sampleRatio)
  }

  /** What one move adds to the draws, to what was taken, and to what was pushed. */
  function DrawOf(m: Move): seq<real> { if m.Handle? && m.p.Sample? then [m.p.draw] else [] }

  function TakenBy(s: State, m: Move): seq<Event>
    requires m == Handle(Take) ==> s.grpcCh != []
  {
    if m == Handle(Take) then [s.grpcCh[0]] else []
  }

  function PushedBy(s: State, m: Move): seq<Event> {
    if m.Handle? && (m.p.PushOk? || m.p.PushDropped? || m.p.PushGivenUp?) && s.processor.Pushing?
    then [s.processor.e] else []
  }

  lemma DrawnSnoc(events: seq<Event>, draws: seq<real>, e: Event, d: real, ratio: real, below: bool)
    requires |draws| == |events|
    ensures Drawn(events + [e], draws + [d], ratio, below)
         == Drawn(events, draws, ratio, below) + (if (d < ratio) == below then [e] else [])
    ensures CountBelow(draws + [d], ratio) == CountBelow(draws, ratio) + (if d < ratio then 1 else 0)
  {
    assert (events + [e])[..|events|] == events && (draws + [d])[..|draws|] == draws;
  }

  lemma SampledStep(c: Setup, s: State, m: Move, drawn: seq<Event>, draws: seq<real>, taken: seq<Event>,
                    pushed: seq<Event>)
    requires MoveEnabled(c, s, m) && SampledSoFar(c, s, drawn, draws, taken, pushed)
    ensures SampledSoFar(c, MoveStep(c, s, m), drawn + (if DrawOf(m) != [] then Undrawn(s) else []), draws + DrawOf(m),
                         taken + TakenBy(s, m), pushed + PushedBy(s, m))
  {
    hide BuildMessage, Step, Emitted, Drawn, CountBelow;
    assert drawn + [] == drawn && draws + [] == draws && taken + [] == taken && pushed + [] == pushed;
    if DrawOf(m) != [] {
      DrawnSnoc(drawn, draws, s.processor.e, m.p.draw, c.sampleRatio, true);
      DrawnSnoc(drawn, draws, s.processor.e, m.p.draw, c.sampleRatio, false);
    }
  }

  lemma {:induction false} SamplingByDraws(c: Setup, moves: seq<Move>) returns (drawn: seq<Event>)
    requires IsRun(c, moves)
    ensures SampledSoFar(c, Reached(c, moves), drawn, Draws(moves), Taken(c, moves), Pushed(c, moves))
  {
    hide MoveStep, MoveEnabled, SampledSoFar;
    drawn := [];
    if moves == [] {
      NothingSampled(c);
    } else {
      var front, m := moves[..|moves| - 1], moves[|moves| - 1];
      var before := SamplingByDraws(c, front);
      var s := Reached(c, front);
      SampledStep(c, s, m, before, Draws(front), Taken(c, front), Pushed(c, front));
      drawn := before + (if DrawOf(m) != [] then Undrawn(s) else []);
    }
  }

  lemma NothingSampled(c: Setup)
    ensures SampledSoFar(c, Start(c), [], [], [], [])
  {
  }

  /** In every run the sampled and the skipped events are counted by the draws below and not below the ratio, and the
      events that reach Push are, in the order they were taken from grpcEventCh, those whose draw is below it. */
  lemma SampledExactly(c: Setup, moves: seq<Move>) returns (drawn: seq<Event>)
    requires IsRun(c, moves)
    ensures var s, draws := Reached(c, moves), Draws(moves);
            && s.count.sampled == CountBelow(draws, c.sampleRatio)
            && |s.log.sampledOut| == |draws| - CountBelow(draws, c.sampleRatio)
            && |drawn| == |draws| && Taken(c, moves) == drawn + Undrawn(s)
            && Pushed(c, moves) + AtPush(s) == Drawn(drawn, draws, c.sampleRatio, true)
            && s.log.sampledOut == Drawn(drawn, draws, c.sampleRatio, false)
  {
    drawn := SamplingByDraws(c, moves);
    DrawnLength(drawn, Draws(moves), c.sampleRatio);
  }

  // ---------------------------------------------------------------------------------------------------------
  // What a goroutine may do at all

  /** processEvents and writeToKafka return only when the context is done or by the panic; with Kafka up no event is
      skipped, without it none is offered to the writer. */
  predicate Lawful(c: Setup, s: State) {
    && (s.processor.ProcessorStopped? || s.feeder.FeederStopped? ==> s.pool.ctxDone)
    && (c.kafkaUp ==> s.log.skipped == [] && s.count.outSkipped == 0 && s.feeder != CountingOut(NotInitialized))
    && (!c.kafkaUp ==> s.pool.accepted == [] && s.log.rejected == [] && s.log.panicLost == [] && !s.feeder.Writing?
                       && !s.feeder.FeederPanicked? && s.count.outSuccess == s.count.outFailed == 0
                       && s.feeder != CountingOut(Success) && s.feeder != CountingOut(Failed))
  }

  lemma FeederLawful(c: Setup, s: State, a: FeederAction)
    requires FeederEnabled(c, s, a) && Lawful(c, s)
    ensures Lawful(c, FeederStep(c, s, a))
  {
    hide BuildMessage;
  }

  lemma OthersLawful(c: Setup, s: State, m: Move)
    requires MoveEnabled(c, s, m) && Lawful(c, s) && !m.Feed?
    ensures Lawful(c, MoveStep(c, s, m))
  {
    hide BuildMessage, Step, Emitted, FeederStep;
  }

  lemma LawfulStep(c: Setup, s: State, m: Move)
    requires MoveEnabled(c, s, m) && Lawful(c, s)
    ensures Lawful(c, MoveStep(c, s, m))
  {
    hide FeederStep, Lawful;
    if m.Feed? {
      FeederLawful(c, s, m.f);
    } else {
      OthersLawful(c, s, m);
    }
  }

  lemma {:induction false} AlwaysLawful(c: Setup, moves: seq<Move>)
    requires IsRun(c, moves)
    ensures Lawful(c, Reached(c, moves))
  {
    hide MoveStep, MoveEnabled, Lawful;
    if moves == [] {
      StartLawful(c);
    } else {
      AlwaysLawful(c, moves[..|moves| - 1]);
      LawfulStep(c, Reached(c, moves[..|moves| - 1]), moves[|moves| - 1]);
    }
  }

  lemma StartLawful(c: Setup)
    ensures Lawful(c, Start(c))
  {
  }

  /** The readiness the source's selects ask for: a send needs room and a receive an event, a context case needs the
      context done, and a default is taken only when no other case of its select is ready. */
  predicate Ready(c: Setup, s: State, m: Move) {
    && (m == Read(SendEvent) ==> |s.grpcCh| < c.maxQueue)
    && (m in {Read(TopCancelled), Read(SendGivenUp), Handle(StopProcessor), Handle(PushGivenUp), Feed(StopFeeder)}
        ==> s.pool.ctxDone)
    && (m in {Read(Connect), Read(TopOk)} ==> !s.pool.ctxDone)
    && (m == Read(SendDropped) ==> |s.grpcCh| >= c.maxQueue && !s.pool.ctxDone)
    && (m == Handle(Take) ==> s.grpcCh != [])
    && (m.Handle? && m.p.Sample? ==> 0.0 <= m.p.draw < 1.0)
    && (m == Handle(PushOk) ==> |s.queue| < c.maxQueue)
    && (m == Handle(PushDropped) ==> c.dropIfQueueFull && |s.queue| >= c.maxQueue)
    && (m == Handle(PushGivenUp) ==> !c.dropIfQueueFull)
    && (m == Feed(Pop) ==> s.queue != [])
    && (m == Control(PollEmpty) ==> s.main == Draining && s.queue == [])
    && (m == Control(Recheck) ==> s.main == SawEmpty)
    && (m == Control(DrainTimeout) ==> s.main == Draining)
    && (m == Control(Signal) ==> s.main == Serving)
    && (m.Pooled? && m.w.Receive? ==> s.pool.ch != [] && s.pool.ch[0] == m.w.m)
    && (m.Pooled? && m.w.ChannelClosed? ==> s.pool.closed && s.pool.ch == [])
    && (m.Pooled? && m.w.ContextDone? ==> s.pool.ctxDone)
  }

  lemma EnabledIsReady(c: Setup, s: State, m: Move)
    requires MoveEnabled(c, s, m)
    ensures Ready(c, s, m)
  {
    hide Enabled, Stutters;
  }

  /** In every run each move is taken only when it is ready in that sense. */
  lemma NextMoveIsReady(c: Setup, moves: seq<Move>, m: Move)
    requires IsRun(c, moves + [m])
    ensures IsRun(c, moves) && Ready(c, Reached(c, moves), m)
  {
    hide Ready, MoveEnabled, Reached;
    assert (moves + [m])[..|moves|] == moves;
    EnabledIsReady(c, Reached(c, moves), m);
  }

  /** And no select of the reader, of processEvents or of the feeder is without a move once its cases are ready. */
  lemma SelectsProceed(c: Setup, s: State)
    ensures s.reader.Disconnected? ==> ReaderEnabled(c, s, GiveUp) && (!s.pool.ctxDone ==> ReaderEnabled(c, s, Connect))
    ensures s.reader.AtTop? ==> ReaderEnabled(c, s, if s.pool.ctxDone then TopCancelled else TopOk)
    ensures s.reader.Receiving? ==> ReaderEnabled(c, s, RecvFailed) && forall e :: ReaderEnabled(c, s, Recv(e))
    ensures s.reader.Holding? ==>
              && (|s.grpcCh| < c.maxQueue ==> ReaderEnabled(c, s, SendEvent))
              && (s.pool.ctxDone ==> ReaderEnabled(c, s, SendGivenUp))
              && (|s.grpcCh| >= c.maxQueue && !s.pool.ctxDone ==> ReaderEnabled(c, s, SendDropped))
    ensures s.processor.Waiting? ==>
              && (s.grpcCh != [] ==> ProcessorEnabled(c, s, Take))
              && (s.pool.ctxDone ==> ProcessorEnabled(c, s, StopProcessor))
    ensures s.processor.Sampling? ==> forall draw | 0.0 <= draw < 1.0 :: ProcessorEnabled(c, s, Sample(draw))
    ensures s.processor.Pushing? ==>
              && (|s.queue| < c.maxQueue ==> ProcessorEnabled(c, s, PushOk))
              && (|s.queue| >= c.maxQueue && c.dropIfQueueFull ==> ProcessorEnabled(c, s, PushDropped))
              && (s.pool.ctxDone && !c.dropIfQueueFull ==> ProcessorEnabled(c, s, PushGivenUp))
    ensures s.feeder.Popping? ==>
              && (s.queue != [] ==> FeederEnabled(c, s, Pop))
              && (s.pool.ctxDone ==> FeederEnabled(c, s, StopFeeder))
    ensures s.feeder.Normalizing? ==>
              && FeederEnabled(c, s, NormalizeError)
              && forall id :: FeederEnabled(c, s, if c.kafkaUp then Prepare(id) else Skip(id))
  {
  }

  // ---------------------------------------------------------------------------------------------------------
  // Trace ids

  /** The trace ids the normaliser gave out, for messages and for skipped events. */
  function TraceIds(moves: seq<Move>): seq<string> {
    if moves == [] then []
    else
      var m := moves[|moves| - 1];
      TraceIds(moves[..|moves| - 1]) + (if m.Feed? && m.f.Prepare? then [m.f.traceId] else [])
  }

  function TraceIdOf(m: Message): string { m.traceId }

  function TraceInHand(s: State): seq<string> { if s.feeder.Writing? then [s.feeder.m.traceId] else [] }

  ghost predicate Traced(s: State, ids: seq<string>) {
    Subseq(Map(TraceIdOf, s.pool.accepted) + TraceInHand(s), ids)
  }

  lemma TracedStep(c: Setup, s: State, m: Move, ids: seq<string>)
    requires MoveEnabled(c, s, m) && Traced(s, ids)
    ensures Traced(MoveStep(c, s, m), ids + (if m.Feed? && m.f.Prepare? then [m.f.traceId] else []))
  {
    hide Subseq, Map, Step, Emitted;
    var a := Map(TraceIdOf, s.pool.accepted);
    assert ids + [] == ids;
    if m.Feed? {
      BuiltTrace(c, s, m.f);
      match m.f {
        case Prepare(t) =>
          assert a + [] == a;
          SubseqSnoc(a, ids, t);
        case WriteMessage =>
          var t := s.feeder.m.traceId;
          MapTrace(s.pool.accepted, s.feeder.m);
          SubseqPrefix(a, [t]);
          SubseqTrans(a, a + [t], ids);
          assert a + [] == a && a + [t] + [] == a + [t];
        case _ =>
      }
    }
  }

  lemma BuiltTrace(c: Setup, s: State, a: FeederAction)
    requires FeederEnabled(c, s, a)
    ensures a.Prepare? ==> FeederStep(c, s, a).feeder.Writing? && FeederStep(c, s, a).feeder.m.traceId == a.traceId
  {
  }

  lemma MapTrace(ms: seq<Message>, m: Message)
    ensures Map(TraceIdOf, ms + [m]) == Map(TraceIdOf, ms) + [m.traceId]
  {
    assert (ms + [m])[..|ms|] == ms;
  }

  /** The messages Write accepts carry the trace ids given out, in order. */
  lemma {:induction false} AcceptedTraceIds(c: Setup, moves: seq<Move>)
    requires IsRun(c, moves)
    ensures Traced(Reached(c, moves), TraceIds(moves))
  {
    hide MoveStep, MoveEnabled, Traced;
    if moves == [] {
      NothingTraced(c);
    } else {
      var front, m := moves[..|moves| - 1], moves[|moves| - 1];
      AcceptedTraceIds(c, front);
      TracedStep(c, Reached(c, front), m, TraceIds(front));
      assert TraceIds(moves) == TraceIds(front) + (if m.Feed? && m.f.Prepare? then [m.f.traceId] else []);
    }
  }

  lemma NothingTraced(c: Setup)
    ensures Traced(Start(c), [])
  {
  }

  predicate AllDifferent(ids: seq<string>) {
    (forall i | 0 <= i < |ids| :: ids[i] != "") && (forall i, j | 0 <= i < j < |ids| :: ids[i] != ids[j])
  }

  lemma DifferentSnoc(ids: seq<string>, id: string)
    requires AllDifferent(ids + [id])
    ensures AllDifferent(ids) && id !in ids && id != ""
  {
    var all := ids + [id];
    assert all[|ids|] == id && forall i | 0 <= i < |ids| :: all[i] == ids[i];
    forall i, j | 0 <= i < j < |ids| ensures ids[i] != ids[j] {
      assert all[i] != all[j];
    }
    forall i | 0 <= i < |ids| ensures ids[i] != id && ids[i] != "" {
      assert all[i] != all[|ids|] && all[i] != "";
    }
    assert all[|ids|] != "";
  }

  lemma {:induction false} DifferentSubseq(a: seq<string>, b: seq<string>)
    requires Subseq(a, b) && AllDifferent(b)
    ensures AllDifferent(a) && forall x | x in a :: x in b
    decreases |b|
  {
    if a != [] {
      var b0, x := b[..|b| - 1], b[|b| - 1];
      assert b == b0 + [x];
      DifferentSnoc(b0, x);
      if a[|a| - 1] == x {
        var a0 := a[..|a| - 1];
        DifferentSubseq(a0, b0);
        assert a == a0 + [x] && x !in a0;
      } else {
        DifferentSubseq(a, b0);
      }
    }
  }

  lemma {:induction false} DifferentMessages(ms: seq<Message>)
    requires AllDifferent(Map(TraceIdOf, ms))
    ensures DistinctMessages(ms) && forall m | m in ms :: m.traceId != "" && m.traceId in Map(TraceIdOf, ms)
  {
    if ms != [] {
      var front, m := ms[..|ms| - 1], ms[|ms| - 1];
      assert ms == front + [m];
      DifferentSnoc(Map(TraceIdOf, front), m.traceId);
      DifferentMessages(front);
      DistinctSnoc(front, m);
      assert MessageId(m) !in Ids(front);
    }
  }

  /** generateTraceID draws 128 random bits: as long as no two agree, everything a worker hands to Input, dead letters
      included, is in the order in which its events were received. */
  lemma DifferentTraceIdsKeepOrder(c: Setup, moves: seq<Move>)
    requires ValidSetup(c) && IsRun(c, moves) && AllDifferent(TraceIds(moves))
    ensures var s := Reached(c, moves);
            forall j | 0 <= j < |s.pool.workers| ::
              s.pool.workers[j].resent == [] && Subseq(Map(EventOf, Messages(s.pool.workers[j].out)), s.log.received)
  {
    hide Subseq, Map, Messages, SentMessages, AllDifferent, DistinctMessages, Chain, IsRun, Reached, TraceIds;
    var s := Reached(c, moves);
    var a := Map(TraceIdOf, s.pool.accepted);
    AcceptedTraceIds(c, moves);
    SubseqPrefix(a, TraceInHand(s));
    SubseqTrans(a, a + TraceInHand(s), TraceIds(moves));
    DifferentSubseq(a, TraceIds(moves));
    DifferentMessages(s.pool.accepted);
    ReceiveOrderEndToEnd(c, moves);
    forall j | 0 <= j < |s.pool.workers|
      ensures s.pool.workers[j].resent == [] && Subseq(Map(EventOf, Messages(s.pool.workers[j].out)), s.log.received)
    {
      assert WorkerInOrder(s, s.pool.workers[j]);
    }
  }
}
