// The whole adapter as one transition system: the gRPC reader (internal/grpc/stream.go), processEvents and writeToKafka
// (cmd/consumer/main.go), the event queue, the writer pool, and main's shutdown sequence. Every goroutine is a program
// counter with the event in its hands; every select is a choice among the cases that are ready.
module Pipeline {
  import opened Events
  import opened Worker
  import opened Pool
  import EventQueue
  import DedupKey

  /** `marshal` is protojson (or proto) marshalling and `sha256hex` the digest, both functions of their argument. */
  datatype Setup = Setup(
    maxQueue: nat, dropIfQueueFull: bool, sampleRatio: real, kafkaUp: bool, pool: PoolConfig,
    topics: map<string, string>, fields: seq<string>, separator: string, contentType: string,
    sha256hex: string -> string, marshal: Event -> string)

  datatype Reader = Disconnected | AtTop | Receiving | Holding(e: Event) | ReaderStopped
  datatype Processor = Waiting | Sampling(e: Event) | Pushing(e: Event) | CountingIn | ProcessorStopped
  datatype Status = Success | Failed | NotInitialized
  datatype Feeder =
    | Popping | Normalizing(e: Event) | Writing(m: Message) | CountingOut(status: Status)
    | FeederStopped | FeederPanicked
  datatype Main = Serving | Draining | SawEmpty | WriterClosed

  /** Where events went, one list per way out. */
  datatype Log = Log(received: seq<Event>, streamDropped: seq<Event>, cancelLost: seq<Event>, sampledOut: seq<Event>,
                     queueDropped: seq<Event>, pushCancelled: seq<Event>, failed: seq<Event>, skipped: seq<Event>,
                     rejected: seq<Event>, panicLost: seq<Event>)

  /** The Prometheus counters; drops_total{writer_queue_full} is pool.drops. */
  datatype Counters = Counters(received: nat, streamFull: nat, sampled: nat, queueFull: nat, eventsIn: nat,
                               normalizeErrors: nat, outSuccess: nat, outFailed: nat, outSkipped: nat)

  datatype State = State(reader: Reader, grpcCh: seq<Event>, processor: Processor, queue: seq<Event>, feeder: Feeder,
                         pool: Pool, main: Main, log: Log, count: Counters)

  function Start(c: Setup): State {
    State(Disconnected, [], Waiting, [], Popping, Init(c.pool), Serving,
          Log([], [], [], [], [], [], [], [], [], []), Counters(0, 0, 0, 0, 0, 0, 0, 0, 0))
  }

  datatype ReaderAction =
    | Connect | GiveUp | TopCancelled | TopOk | Recv(e: Event) | RecvFailed | SendEvent | SendGivenUp | SendDropped
  datatype ProcessorAction =
    | Take | StopProcessor | Sample(draw: real) | PushOk | PushDropped | PushGivenUp | CountIn
  datatype FeederAction =
    | Pop | StopFeeder | NormalizeError | Prepare(traceId: string) | Skip(traceId: string) | WriteMessage | CountOut
  datatype MainAction = Signal | PollEmpty | Recheck | DrainTimeout

  datatype Move =
    | Read(r: ReaderAction)
    | Handle(p: ProcessorAction)
    | Feed(f: FeederAction)
    | Pooled(id: nat, w: Action)
    | Control(k: MainAction)

  // ---------------------------------------------------------------------------------------------------------
  // The reader: ReadEvents inside RunWithReconnect

  predicate ReaderEnabled(c: Setup, s: State, a: ReaderAction) {
    var done := s.pool.ctxDone;
    match a
    case Connect => s.reader.Disconnected? && !done
    case GiveUp => s.reader.Disconnected?
    case TopCancelled => s.reader.AtTop? && done
    case TopOk => s.reader.AtTop? && !done
    case Recv(e) => s.reader.Receiving?
    case RecvFailed => s.reader.Receiving?
    case SendEvent => s.reader.Holding? && |s.grpcCh| < c.maxQueue
    case SendGivenUp => s.reader.Holding? && done
    case SendDropped => s.reader.Holding? && |s.grpcCh| >= c.maxQueue && !done
  }

  function ReaderStep(c: Setup, s: State, a: ReaderAction): State
    requires ReaderEnabled(c, s, a)
  {
    match a
    case Connect => s.(reader := AtTop)
    case GiveUp => s.(reader := ReaderStopped)
    case TopCancelled => s.(reader := Disconnected)
    case TopOk => s.(reader := Receiving)
    case Recv(e) => s.(reader := Holding(e), log := s.log.(received := s.log.received + [e]),
                       count := s.count.(received := s.count.received + 1))
    case RecvFailed => s.(reader := Disconnected)
    case SendEvent => s.(reader := AtTop, grpcCh := s.grpcCh + [s.reader.e])
    case SendGivenUp => s.(reader := Disconnected, log := s.log.(cancelLost := s.log.cancelLost + [s.reader.e]))
    case SendDropped => s.(reader := AtTop, log := s.log.(streamDropped := s.log.streamDropped + [s.reader.e]),
                           count := s.count.(streamFull := s.count.streamFull + 1))
  }

  // ---------------------------------------------------------------------------------------------------------
  // processEvents

  predicate ProcessorEnabled(c: Setup, s: State, a: ProcessorAction) {
    match a
    case Take => s.processor.Waiting? && s.grpcCh != []
    case StopProcessor => s.processor.Waiting? && s.pool.ctxDone
    case Sample(draw) => s.processor.Sampling? && EventQueue.IsDraw(draw)
    case PushOk => s.processor.Pushing? && |s.queue| < c.maxQueue
    case PushDropped => s.processor.Pushing? && |s.queue| >= c.maxQueue && c.dropIfQueueFull
    case PushGivenUp => s.processor.Pushing? && !c.dropIfQueueFull && s.pool.ctxDone
    case CountIn => s.processor.CountingIn?
  }

  function ProcessorStep(c: Setup, s: State, a: ProcessorAction): State
    requires ProcessorEnabled(c, s, a)
  {
    match a
    case Take => s.(processor := Sampling(s.grpcCh[0]), grpcCh := s.grpcCh[1..])
    case StopProcessor => s.(processor := ProcessorStopped)
    case Sample(draw) =>
      if EventQueue.Sampled(c.sampleRatio, draw)
      then s.(processor := Pushing(s.processor.e), count := s.count.(sampled := s.count.sampled + 1))
      else s.(processor := Waiting, log := s.log.(sampledOut := s.log.sampledOut + [s.processor.e]))
    case PushOk => s.(processor := CountingIn, queue := s.queue + [s.processor.e])
    case PushDropped => s.(processor := CountingIn, log := s.log.(queueDropped := s.log.queueDropped + [s.processor.e]),
                           count := s.count.(queueFull := s.count.queueFull + 1))
    case PushGivenUp =>
      s.(processor := CountingIn, log := s.log.(pushCancelled := s.log.pushCancelled + [s.processor.e]))
    case CountIn => s.(processor := Waiting, count := s.count.(eventsIn := s.count.eventsIn + 1))
  }

  // ---------------------------------------------------------------------------------------------------------
  // writeToKafka

  function BuildMessage(c: Setup, e: Event, traceId: string): Message {
    Message(e, DetectEventType(e), c.contentType, Route(c.topics, e),
            DedupKey.DedupKey(e, c.fields, c.separator, c.sha256hex), c.marshal(e), traceId)
  }

  predicate FeederEnabled(c: Setup, s: State, a: FeederAction) {
    match a
    case Pop => s.feeder.Popping? && s.queue != []
    case StopFeeder => s.feeder.Popping? && s.pool.ctxDone
    case NormalizeError => s.feeder.Normalizing?
    case Prepare(_) => s.feeder.Normalizing? && c.kafkaUp
    case Skip(_) => s.feeder.Normalizing? && !c.kafkaUp
    case WriteMessage => s.feeder.Writing?
    case CountOut => s.feeder.CountingOut?
  }

  function FeederStep(c: Setup, s: State, a: FeederAction): State
    requires FeederEnabled(c, s, a)
  {
    match a
    case Pop => s.(feeder := Normalizing(s.queue[0]), queue := s.queue[1..])
    case StopFeeder => s.(feeder := FeederStopped)
    case NormalizeError => s.(feeder := Popping, log := s.log.(failed := s.log.failed + [s.feeder.e]),
                              count := s.count.(normalizeErrors := s.count.normalizeErrors + 1))
    case Prepare(t) => s.(feeder := Writing(BuildMessage(c, s.feeder.e, t)))
    case Skip(t) => s.(feeder := CountingOut(NotInitialized), log := s.log.(skipped := s.log.skipped + [s.feeder.e]))
    case WriteMessage =>
      var m := s.feeder.m;
      var s' := s.(pool := WriteStep(c.pool, s.pool, m));
      if s.pool.closed then s'.(feeder := FeederPanicked, log := s.log.(panicLost := s.log.panicLost + [m.event]))
      else if |s.pool.ch| < Capacity(c.pool) then s'.(feeder := CountingOut(Success))
      else s'.(feeder := CountingOut(Failed), log := s.log.(rejected := s.log.rejected + [m.event]))
    case CountOut =>
      s.(feeder := Popping,
         count := match s.feeder.status
           case Success => s.count.(outSuccess := s.count.outSuccess + 1)
           case Failed => s.count.(outFailed := s.count.outFailed + 1)
           case NotInitialized => s.count.(outSkipped := s.count.outSkipped + 1))
  }

  // ---------------------------------------------------------------------------------------------------------
  // main

  predicate MainEnabled(s: State, a: MainAction) {
    match a
    case Signal => s.main.Serving?
    case PollEmpty => s.main.Draining? && s.queue == []
    case Recheck => s.main.SawEmpty?
    case DrainTimeout => s.main.Draining?
  }

  function CloseWriter(s: State): State { s.(main := WriterClosed, pool := s.pool.(closed := true)) }

  function MainStep(s: State, a: MainAction): State
    requires MainEnabled(s, a)
  {
    match a
    case Signal => s.(main := Draining, pool := s.pool.(ctxDone := true))
    case PollEmpty => s.(main := SawEmpty)
    case Recheck => if s.queue == [] then CloseWriter(s) else s.(main := Draining)
    case DrainTimeout => CloseWriter(s)
  }

  // ---------------------------------------------------------------------------------------------------------
  // Runs

  predicate MoveEnabled(c: Setup, s: State, m: Move) {
    match m
    case Read(r) => ReaderEnabled(c, s, r)
    case Handle(p) => ProcessorEnabled(c, s, p)
    case Feed(f) => FeederEnabled(c, s, f)
    case Pooled(id, w) => PoolEnabled(s.pool, Work(id, w))
    case Control(k) => MainEnabled(s, k)
  }

  function MoveStep(c: Setup, s: State, m: Move): State
    requires MoveEnabled(c, s, m)
  {
    match m
    case Read(r) => ReaderStep(c, s, r)
    case Handle(p) => ProcessorStep(c, s, p)
    case Feed(f) => FeederStep(c, s, f)
    case Pooled(id, w) => s.(pool := WorkStep(c.pool, s.pool, id, w))
    case Control(k) => MainStep(s, k)
  }

  predicate IsRun(c: Setup, moves: seq<Move>)
    decreases moves, 0
  {
    moves == [] ||
    (IsRun(c, moves[..|moves| - 1]) && MoveEnabled(c, Reached(c, moves[..|moves| - 1]), moves[|moves| - 1]))
  }

  /** The state a run reaches. */
  function Reached(c: Setup, moves: seq<Move>): State
    requires IsRun(c, moves)
    decreases moves, 1
  {
    if moves == [] then Start(c) else MoveStep(c, Reached(c, moves[..|moves| - 1]), moves[|moves| - 1])
  }

  predicate ValidSetup(c: Setup) { c.maxQueue > 0 && ValidConfig(c.pool) }
}
