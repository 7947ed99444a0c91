// Tetragon events as far as the adapter looks at them, and internal/router.
module Events {
  import opened Wrappers

  newtype uint32 = n: int | 0 <= n < 0x1_0000_0000
  newtype int64 = n: int | -0x8000_0000_0000_0000 <= n < 0x8000_0000_0000_0000

  datatype Pod = Pod(namespace: string, name: string, container: Option<string>)
  datatype Process = Process(pid: Option<uint32>, binary: string, pod: Option<Pod>)

  /** The oneof of GetEventsResponse; `Other` stands for every kind the adapter does not name. */
  datatype Body =
    | Exec(process: Option<Process>, parent: Option<Process>)
    | Exit(process: Option<Process>, parent: Option<Process>)
    | Kprobe(process: Option<Process>, parent: Option<Process>)
    | Tracepoint(process: Option<Process>, parent: Option<Process>)
    | Test
    | Other

  /** `time` is the event time in Unix nanoseconds; `payload` is everything the adapter never reads. */
  datatype Event = Event(nodeName: string, body: Body, time: Option<int64>, payload: string)

  function DetectEventType(e: Event): string {
    match e.body
    case Exec(_, _) => "process_exec"
    case Exit(_, _) => "process_exit"
    case Kprobe(_, _) => "process_kprobe"
    case Tracepoint(_, _) => "process_tracepoint"
    case Test => "test"
    case Other => "unknown"
  }

  function GetEventNode(e: Event): string {
    if e.nodeName != "" then e.nodeName else "unknown"
  }

  function Route(topics: map<string, string>, e: Event): string {
    var eventType := DetectEventType(e);
    if eventType in topics then topics[eventType]
    else if "unknown" in topics then topics["unknown"]
    else "tetragon.unknown"
  }

  function GetDlqTopic(topics: map<string, string>): string {
    if "dlq" in topics then topics["dlq"] else "tetragon.dlq"
  }

  /** Two events of one kind of the oneof. */
  predicate SameKind(a: Body, b: Body) {
    && (a.Exec? <==> b.Exec?) && (a.Exit? <==> b.Exit?) && (a.Kprobe? <==> b.Kprobe?)
    && (a.Tracepoint? <==> b.Tracepoint?) && (a.Test? <==> b.Test?) && (a.Other? <==> b.Other?)
  }

  /** Type names tell the kinds apart. */
  lemma TypeIsKind(e1: Event, e2: Event)
    ensures DetectEventType(e1) == DetectEventType(e2) <==> SameKind(e1.body, e2.body)
  {
    assert "process_exec"[8] == 'e' && "process_exit"[8] == 'e' && "process_exec"[9] == 'x' && "process_exit"[9] == 'x';
    assert "process_exec"[10] == 'e' && "process_exit"[10] == 'i';
    assert "process_kprobe"[8] == 'k' && "process_tracepoint"[8] == 't';
    assert "test"[0] == 't' && "unknown"[0] == 'u' && "process_exec"[0] == 'p' && "process_exit"[0] == 'p';
    assert "process_kprobe"[0] == 'p' && "process_tracepoint"[0] == 'p';
  }

  /** The key under which the topic of an event is configured. */
  predicate ConfiguredUnder(b: Body, name: string) {
    match b
    case Exec(_, _) => name == "process_exec"
    case Exit(_, _) => name == "process_exit"
    case Kprobe(_, _) => name == "process_kprobe"
    case Tracepoint(_, _) => name == "process_tracepoint"
    case Test => name == "test"
    case Other => name == "unknown"
  }

  /** The topic of the event's own kind comes first, then the one for unknown events, then a constant. */
  lemma RouteByKind(topics: map<string, string>, e: Event, name: string)
    requires ConfiguredUnder(e.body, name)
    ensures name in topics ==> Route(topics, e) == topics[name]
    ensures name !in topics && "unknown" in topics ==> Route(topics, e) == topics["unknown"]
    ensures name !in topics && "unknown" !in topics ==> Route(topics, e) == "tetragon.unknown"
    ensures "dlq" in topics ==> GetDlqTopic(topics) == topics["dlq"]
    ensures "dlq" !in topics ==> GetDlqTopic(topics) == "tetragon.dlq"
  {
  }
}
