// Replica convergence: several adapters subscribe to the same Tetragon and write to the same compacted topics.
module Replicas {
  import opened Seqs
  import opened Events
  import opened Worker
  import opened Pool
  import opened Pipeline
  import opened PipelineProofs
  import opened Compaction
  import opened Wrappers
  import DedupKey

  /** What the log cleaner sees of a record handed to Input. */
  function RecordEntry(c: Setup, r: Record): Entry {
    Entry((if r.Sent? then r.msg.topic else GetDlqTopic(c.topics), r.msg.key), r.msg.value)
  }

  /** A delivery: an event, to its own topic or to the dead-letter topic. */
  datatype Delivery = Delivery(event: Event, dead: bool)

  function DeliveryOf(r: Record): Delivery { Delivery(r.msg.event, r.DeadLetter?) }

  function KeyOf(c: Setup, e: Event): string { DedupKey.DedupKey(e, c.fields, c.separator, c.sha256hex) }

  function DeliveryEntry(c: Setup, d: Delivery): Entry {
    Entry((if d.dead then GetDlqTopic(c.topics) else Route(c.topics, d.event), KeyOf(c, d.event)), c.marshal(d.event))
  }

  function AsEntry(c: Setup): Delivery -> Entry { (d: Delivery) => DeliveryEntry(c, d) }

  function AsRecordEntry(c: Setup): Record -> Entry { (r: Record) => RecordEntry(c, r) }

  predicate EventDetermined(c: Setup, r: Record) { RecordEntry(c, r) == DeliveryEntry(c, DeliveryOf(r)) }

  /** Topic, key and value of every record of every run depend on the event alone; trace ids, batching and scheduling
      leave no trace in them. */
  lemma RecordsAreEventDetermined(c: Setup, moves: seq<Move>)
    requires ValidSetup(c) && IsRun(c, moves)
    ensures forall r | r in Reached(c, moves).pool.input :: EventDetermined(c, r)
  {
    hide WorkersOk, Accounted, InOrder, InReceiveOrder, Unplaced, Counted;
    RunSound(c, moves);
    var s := Reached(c, moves);
    forall r | r in s.pool.input ensures EventDetermined(c, r) {
      assert r.msg in s.pool.accepted;
      assert Built(c, r.msg);
    }
  }

  /** Every record handed to Input in any run carries exactly the marshalled event, under the event's key; to the topic
      of its kind, or to the dead-letter topic. */
  lemma RecordFields(c: Setup, moves: seq<Move>, r: Record)
    requires ValidSetup(c) && IsRun(c, moves) && r in Reached(c, moves).pool.input
    ensures r.msg.value == c.marshal(r.msg.event) && r.msg.contentType == c.contentType
    ensures r.msg.key == DedupKey.DedupKey(r.msg.event, c.fields, c.separator, c.sha256hex)
    ensures r.msg.topic == Route(c.topics, r.msg.event) && r.msg.eventType == DetectEventType(r.msg.event)
    ensures RecordEntry(c, r).value == c.marshal(r.msg.event) && RecordEntry(c, r).id.1 == r.msg.key
    ensures RecordEntry(c, r).id.0 ==
            if r == DeadLetter(r.msg) then GetDlqTopic(c.topics) else Route(c.topics, r.msg.event)
  {
    hide WorkersOk, Accounted, InOrder, InReceiveOrder, Unplaced, Counted, LeavesWell;
    RunSound(c, moves);
    var s := Reached(c, moves);
    assert r.msg in s.pool.accepted;
    assert Built(c, r.msg);
  }

  /** The Input logs of a deployment: one run of the adapter per replica. */
  function Inputs(c: Setup, runs: seq<seq<Move>>): (logs: seq<seq<Record>>)
    requires forall i | 0 <= i < |runs| :: IsRun(c, runs[i])
    ensures |logs| == |runs| && forall i | 0 <= i < |runs| :: logs[i] == Reached(c, runs[i]).pool.input
  {
    if runs == [] then [] else Inputs(c, runs[..|runs| - 1]) + [Reached(c, runs[|runs| - 1]).pool.input]
  }

  lemma MergedIsEventDetermined(c: Setup, runs: seq<seq<Move>>, merged: seq<Record>)
    requires ValidSetup(c) && forall i | 0 <= i < |runs| :: IsRun(c, runs[i])
    requires Interleaving(Inputs(c, runs), merged)
    ensures forall r | r in merged :: EventDetermined(c, r)
  {
    InterleavingElements(Inputs(c, runs), merged);
    forall r | r in merged ensures EventDetermined(c, r) {
      assert r in Elements(merged);
      var i :| 0 <= i < |runs| && r in Inputs(c, runs)[i];
      RecordsAreEventDetermined(c, runs[i]);
    }
  }

  lemma {:induction false} EntriesFactor(c: Setup, log: seq<Record>)
    requires forall r | r in log :: EventDetermined(c, r)
    ensures Map(AsRecordEntry(c), log) == Map(AsEntry(c), Map(DeliveryOf, log))
  {
    if log != [] {
      var front, r := log[..|log| - 1], log[|log| - 1];
      EntriesFactor(c, front);
      assert EventDetermined(c, r);
      assert (Map(DeliveryOf, front) + [DeliveryOf(r)])[..|front|] == Map(DeliveryOf, front);
    }
  }

  /** Two deployments of any numbers of replicas, with any interleavings inside and between the replicas, that delivered
      the same events leave the same compacted topics, provided equal keys carry equal values. */
  lemma ReplicasAgree(c: Setup, runs1: seq<seq<Move>>, merged1: seq<Record>,
                      runs2: seq<seq<Move>>, merged2: seq<Record>)
    requires ValidSetup(c)
    requires forall i | 0 <= i < |runs1| :: IsRun(c, runs1[i])
    requires forall i | 0 <= i < |runs2| :: IsRun(c, runs2[i])
    requires Interleaving(Inputs(c, runs1), merged1) && Interleaving(Inputs(c, runs2), merged2)
    requires Elements(Map(DeliveryOf, merged1)) == Elements(Map(DeliveryOf, merged2))
    requires Consistent(AsEntry(c), Elements(Map(DeliveryOf, merged1)))
    ensures Compact(Map(AsRecordEntry(c), merged1)) == Compact(Map(AsRecordEntry(c), merged2))
  {
    hide Map, Compact, Interleaving, Consistent, Elements, Inputs, EventDetermined;
    MergedIsEventDetermined(c, runs1, merged1);
    MergedIsEventDetermined(c, runs2, merged2);
    EntriesFactor(c, merged1);
    EntriesFactor(c, merged2);
    ConsistentConverges(AsEntry(c), Map(DeliveryOf, merged1), Map(DeliveryOf, merged2));
  }

  // ---------------------------------------------------------------------------------------------------------
  // When the default keys are good enough

  predicate DefaultKeys(c: Setup) { c.fields == DedupKey.DEFAULT_FIELDS && c.separator == ":" }

  predicate NoCollisions(c: Setup, events: set<Event>) {
    forall e1, e2 | e1 in events && e2 in events :: DedupKey.NoCollision(c.sha256hex, e1, e2)
  }

  function EventEntry(c: Setup): Event -> Entry { (e: Event) => DeliveryEntry(c, Delivery(e, false)) }

  lemma SameIdIffSameIdentity(c: Setup, e1: Event, e2: Event)
    requires DefaultKeys(c) && DedupKey.NoCollision(c.sha256hex, e1, e2)
    ensures EventEntry(c)(e1).id == EventEntry(c)(e2).id <==> DedupKey.SameIdentity(e1, e2)
  {
    DedupKey.KeyOnFields(e1, e2, c.sha256hex);
    if KeyOf(c, e1) == KeyOf(c, e2) {
      DedupKey.KeyFixesTopic(e1, e2, c.sha256hex, c.topics);
    }
  }

  /** The design's claim about a set of events, decided: every order, repetition and interleaving of their deliveries
      gives the same topic if and only if events with the same node, type, pid and timestamp marshal to the same
      value. */
  lemma DefaultKeysConvergeIff(c: Setup, events: set<Event>)
    requires DefaultKeys(c) && NoCollisions(c, events)
    ensures (forall a: seq<Event>, b: seq<Event> | Elements(a) == events && Elements(b) == events ::
               Compact(Map(EventEntry(c), a)) == Compact(Map(EventEntry(c), b)))
            <==>
            (forall e1, e2 | e1 in events && e2 in events ::
               DedupKey.SameIdentity(e1, e2) ==> c.marshal(e1) == c.marshal(e2))
  {
    hide Map, Compact, Elements, NoCollisions, DedupKey.SameIdentity, Consistent;
    ConvergesIffConsistent(EventEntry(c), events);
    ConsistentIffIdentity(c, events);
  }

  lemma ConsistentIffIdentity(c: Setup, events: set<Event>)
    requires DefaultKeys(c) && NoCollisions(c, events)
    ensures Consistent(EventEntry(c), events) <==>
            (forall e1, e2 | e1 in events && e2 in events ::
               DedupKey.SameIdentity(e1, e2) ==> c.marshal(e1) == c.marshal(e2))
  {
    hide DedupKey.SameIdentity, DedupKey.NoCollision, KeyOf;
    var entry := EventEntry(c);
    forall e1, e2 | e1 in events && e2 in events
      ensures (entry(e1).id == entry(e2).id <==> DedupKey.SameIdentity(e1, e2))
      ensures entry(e1).value == c.marshal(e1)
    {
      assert DedupKey.NoCollision(c.sha256hex, e1, e2);
      SameIdIffSameIdentity(c, e1, e2);
    }
  }

  /** Where a record goes and the event it carries. */
  datatype Target = Target(topic: string, event: Event)

  function TargetOf(c: Setup): Record -> Target {
    (r: Record) => Target(if r.Sent? then r.msg.topic else GetDlqTopic(c.topics), r.msg.event)
  }

  function AsTargetEntry(c: Setup): Target -> Entry {
    (t: Target) => Entry((t.topic, KeyOf(c, t.event)), c.marshal(t.event))
  }

  lemma {:induction false} TargetsFactor(c: Setup, log: seq<Record>)
    requires forall r | r in log :: EventDetermined(c, r)
    ensures Map(AsRecordEntry(c), log) == Map(AsTargetEntry(c), Map(TargetOf(c), log))
  {
    if log != [] {
      var front, r := log[..|log| - 1], log[|log| - 1];
      TargetsFactor(c, front);
      assert EventDetermined(c, r);
      assert (Map(TargetOf(c), front) + [TargetOf(c)(r)])[..|front|] == Map(TargetOf(c), front);
    }
  }

  function EventsOf(targets: set<Target>): set<Event> { set t | t in targets :: t.event }

  predicate Identifies(events: set<Event>) {
    forall e1, e2 | e1 in events && e2 in events :: DedupKey.SameIdentity(e1, e2) ==> e1 == e2
  }

  lemma TargetsInjective(c: Setup, targets: set<Target>)
    requires DefaultKeys(c) && NoCollisions(c, EventsOf(targets)) && Identifies(EventsOf(targets))
    ensures Injective(AsTargetEntry(c), targets)
  {
    hide DedupKey.SameIdentity, DedupKey.NoCollision, KeyOf;
    forall t1, t2 | t1 in targets && t2 in targets && AsTargetEntry(c)(t1).id == AsTargetEntry(c)(t2).id
      ensures t1 == t2
    {
      assert t1.event in EventsOf(targets) && t2.event in EventsOf(targets);
      assert DedupKey.NoCollision(c.sha256hex, t1.event, t2.event);
      SameKeySameIdentity(c, t1.event, t2.event);
    }
  }

  lemma SameKeySameIdentity(c: Setup, e1: Event, e2: Event)
    requires DefaultKeys(c) && DedupKey.NoCollision(c.sha256hex, e1, e2) && KeyOf(c, e1) == KeyOf(c, e2)
    ensures DedupKey.SameIdentity(e1, e2)
  {
    DedupKey.KeyOnFields(e1, e2, c.sha256hex);
  }

  /** If the identity really identifies, the topics of a deployment of any number of replicas end with exactly one
      record per event and topic it was handed to at least once, dead letters included. */
  lemma OneRecordPerEvent(c: Setup, runs: seq<seq<Move>>, merged: seq<Record>)
    requires ValidSetup(c) && forall i | 0 <= i < |runs| :: IsRun(c, runs[i])
    requires Interleaving(Inputs(c, runs), merged)
    requires var events := EventsOf(Elements(Map(TargetOf(c), merged)));
             DefaultKeys(c) && NoCollisions(c, events) && Identifies(events)
    ensures |Compact(Map(AsRecordEntry(c), merged))| == |Elements(Map(TargetOf(c), merged))|
    ensures forall t | t in Elements(Map(TargetOf(c), merged)) ::
              var m, id := Compact(Map(AsRecordEntry(c), merged)), (t.topic, KeyOf(c, t.event));
              id in m && m[id] == c.marshal(t.event)
  {
    hide Map, Compact, Interleaving, Inputs, EventDetermined, DefaultKeys, NoCollisions, Identifies, KeyOf, Injective;
    MergedIsEventDetermined(c, runs, merged);
    TargetsFactor(c, merged);
    var targets := Map(TargetOf(c), merged);
    TargetsInjective(c, Elements(targets));
    OneRecordPerDelivery(AsTargetEntry(c), targets);
    forall t | t in Elements(targets)
      ensures var m, id := Compact(Map(AsRecordEntry(c), merged)), (t.topic, KeyOf(c, t.event));
              id in m && m[id] == c.marshal(t.event)
    {
      assert t in targets;
      assert AsTargetEntry(c)(t).value == c.marshal(t.event);
    }
  }

  /** Events the default key cannot tell apart have the same id, hashed or not. */
  lemma SameIdentitySameId(c: Setup, e1: Event, e2: Event)
    requires DefaultKeys(c) && DedupKey.SameIdentity(e1, e2)
    ensures EventEntry(c)(e1).id == EventEntry(c)(e2).id
  {
    DedupKey.DefaultKey(e1, c.sha256hex);
    DedupKey.DefaultKey(e2, c.sha256hex);
    DedupKey.IdentityOnFields(e1, e2);
    assert DedupKey.RawKey(e1) == DedupKey.RawKey(e2);
  }

  /** It does not always identify: two different calls of one process in the same nanosecond share a key, and
      compaction keeps only the later one. */
  lemma TwoEventsOneRecord(c: Setup, node: string, pid: uint32, t: int64, p1: string, p2: string)
    requires DefaultKeys(c)
    ensures var body := Kprobe(Some(Process(Some(pid), "", None)), None);
            var e1, e2 := Event(node, body, Some(t), p1), Event(node, body, Some(t), p2);
            Compact(Map(EventEntry(c), [e1, e2])) == map[EventEntry(c)(e2).id := c.marshal(e2)]
  {
    hide Map, Compact, KeyOf, DefaultKeys;
    var body := Kprobe(Some(Process(Some(pid), "", None)), None);
    var e1, e2 := Event(node, body, Some(t), p1), Event(node, body, Some(t), p2);
    SameIdentitySameId(c, e1, e2);
    MapTwo(EventEntry(c), e1, e2);
    CompactTwo(EventEntry(c)(e1), EventEntry(c)(e2));
  }

  lemma MapTwo(entry: Event -> Entry, e1: Event, e2: Event)
    ensures Map(entry, [e1, e2]) == [entry(e1), entry(e2)]
  {
    assert [e1, e2][..1] == [e1] && [e1][..0] == [];
  }

  lemma CompactTwo(x: Entry, y: Entry)
    requires x.id == y.id
    ensures Compact([x, y]) == map[y.id := y.value]
  {
    assert [x, y][..1] == [x];
    CompactOne(x);
  }
}
