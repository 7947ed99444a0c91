// internal/kafka/writer.go: one batching worker as a small-step machine. Every select of worker, flushBatch and
// writeToDLQ is an action, so that a pool of workers interleaves at the same points as the goroutines do.
module Worker {
  import opened Events
  import opened Seqs

  datatype Message = Message(event: Event, eventType: string, contentType: string,
                             topic: string, key: string, value: string, traceId: string)

  /** The id under which flushBatch notes a message in its map. */
  function MessageId(m: Message): string {
    if m.traceId == "" then m.topic + ":" + m.key else m.traceId
  }

  /** A record handed to the producer's Input: to the message's own topic, or to the dead-letter topic. */
  datatype Record = Sent(msg: Message) | DeadLetter(msg: Message)

  function Messages(out: seq<Record>): seq<Message> {
    if out == [] then [] else Messages(out[..|out| - 1]) + [out[|out| - 1].msg]
  }

  function SentMessages(out: seq<Record>): seq<Message> {
    if out == [] then []
    else SentMessages(out[..|out| - 1]) + (if out[|out| - 1].Sent? then [out[|out| - 1].msg] else [])
  }

  // ---------------------------------------------------------------------------------------------------------
  // writeToDLQ

  /** What the environment decides for one dead-letter write. Its selects come in this order: send, wait, send, wait,
      send. The first `done` of them find the context live, all later ones find it done. A send blocks until Input
      takes the record or the context is done; `accepts[k]`: attempt k is taken although the context is done. A wait
      ends with its timer or the context; `expires[k]`: the timer before attempt k is picked although the context is
      done. */
  datatype DlqEnv = DlqEnv(done: nat, accepts: seq<bool>, expires: seq<bool>)

  datatype DlqOutcome = Written | Exhausted | GaveUp

  predicate At(s: seq<bool>, i: nat) { i < |s| && s[i] }

  predicate SendFails(env: DlqEnv, k: nat) { env.done <= 2 * k && !At(env.accepts, k) }

  predicate WaitInterrupted(env: DlqEnv, k: nat) { env.done < 2 * k && !At(env.expires, k) }

  const MAX_RETRIES := 3

  /** The outcome from attempt k on. */
  function DlqFrom(env: DlqEnv, k: nat): DlqOutcome
    decreases MAX_RETRIES - k
  {
    if k >= MAX_RETRIES then Exhausted
    else if k > 0 && WaitInterrupted(env, k) then GaveUp
    else if !SendFails(env, k) then Written
    else DlqFrom(env, k + 1)
  }

  /** The calls of SendMessage from attempt k on. */
  function AttemptsFrom(env: DlqEnv, k: nat): nat
    decreases MAX_RETRIES - k
  {
    if k >= MAX_RETRIES || (k > 0 && WaitInterrupted(env, k)) then 0
    else if !SendFails(env, k) then 1
    else 1 + AttemptsFrom(env, k + 1)
  }

  function DlqResult(env: DlqEnv): DlqOutcome { DlqFrom(env, 0) }

  // ---------------------------------------------------------------------------------------------------------
  // The machine

  /** Sending(i): message i of the batch is offered to Input. DeadLettering(k): message k is being dead-lettered. */
  datatype Pc = Collecting | Sending(i: nat, exiting: bool) | DeadLettering(k: nat, exiting: bool) | Exited

  /** `received`: everything taken from messageCh. `out`: everything handed to Input.
      `exhausted`: dead-letter writes that failed and were counted. `gaveUp`: abandoned without a count.
      `missed`: in hand when a flush was cancelled and neither sent nor dead-lettered.
      `resent`: dead-lettered although already sent. `cut`: some send was cancelled. */
  datatype Worker = Worker(pc: Pc, batch: seq<Message>, received: seq<Message>, out: seq<Record>,
                           exhausted: seq<Message>, gaveUp: seq<Message>, missed: seq<Message>, resent: seq<Message>,
                           cut: bool)

  const FRESH := Worker(Collecting, [], [], [], [], [], [], [], false)

  datatype Action =
    | Receive(m: Message)
    | Tick
    | ChannelClosed
    | ContextDone
    | SendOk
    | SendCancelled
    | DlqWrite(outcome: DlqOutcome)

  predicate Enabled(w: Worker, a: Action) {
    match a
    case Receive(_) => w.pc.Collecting?
    case Tick => w.pc.Collecting?
    case ChannelClosed => w.pc.Collecting?
    case ContextDone => w.pc.Collecting?
    case SendOk => w.pc.Sending? && w.pc.i < |w.batch|
    case SendCancelled => w.pc.Sending? && w.pc.i < |w.batch|
    case DlqWrite(_) => w.pc.DeadLettering? && w.pc.k < |w.batch|
  }

  function BeginFlush(w: Worker, exiting: bool): Worker {
    if w.batch == [] then w.(pc := if exiting then Exited else Collecting) else w.(pc := Sending(0, exiting))
  }

  function EndFlush(w: Worker, exiting: bool): Worker {
    w.(batch := [], pc := if exiting then Exited else Collecting)
  }

  /** len(sentMessages): distinct ids, not messages. */
  function DistinctIds(ms: seq<Message>): (n: nat) {
    |Ids(ms)|
  }

  function ToDeadLetters(w: Worker, k: nat, exiting: bool): Worker {
    if k >= |w.batch| then EndFlush(w, exiting) else w.(pc := DeadLettering(k, exiting))
  }

  /** Message i is in hand and dead-lettering will start at message k. */
  function NoteCut(w: Worker, i: nat, k: nat): Worker
    requires i < |w.batch|
  {
    if k > i then w.(cut := true, missed := w.missed + [w.batch[i]])
    else w.(cut := true, resent := w.resent + w.batch[k..i])
  }

  /** The cancelled send of message i: dead-lettering starts at batch[len(sentMessages):]. */
  function CancelSend(w: Worker, i: nat, exiting: bool): Worker
    requires i < |w.batch|
  {
    var k := DistinctIds(w.batch[..i + 1]);
    ToDeadLetters(NoteCut(w, i, k), k, exiting)
  }

  function NoteDlq(w: Worker, m: Message, o: DlqOutcome): Worker {
    match o
    case Written => w.(out := w.out + [DeadLetter(m)])
    case Exhausted => w.(exhausted := w.exhausted + [m])
    case GaveUp => w.(gaveUp := w.gaveUp + [m])
  }

  function Step(maxMessages: nat, w: Worker, a: Action): Worker
    requires Enabled(w, a)
  {
    match a
    case Receive(m) =>
      var w' := w.(batch := w.batch + [m], received := w.received + [m]);
      if |w'.batch| >= maxMessages then BeginFlush(w', false) else w'
    case Tick => BeginFlush(w, false)
    case ChannelClosed => BeginFlush(w, true)
    case ContextDone => BeginFlush(w, true)
    case SendOk =>
      var (i, exiting) := (w.pc.i, w.pc.exiting);
      var w' := w.(out := w.out + [Sent(w.batch[i])]);
      if i + 1 == |w.batch| then EndFlush(w', exiting) else w'.(pc := Sending(i + 1, exiting))
    case SendCancelled => CancelSend(w, w.pc.i, w.pc.exiting)
    case DlqWrite(o) =>
      ToDeadLetters(NoteDlq(w, w.batch[w.pc.k], o), w.pc.k + 1, w.pc.exiting)
  }

  /** The messages the worker holds. */
  function Held(w: Worker): seq<Message> {
    match w.pc
    case Collecting => w.batch
    case Sending(i, _) => if i <= |w.batch| then w.batch[i..] else []
    case DeadLettering(k, _) => if k <= |w.batch| then w.batch[k..] else []
    case Exited => []
  }

  /** The messages the worker may still send to their own topic. */
  function Pending(w: Worker): seq<Message> {
    if w.pc.DeadLettering? then [] else Held(w)
  }

  predicate Shape(maxMessages: nat, w: Worker) {
    match w.pc
    case Collecting => |w.batch| < maxMessages
    case Sending(i, _) => i < |w.batch| <= maxMessages
    case DeadLettering(k, _) => k < |w.batch| <= maxMessages
    case Exited => w.batch == []
  }

  /** Every message received is in exactly one place; only a dead-lettered duplicate is in two. */
  ghost predicate Conserved(w: Worker) {
    multiset(w.received) + multiset(w.resent)
    == multiset(Held(w)) + multiset(Messages(w.out)) + multiset(w.exhausted) + multiset(w.gaveUp) + multiset(w.missed)
  }

  /** Messages are sent to their own topics in the order received. */
  ghost predicate Ordered(w: Worker) {
    Subseq(SentMessages(w.out) + Pending(w), w.received)
  }

  /** Everything handed to Input, dead letters included, is in the order received, as long as no cancelled flush
      dead-lettered a message it had already sent. */
  ghost predicate InputOrdered(w: Worker) {
    w.resent == [] ==> Subseq(Messages(w.out) + Held(w), w.received)
  }

  /** The batch is the last that was received, and only a repeated id makes a flush send a message twice. */
  predicate Tail(w: Worker) {
    && |w.batch| <= |w.received| && w.batch == w.received[|w.received| - |w.batch|..]
    && (DistinctMessages(w.received) ==> w.resent == [])
  }

  /** Until a send is cancelled nothing is lost, duplicated, dead-lettered or reordered. */
  ghost predicate CleanSoFar(w: Worker) {
    !w.cut ==>
      && SentMessages(w.out) + Pending(w) == w.received
      && w.exhausted == [] && w.gaveUp == []
      && (forall r | r in w.out :: r.Sent?)
      && !w.pc.DeadLettering?
  }

  ghost predicate Inv(maxMessages: nat, w: Worker) {
    Shape(maxMessages, w) && Conserved(w) && Ordered(w) && CleanSoFar(w) && InputOrdered(w) && Tail(w)
  }

  lemma FreshInv(maxMessages: nat)
    requires maxMessages > 0
    ensures Inv(maxMessages, FRESH)
  {
  }

  function Ids(ms: seq<Message>): set<string> {
    set m | m in ms :: MessageId(m)
  }

  lemma IdsSnoc(ms: seq<Message>, m: Message)
    ensures Ids(ms + [m]) == Ids(ms) + {MessageId(m)}
  {
    assert m in ms + [m];
  }

  lemma IdsAreElements(ms: seq<Message>, id: string)
    ensures id in Ids(ms) <==> exists i :: 0 <= i < |ms| && MessageId(ms[i]) == id
  {
    if id in Ids(ms) {
      var m :| m in ms && MessageId(m) == id;
      var i :| 0 <= i < |ms| && ms[i] == m;
    }
  }

  predicate DistinctMessages(ms: seq<Message>) {
    forall i, j | 0 <= i < j < |ms| :: MessageId(ms[i]) != MessageId(ms[j])
  }

  lemma DistinctSnoc(front: seq<Message>, m: Message)
    ensures DistinctMessages(front + [m]) <==> DistinctMessages(front) && MessageId(m) !in Ids(front)
  {
    var ms, n := front + [m], |front|;
    IdsAreElements(front, MessageId(m));
    assert ms[n] == m && forall i | 0 <= i < n :: ms[i] == front[i];
    if MessageId(m) in Ids(front) {
      var i :| 0 <= i < n && MessageId(front[i]) == MessageId(m);
      assert MessageId(ms[i]) == MessageId(ms[n]);
    } else if DistinctMessages(front) {
      forall i, j | 0 <= i < j < |ms| ensures MessageId(ms[i]) != MessageId(ms[j]) {
        assert j < n ==> MessageId(front[i]) != MessageId(front[j]);
      }
    }
    if DistinctMessages(ms) {
      forall i, j | 0 <= i < j < n ensures MessageId(front[i]) != MessageId(front[j]) {
        assert MessageId(ms[i]) != MessageId(ms[j]);
      }
    }
  }

  lemma NoMessages()
    ensures Ids([]) == {} && DistinctMessages([])
  {
  }

  predicate WithinBounds(ms: seq<Message>) {
    && DistinctIds(ms) <= |ms| && (ms != [] ==> DistinctIds(ms) >= 1)
    && (DistinctIds(ms) == |ms| <==> DistinctMessages(ms))
  }

  lemma {:induction false} DistinctBounds(ms: seq<Message>)
    ensures WithinBounds(ms)
  {
    hide WithinBounds;
    if ms == [] {
      NoBounds();
    } else {
      DistinctBounds(ms[..|ms| - 1]);
      BoundsSnoc(ms[..|ms| - 1], ms[|ms| - 1]);
      assert ms == ms[..|ms| - 1] + [ms[|ms| - 1]];
    }
  }

  lemma NoBounds()
    ensures WithinBounds([])
  {
    NoDistinctIds();
  }

  lemma BoundsSnoc(front: seq<Message>, m: Message)
    requires WithinBounds(front)
    ensures WithinBounds(front + [m])
  {
    hide DistinctMessages, DistinctIds;
    OneMoreId(front, m);
    DistinctSnoc(front, m);
  }

  lemma NoDistinctIds()
    ensures DistinctIds([]) == 0 && DistinctMessages([])
  {
    NoMessages();
  }

  /** Another message makes the map larger by one entry unless its id is in it. */
  lemma OneMoreId(ms: seq<Message>, m: Message)
    ensures DistinctIds(ms + [m]) == DistinctIds(ms) + (if MessageId(m) in Ids(ms) then 0 else 1)
    ensures DistinctIds(ms + [m]) >= 1
  {
    hide MessageId, Ids;
    var id := MessageId(m);
    IdsSnoc(ms, m);
    if id in Ids(ms) {
      assert Ids(ms) + {id} == Ids(ms);
      assert |Ids(ms)| >= |{id}| by {
        assert Ids(ms) == (Ids(ms) - {id}) + {id};
      }
    } else {
      assert |Ids(ms) + {id}| == |Ids(ms)| + 1;
    }
  }

  lemma RecordAppend(out: seq<Record>, r: Record)
    ensures Messages(out + [r]) == Messages(out) + [r.msg]
    ensures multiset(Messages(out + [r])) == multiset(Messages(out)) + multiset{r.msg}
    ensures SentMessages(out + [r]) == SentMessages(out) + if r.Sent? then [r.msg] else []
  {
    assert (out + [r])[..|out|] == out;
  }

  lemma StepShape(maxMessages: nat, w: Worker, a: Action)
    requires maxMessages > 0 && Shape(maxMessages, w) && Enabled(w, a)
    ensures Shape(maxMessages, Step(maxMessages, w, a))
  {
    if a.SendCancelled? {
      DistinctBounds(w.batch[..w.pc.i + 1]);
    }
  }

  /** How far the ledger of one message is out of balance. */
  function Count(s: seq<Message>, m: Message): int { multiset(s)[m] }

  ghost function Balance(w: Worker, held: seq<Message>, m: Message): int {
    Count(w.received, m) + Count(w.resent, m) - Count(held, m) - Count(Messages(w.out), m)
    - Count(w.exhausted, m) - Count(w.gaveUp, m) - Count(w.missed, m)
  }

  lemma BalanceIsConservation(w: Worker)
    ensures Conserved(w) <==> forall m :: Balance(w, Held(w), m) == 0
  {
    var placed := multiset(Held(w)) + multiset(Messages(w.out)) + multiset(w.exhausted) + multiset(w.gaveUp)
                  + multiset(w.missed);
    var taken := multiset(w.received) + multiset(w.resent);
    forall m ensures taken[m] == placed[m] + Balance(w, Held(w), m) {
    }
    if forall m :: Balance(w, Held(w), m) == 0 {
      forall m ensures taken[m] == placed[m] {
        assert Balance(w, Held(w), m) == 0;
      }
      assert taken == placed;
    }
  }

  lemma HeldWhenStarted(w: Worker, exiting: bool)
    ensures Held(BeginFlush(w, exiting)) == w.batch
  {
  }

  lemma HeldFrom(w: Worker, k: nat, exiting: bool)
    requires k <= |w.batch|
    ensures Held(ToDeadLetters(w, k, exiting)) == w.batch[k..]
  {
  }

  lemma HeldAfterSend(maxMessages: nat, w: Worker)
    requires Enabled(w, SendOk)
    ensures Held(Step(maxMessages, w, SendOk)) == w.batch[w.pc.i + 1..]
  {
  }

  lemma ReceiveBalance(w: Worker, m: Message, x: Message)
    ensures Balance(w.(received := w.received + [m]), w.batch + [m], x) == Balance(w, w.batch, x)
  {
  }

  lemma CountAppend(a: seq<Message>, b: seq<Message>, x: Message)
    ensures Count(a + b, x) == Count(a, x) + Count(b, x)
  {
  }

  lemma CountSplit(b: seq<Message>, i: nat, x: Message)
    requires i < |b|
    ensures Count(b[i..], x) == Count([b[i]], x) + Count(b[i + 1..], x)
  {
    assert b[i..] == [b[i]] + b[i + 1..];
  }

  lemma SendBalance(w: Worker, i: nat, x: Message)
    requires i < |w.batch|
    ensures Balance(w.(out := w.out + [Sent(w.batch[i])]), w.batch[i + 1..], x) == Balance(w, w.batch[i..], x)
  {
    hide Count, Messages, SentMessages;
    RecordAppend(w.out, Sent(w.batch[i]));
    CountAppend(Messages(w.out), [w.batch[i]], x);
    CountSplit(w.batch, i, x);
  }

  lemma CutBalance(w: Worker, i: nat, k: nat, x: Message)
    requires i < |w.batch| && k <= i + 1
    ensures Balance(NoteCut(w, i, k), w.batch[k..], x) == Balance(w, w.batch[i..], x)
  {
    hide Count, Messages;
    if k > i {
      CountAppend(w.missed, [w.batch[i]], x);
      CountSplit(w.batch, i, x);
    } else {
      CountAppend(w.resent, w.batch[k..i], x);
      CountAppend(w.batch[k..i], w.batch[i..], x);
      assert w.batch[k..] == w.batch[k..i] + w.batch[i..];
    }
  }

  lemma DlqBalance(w: Worker, k: nat, o: DlqOutcome, x: Message)
    requires k < |w.batch|
    ensures Balance(NoteDlq(w, w.batch[k], o), w.batch[k + 1..], x) == Balance(w, w.batch[k..], x)
  {
    hide Count, Messages, SentMessages;
    var m := w.batch[k];
    RecordAppend(w.out, DeadLetter(m));
    CountAppend(Messages(w.out), [m], x);
    CountAppend(w.exhausted, [m], x);
    CountAppend(w.gaveUp, [m], x);
    CountSplit(w.batch, k, x);
  }

  lemma StartBalance(w: Worker, exiting: bool, x: Message)
    requires w.pc.Collecting?
    ensures Balance(BeginFlush(w, exiting), Held(BeginFlush(w, exiting)), x) == Balance(w, Held(w), x)
  {
    HeldWhenStarted(w, exiting);
  }

  lemma ReceiveStepBalance(maxMessages: nat, w: Worker, m: Message, x: Message)
    requires w.pc.Collecting?
    ensures var w' := Step(maxMessages, w, Receive(m)); Balance(w', Held(w'), x) == Balance(w, Held(w), x)
  {
    ReceiveBalance(w, m, x);
    HeldWhenStarted(w.(batch := w.batch + [m], received := w.received + [m]), false);
  }

  lemma DlqStepBalance(w: Worker, k: nat, exiting: bool, o: DlqOutcome, x: Message)
    requires w.pc == DeadLettering(k, exiting) && k < |w.batch|
    ensures var w' := ToDeadLetters(NoteDlq(w, w.batch[k], o), k + 1, exiting);
            Balance(w', Held(w'), x) == Balance(w, Held(w), x)
  {
    hide Balance, NoteDlq, Held, ToDeadLetters;
    DlqBalance(w, k, o, x);
    HeldInDlq(w, k, exiting);
    DlqFields(w, k, exiting, o);
    ToDeadLettersBalance(NoteDlq(w, w.batch[k], o), k + 1, exiting, w.batch[k + 1..], x);
  }

  lemma ToDeadLettersBalance(w: Worker, k: nat, exiting: bool, held: seq<Message>, x: Message)
    ensures Balance(ToDeadLetters(w, k, exiting), held, x) == Balance(w, held, x)
  {
    hide Count, Messages;
  }

  lemma SendStepBalance(maxMessages: nat, w: Worker, x: Message)
    requires Enabled(w, SendOk)
    ensures var w' := Step(maxMessages, w, SendOk); Balance(w', Held(w'), x) == Balance(w, Held(w), x)
  {
    SendBalance(w, w.pc.i, x);
    HeldAfterSend(maxMessages, w);
  }

  lemma StepBalance(maxMessages: nat, w: Worker, a: Action, x: Message)
    requires Enabled(w, a)
    ensures Balance(Step(maxMessages, w, a), Held(Step(maxMessages, w, a)), x) == Balance(w, Held(w), x)
  {
    hide Balance, Held;
    match a
    case Receive(m) => ReceiveStepBalance(maxMessages, w, m, x);
    case Tick => StartBalance(w, false, x);
    case ChannelClosed | ContextDone => StartBalance(w, true, x);
    case SendOk => SendStepBalance(maxMessages, w, x);
    case SendCancelled => CancelBalance(w, w.pc.i, w.pc.exiting, x);
    case DlqWrite(o) => DlqStepBalance(w, w.pc.k, w.pc.exiting, o, x);
  }

  lemma CancelBalance(w: Worker, i: nat, exiting: bool, x: Message)
    requires w.pc == Sending(i, exiting) && i < |w.batch|
    ensures Balance(CancelSend(w, i, exiting), Held(CancelSend(w, i, exiting)), x) == Balance(w, Held(w), x)
  {
    var k := DistinctIds(w.batch[..i + 1]);
    DistinctBounds(w.batch[..i + 1]);
    CutBalance(w, i, k, x);
    HeldFrom(NoteCut(w, i, k), k, exiting);
  }

  lemma StepConserved(maxMessages: nat, w: Worker, a: Action)
    requires Conserved(w) && Enabled(w, a)
    ensures Conserved(Step(maxMessages, w, a))
  {
    BalanceIsConservation(w);
    BalanceIsConservation(Step(maxMessages, w, a));
    forall x ensures Balance(Step(maxMessages, w, a), Held(Step(maxMessages, w, a)), x) == 0 {
      StepBalance(maxMessages, w, a, x);
    }
  }

  lemma StartKeepsOrder(w: Worker, exiting: bool)
    requires w.pc.Collecting? && Ordered(w) && CleanSoFar(w)
    ensures Ordered(BeginFlush(w, exiting)) && CleanSoFar(BeginFlush(w, exiting))
  {
    HeldWhenStarted(w, exiting);
  }

  lemma ReceiveKeepsOrder(maxMessages: nat, w: Worker, m: Message)
    requires w.pc.Collecting? && Ordered(w) && CleanSoFar(w)
    ensures Ordered(Step(maxMessages, w, Receive(m))) && CleanSoFar(Step(maxMessages, w, Receive(m)))
  {
    hide SentMessages, Subseq;
    var w' := w.(batch := w.batch + [m], received := w.received + [m]);
    assert SentMessages(w.out) + (w.batch + [m]) == (SentMessages(w.out) + w.batch) + [m];
    SubseqSnoc(SentMessages(w.out) + w.batch, w.received, m);
    StartKeepsOrder(w', false);
  }

  lemma SendKeepsOrder(maxMessages: nat, w: Worker)
    requires Enabled(w, SendOk) && Ordered(w) && CleanSoFar(w)
    ensures Ordered(Step(maxMessages, w, SendOk)) && CleanSoFar(Step(maxMessages, w, SendOk))
  {
    hide SentMessages, Pending, Held, Subseq;
    SendMovesOn(maxMessages, w);
    var w' := Step(maxMessages, w, SendOk);
    assert forall r | r in w'.out :: r in w.out || r == Sent(w.batch[w.pc.i]);
  }

  lemma SendMovesOn(maxMessages: nat, w: Worker)
    requires Enabled(w, SendOk)
    ensures var w' := Step(maxMessages, w, SendOk);
            SentMessages(w'.out) + Pending(w') == SentMessages(w.out) + Pending(w)
  {
    hide SentMessages, Messages, Held, Step;
    var i, sent := w.pc.i, SentMessages(w.out);
    SendFields(maxMessages, w);
    RecordAppend(w.out, Sent(w.batch[i]));
    SplitMove(sent, w.batch, i);
  }

  lemma SendFields(maxMessages: nat, w: Worker)
    requires Enabled(w, SendOk)
    ensures var w' := Step(maxMessages, w, SendOk);
            && w'.out == w.out + [Sent(w.batch[w.pc.i])] && !w'.pc.DeadLettering?
            && Held(w) == w.batch[w.pc.i..] && Held(w') == w.batch[w.pc.i + 1..]
  {
    HeldAfterSend(maxMessages, w);
  }

  lemma SplitMove(a: seq<Message>, b: seq<Message>, i: nat)
    requires i < |b|
    ensures a + [b[i]] + b[i + 1..] == a + b[i..]
  {
    assert b[i..] == [b[i]] + b[i + 1..];
  }

  lemma CancelFields(w: Worker, i: nat, exiting: bool)
    requires i < |w.batch|
    ensures var w' := CancelSend(w, i, exiting);
            w'.out == w.out && w'.received == w.received && w'.cut && Pending(w') == []
  {
    hide DistinctIds;
  }

  lemma CancelKeepsOrder(w: Worker, i: nat, exiting: bool)
    requires w.pc == Sending(i, exiting) && i < |w.batch| && Ordered(w)
    ensures Ordered(CancelSend(w, i, exiting)) && CancelSend(w, i, exiting).cut
  {
    hide Subseq, SentMessages, CancelSend;
    var sent := SentMessages(w.out);
    SubseqPrefix(sent, w.batch[i..]);
    SubseqTrans(sent, sent + w.batch[i..], w.received);
    assert sent + [] == sent;
    CancelFields(w, i, exiting);
  }

  lemma DlqKeepsOrder(w: Worker, k: nat, exiting: bool, o: DlqOutcome)
    requires w.pc == DeadLettering(k, exiting) && k < |w.batch| && Ordered(w)
    ensures Ordered(ToDeadLetters(NoteDlq(w, w.batch[k], o), k + 1, exiting))
  {
    hide Messages, SentMessages, Subseq, NoteDlq, ToDeadLetters, Held;
    DlqFields(w, k, exiting, o);
    RecordAppend(w.out, DeadLetter(w.batch[k]));
    NothingPending(w, k, exiting, o);
    var sent := SentMessages(w.out);
    assert sent + [] == sent;
  }

  lemma NothingPending(w: Worker, k: nat, exiting: bool, o: DlqOutcome)
    requires w.pc == DeadLettering(k, exiting) && k < |w.batch|
    ensures Pending(w) == [] && Pending(ToDeadLetters(NoteDlq(w, w.batch[k], o), k + 1, exiting)) == []
  {
  }

  // ---------------------------------------------------------------------------------------------------------
  // The order of everything handed to Input

  lemma StartKeepsInput(w: Worker, exiting: bool)
    requires w.pc.Collecting? && InputOrdered(w) && Tail(w)
    ensures InputOrdered(BeginFlush(w, exiting)) && Tail(BeginFlush(w, exiting))
  {
    hide Messages, Subseq, DistinctMessages;
    HeldWhenStarted(w, exiting);
  }

  lemma ReceiveKeepsInput(maxMessages: nat, w: Worker, m: Message)
    requires w.pc.Collecting? && InputOrdered(w) && Tail(w)
    ensures InputOrdered(Step(maxMessages, w, Receive(m))) && Tail(Step(maxMessages, w, Receive(m)))
  {
    hide Messages, Subseq, DistinctMessages;
    var w' := w.(batch := w.batch + [m], received := w.received + [m]);
    assert Messages(w.out) + (w.batch + [m]) == (Messages(w.out) + w.batch) + [m];
    if w.resent == [] {
      SubseqSnoc(Messages(w.out) + w.batch, w.received, m);
    }
    DistinctSnoc(w.received, m);
    StartKeepsInput(w', false);
  }

  /** Handing message i to Input moves it from one side of the chain to the other. */
  lemma EmitKeepsChain(out: seq<Record>, r: Record, b: seq<Message>, i: nat)
    requires i < |b| && r.msg == b[i]
    ensures Messages(out + [r]) + b[i + 1..] == Messages(out) + b[i..]
  {
    RecordAppend(out, r);
    SplitMove(Messages(out), b, i);
  }

  /** Losing it deletes it from the chain. */
  lemma LoseKeepsChain(a: seq<Message>, b: seq<Message>, i: nat, received: seq<Message>)
    requires i < |b| && Subseq(a + b[i..], received)
    ensures Subseq(a + b[i + 1..], received)
  {
    SplitMove(a, b, i);
    SubseqDelete(a, b[i], b[i + 1..]);
    SubseqTrans(a + b[i + 1..], a + [b[i]] + b[i + 1..], received);
  }

  lemma SendKeepsInput(maxMessages: nat, w: Worker)
    requires Enabled(w, SendOk) && InputOrdered(w) && Tail(w)
    ensures InputOrdered(Step(maxMessages, w, SendOk)) && Tail(Step(maxMessages, w, SendOk))
  {
    hide Messages, Subseq, DistinctMessages;
    HeldAfterSend(maxMessages, w);
    EmitKeepsChain(w.out, Sent(w.batch[w.pc.i]), w.batch, w.pc.i);
  }

  lemma CancelEffect(w: Worker, i: nat, exiting: bool)
    requires i < |w.batch|
    ensures var (w', k) := (CancelSend(w, i, exiting), DistinctIds(w.batch[..i + 1]));
            && 1 <= k <= i + 1
            && w'.out == w.out && w'.received == w.received && (w'.batch == w.batch || w'.batch == [])
            && w'.resent == (if k > i then w.resent else w.resent + w.batch[k..i])
            && Held(w') == w.batch[k..]
  {
    hide DistinctIds;
    var k := DistinctIds(w.batch[..i + 1]);
    DistinctBounds(w.batch[..i + 1]);
    HeldFrom(NoteCut(w, i, k), k, exiting);
  }

  /** While the ids received are distinct, so are those of the batch. */
  lemma TailDistinct(w: Worker, n: nat)
    requires Tail(w) && n <= |w.batch| && DistinctMessages(w.received)
    ensures DistinctIds(w.batch[..n]) == n
  {
    hide DistinctMessages, DistinctIds;
    var start := |w.received| - |w.batch|;
    SliceDistinct(w.received, start, start + n);
    assert w.received[start..start + n] == w.batch[..n];
    DistinctBounds(w.batch[..n]);
  }

  lemma CancelKeepsInput(w: Worker, i: nat, exiting: bool)
    requires w.pc == Sending(i, exiting) && i < |w.batch| && InputOrdered(w) && Tail(w)
    ensures InputOrdered(CancelSend(w, i, exiting)) && Tail(CancelSend(w, i, exiting))
  {
    hide Tail, Messages, Subseq, DistinctIds, CancelSend, Held;
    CancelEffect(w, i, exiting);
    CancelKeepsTail(w, i, exiting);
    var k := DistinctIds(w.batch[..i + 1]);
    if w.resent == [] && k >= i {
      HeldInSend(w, i, exiting);
      LoseKeepsChain(Messages(w.out), w.batch, i, w.received);
    } else if k < i {
      assert |w.batch[k..i]| > 0;
    }
  }

  lemma HeldInSend(w: Worker, i: nat, exiting: bool)
    requires w.pc == Sending(i, exiting) && i < |w.batch|
    ensures Held(w) == w.batch[i..]
  {
  }

  lemma CancelKeepsTail(w: Worker, i: nat, exiting: bool)
    requires i < |w.batch| && Tail(w)
    ensures Tail(CancelSend(w, i, exiting))
  {
    hide DistinctIds, DistinctMessages, CancelSend, Held, Messages;
    CancelEffect(w, i, exiting);
    if DistinctMessages(w.received) {
      TailDistinct(w, i + 1);
    }
  }

  lemma SliceDistinct(ms: seq<Message>, i: nat, j: nat)
    requires i <= j <= |ms| && DistinctMessages(ms)
    ensures DistinctMessages(ms[i..j])
  {
    forall p, q | 0 <= p < q < j - i ensures MessageId(ms[i..j][p]) != MessageId(ms[i..j][q]) {
      assert MessageId(ms[i + p]) != MessageId(ms[i + q]);
    }
  }

  lemma DlqKeepsInput(w: Worker, k: nat, exiting: bool, o: DlqOutcome)
    requires w.pc == DeadLettering(k, exiting) && k < |w.batch| && InputOrdered(w) && Tail(w)
    ensures var w' := ToDeadLetters(NoteDlq(w, w.batch[k], o), k + 1, exiting); InputOrdered(w') && Tail(w')
  {
    hide Messages, Subseq, DistinctMessages, ToDeadLetters, NoteDlq, Held;
    DlqFields(w, k, exiting, o);
    HeldInDlq(w, k, exiting);
    EmitKeepsChain(w.out, DeadLetter(w.batch[k]), w.batch, k);
    if w.resent == [] && o != Written {
      LoseKeepsChain(Messages(w.out), w.batch, k, w.received);
    }
  }

  lemma HeldInDlq(w: Worker, k: nat, exiting: bool)
    requires w.pc == DeadLettering(k, exiting) && k < |w.batch|
    ensures Held(w) == w.batch[k..]
  {
  }

  lemma DlqFields(w: Worker, k: nat, exiting: bool, o: DlqOutcome)
    requires k < |w.batch|
    ensures var w' := ToDeadLetters(NoteDlq(w, w.batch[k], o), k + 1, exiting);
            && Held(w') == w.batch[k + 1..] && w'.received == w.received && w'.resent == w.resent
            && w'.out == (if o == Written then w.out + [DeadLetter(w.batch[k])] else w.out)
            && (w'.batch == w.batch || w'.batch == [])
  {
    HeldFrom(NoteDlq(w, w.batch[k], o), k + 1, exiting);
  }

  lemma StepKeepsInput(maxMessages: nat, w: Worker, a: Action)
    requires InputOrdered(w) && Tail(w) && Enabled(w, a)
    ensures InputOrdered(Step(maxMessages, w, a)) && Tail(Step(maxMessages, w, a))
  {
    hide InputOrdered, Tail;
    match a
    case Receive(m) => ReceiveKeepsInput(maxMessages, w, m);
    case Tick => StartKeepsInput(w, false);
    case ChannelClosed | ContextDone => StartKeepsInput(w, true);
    case SendOk => SendKeepsInput(maxMessages, w);
    case SendCancelled => CancelKeepsInput(w, w.pc.i, w.pc.exiting);
    case DlqWrite(o) => DlqKeepsInput(w, w.pc.k, w.pc.exiting, o);
  }

  lemma StepKeepsOrder(maxMessages: nat, w: Worker, a: Action)
    requires Ordered(w) && CleanSoFar(w) && Enabled(w, a)
    ensures Ordered(Step(maxMessages, w, a)) && CleanSoFar(Step(maxMessages, w, a))
  {
    if a.DlqWrite? || a.SendCancelled? {
      LateStepKeepsOrder(maxMessages, w, a);
    } else {
      EarlyStepKeepsOrder(maxMessages, w, a);
    }
  }

  lemma EarlyStepKeepsOrder(maxMessages: nat, w: Worker, a: Action)
    requires Ordered(w) && CleanSoFar(w) && Enabled(w, a) && !a.DlqWrite? && !a.SendCancelled?
    ensures Ordered(Step(maxMessages, w, a)) && CleanSoFar(Step(maxMessages, w, a))
  {
    hide Ordered, CleanSoFar;
    match a
    case Receive(m) => ReceiveKeepsOrder(maxMessages, w, m);
    case Tick => StartKeepsOrder(w, false);
    case ChannelClosed | ContextDone => StartKeepsOrder(w, true);
    case SendOk => SendKeepsOrder(maxMessages, w);
  }

  /** From the cancelled send on. */
  lemma LateStepKeepsOrder(maxMessages: nat, w: Worker, a: Action)
    requires Ordered(w) && CleanSoFar(w) && Enabled(w, a) && (a.DlqWrite? || a.SendCancelled?)
    ensures Ordered(Step(maxMessages, w, a)) && CleanSoFar(Step(maxMessages, w, a))
  {
    if a.SendCancelled? {
      CancelKeepsOrder(w, w.pc.i, w.pc.exiting);
    } else {
      DlqKeepsOrder(w, w.pc.k, w.pc.exiting, a.outcome);
      DlqStaysCut(w, w.pc.k, w.pc.exiting, a.outcome);
    }
  }

  lemma DlqStaysCut(w: Worker, k: nat, exiting: bool, o: DlqOutcome)
    requires k < |w.batch|
    ensures ToDeadLetters(NoteDlq(w, w.batch[k], o), k + 1, exiting).cut == w.cut
  {
  }

  /** Every action of every run keeps the ledger, both orders and the batch bound. */
  lemma StepInv(maxMessages: nat, w: Worker, a: Action)
    requires maxMessages > 0 && Inv(maxMessages, w) && Enabled(w, a)
    ensures Inv(maxMessages, Step(maxMessages, w, a))
  {
    hide InputOrdered, Tail, Ordered, CleanSoFar, Conserved, Shape, Step, Enabled;
    StepShape(maxMessages, w, a);
    StepConserved(maxMessages, w, a);
    StepKeepsOrder(maxMessages, w, a);
    StepKeepsInput(maxMessages, w, a);
  }

  // ---------------------------------------------------------------------------------------------------------
  // One whole flush

  /** What the environment decides for one flush: the index at which the send is cancelled (at or beyond the length of
      the batch: never), and each dead-letter write, by index in the batch. */
  datatype FlushEnv = FlushEnv(cut: nat, dlq: seq<DlqEnv>)

  /** The dead letters of a flush are written under the context whose end cancelled it. */
  function DlqAt(f: FlushEnv, k: nat): DlqEnv {
    if k < |f.dlq| then f.dlq[k].(done := 0) else DlqEnv(0, [], [])
  }

  function AllSent(ms: seq<Message>): seq<Record> {
    if ms == [] then [] else AllSent(ms[..|ms| - 1]) + [Sent(ms[|ms| - 1])]
  }

  function DeadLetterRest(w: Worker, k: nat, f: FlushEnv, exiting: bool): Worker
    requires k <= |w.batch|
    decreases |w.batch| - k
  {
    if k == |w.batch| then EndFlush(w, exiting)
    else DeadLetterRest(NoteDlq(w, w.batch[k], DlqResult(DlqAt(f, k))), k + 1, f, exiting)
  }

  /** The effect of flushBatch: everything before the cut is sent, then batch[distinct ids up to the cut ..] is
      dead-lettered. */
  function Flush(w: Worker, f: FlushEnv, exiting: bool): Worker {
    if f.cut >= |w.batch| then EndFlush(w.(out := w.out + AllSent(w.batch)), exiting)
    else
      var k := DistinctIds(w.batch[..f.cut + 1]);
      var w1 := w.(out := w.out + AllSent(w.batch[..f.cut]));
      var w2 := NoteCut(w1, f.cut, k);
      if k <= |w.batch| then DeadLetterRest(w2, k, f, exiting) else w2
  }

  /** What the dead-letter writes of batch[k..] add to Input, and which of them are counted as failed. */
  function DlqRecords(batch: seq<Message>, k: nat, f: FlushEnv): seq<Record>
    requires k <= |batch|
    decreases |batch| - k
  {
    if k == |batch| then []
    else (if DlqResult(DlqAt(f, k)) == Written then [DeadLetter(batch[k])] else []) + DlqRecords(batch, k + 1, f)
  }

  function DlqFailures(batch: seq<Message>, k: nat, f: FlushEnv): seq<Message>
    requires k <= |batch|
    decreases |batch| - k
  {
    if k == |batch| then []
    else (if DlqResult(DlqAt(f, k)) == Exhausted then [batch[k]] else []) + DlqFailures(batch, k + 1, f)
  }

  /** The first message dead-lettered by a flush of this batch. */
  function FirstDeadLetter(batch: seq<Message>, f: FlushEnv): (k: nat)
    ensures k <= |batch|
  {
    if f.cut >= |batch| then |batch|
    else
      DistinctBounds(batch[..f.cut + 1]);
      DistinctIds(batch[..f.cut + 1])
  }

  function FlushRecords(batch: seq<Message>, f: FlushEnv): seq<Record> {
    AllSent(if f.cut >= |batch| then batch else batch[..f.cut]) + DlqRecords(batch, FirstDeadLetter(batch, f), f)
  }

  lemma RecordsWhenCut(batch: seq<Message>, f: FlushEnv)
    requires f.cut < |batch|
    ensures FirstDeadLetter(batch, f) == DistinctIds(batch[..f.cut + 1])
    ensures FlushRecords(batch, f) == AllSent(batch[..f.cut]) + DlqRecords(batch, FirstDeadLetter(batch, f), f)
  {
  }

  lemma RecordsWhenUncut(batch: seq<Message>, f: FlushEnv)
    requires f.cut >= |batch|
    ensures FlushRecords(batch, f) == AllSent(batch)
    ensures DlqRecords(batch, FirstDeadLetter(batch, f), f) == []
    ensures DlqFailures(batch, FirstDeadLetter(batch, f), f) == []
  {
  }

  lemma AllSentSnoc(ms: seq<Message>, i: nat)
    requires i < |ms|
    ensures AllSent(ms[..i + 1]) == AllSent(ms[..i]) + [Sent(ms[i])]
  {
    assert ms[..i + 1][..i] == ms[..i];
  }

  lemma {:induction false} DeadLetterRestOut(w: Worker, k: nat, f: FlushEnv, exiting: bool)
    requires k <= |w.batch|
    ensures DeadLetterRest(w, k, f, exiting).out == w.out + DlqRecords(w.batch, k, f)
    ensures DeadLetterRest(w, k, f, exiting).exhausted == w.exhausted + DlqFailures(w.batch, k, f)
    decreases |w.batch| - k
  {
    hide DlqResult, DlqAt;
    if k < |w.batch| {
      DeadLetterRestOut(NoteDlq(w, w.batch[k], DlqResult(DlqAt(f, k))), k + 1, f, exiting);
    }
  }

  /** What a flush adds to Input and to the failure count, whatever the worker did before. */
  lemma FlushOut(w: Worker, f: FlushEnv, exiting: bool)
    ensures Flush(w, f, exiting).out == w.out + FlushRecords(w.batch, f)
    ensures Flush(w, f, exiting).exhausted == w.exhausted + DlqFailures(w.batch, FirstDeadLetter(w.batch, f), f)
    ensures Flush(w, f, exiting).batch == [] && Flush(w, f, exiting).pc == if exiting then Exited else Collecting
  {
    if f.cut < |w.batch| {
      var k := FirstDeadLetter(w.batch, f);
      var w1 := NoteCut(w.(out := w.out + AllSent(w.batch[..f.cut])), f.cut, k);
      DeadLetterRestOut(w1, k, f, exiting);
      DeadLetterRestFrame(w1, k, f, exiting);
    }
  }

  /** The actions that make up this flush. */
  function SendActions(n: nat): seq<Action> {
    if n == 0 then [] else [SendOk] + SendActions(n - 1)
  }

  function DlqActions(f: FlushEnv, k: nat, n: nat): seq<Action>
    requires k <= n
    decreases n - k
  {
    if k == n then [] else [DlqWrite(DlqResult(DlqAt(f, k)))] + DlqActions(f, k + 1, n)
  }

  function FlushActions(batch: seq<Message>, f: FlushEnv): seq<Action> {
    if f.cut >= |batch| then SendActions(|batch|)
    else
      var k := DistinctIds(batch[..f.cut + 1]);
      SendActions(f.cut) + [SendCancelled] + if k <= |batch| then DlqActions(f, k, |batch|) else []
  }

  predicate AllEnabled(maxMessages: nat, w: Worker, acts: seq<Action>)
    decreases acts
  {
    acts == [] || (Enabled(w, acts[0]) && AllEnabled(maxMessages, Step(maxMessages, w, acts[0]), acts[1..]))
  }

  function Run(maxMessages: nat, w: Worker, acts: seq<Action>): Worker
    requires AllEnabled(maxMessages, w, acts)
    decreases acts
  {
    if acts == [] then w else Run(maxMessages, Step(maxMessages, w, acts[0]), acts[1..])
  }

  lemma {:induction false} RunAppend(maxMessages: nat, w: Worker, a: seq<Action>, b: seq<Action>)
    requires AllEnabled(maxMessages, w, a) && AllEnabled(maxMessages, Run(maxMessages, w, a), b)
    ensures AllEnabled(maxMessages, w, a + b)
    ensures Run(maxMessages, w, a + b) == Run(maxMessages, Run(maxMessages, w, a), b)
    decreases |a|
  {
    if a == [] {
      assert a + b == b;
    } else {
      assert (a + b)[1..] == a[1..] + b;
      RunAppend(maxMessages, Step(maxMessages, w, a[0]), a[1..], b);
    }
  }

  lemma {:induction false} AllSentAppend(a: seq<Message>, b: seq<Message>)
    ensures AllSent(a + b) == AllSent(a) + AllSent(b)
    decreases |b|
  {
    if b == [] {
      assert a + b == a;
    } else {
      AllSentAppend(a, b[..|b| - 1]);
      assert (a + b)[..|a + b| - 1] == a + b[..|b| - 1];
    }
  }

  lemma AllSentSplit(ms: seq<Message>, i: nat, j: nat)
    requires i < j <= |ms|
    ensures AllSent(ms[i..j]) == [Sent(ms[i])] + AllSent(ms[i + 1..j])
  {
    assert ms[i..j] == [ms[i]] + ms[i + 1..j];
    AllSentAppend([ms[i]], ms[i + 1..j]);
    assert [ms[i]][..0] == [];
  }

  /** Sends i..j-1, stopping short of the end of the batch. */
  lemma {:induction false} SendsRun(maxMessages: nat, w: Worker, i: nat, j: nat, exiting: bool)
    requires w.pc == Sending(i, exiting) && i <= j < |w.batch|
    ensures AllEnabled(maxMessages, w, SendActions(j - i))
    ensures Run(maxMessages, w, SendActions(j - i))
         == w.(pc := Sending(j, exiting), out := w.out + AllSent(w.batch[i..j]))
    decreases j - i
  {
    if i == j {
      assert w.out + AllSent(w.batch[i..j]) == w.out;
    } else {
      var w' := Step(maxMessages, w, SendOk);
      SendsRun(maxMessages, w', i + 1, j, exiting);
      AllSentSplit(w.batch, i, j);
      assert w.out + [Sent(w.batch[i])] + AllSent(w.batch[i + 1..j]) == w.out + AllSent(w.batch[i..j]);
      assert SendActions(j - i)[1..] == SendActions(j - i - 1);
    }
  }

  lemma {:induction false} DlqRun(maxMessages: nat, w: Worker, k: nat, f: FlushEnv, exiting: bool)
    requires k <= |w.batch|
    ensures var w0 := ToDeadLetters(w, k, exiting);
            AllEnabled(maxMessages, w0, DlqActions(f, k, |w.batch|))
            && Run(maxMessages, w0, DlqActions(f, k, |w.batch|)) == DeadLetterRest(w, k, f, exiting)
    decreases |w.batch| - k
  {
    hide DlqResult, DlqAt;
    if k < |w.batch| {
      var o := DlqResult(DlqAt(f, k));
      var w1 := NoteDlq(w, w.batch[k], o);
      DlqRun(maxMessages, w1, k + 1, f, exiting);
      var w0 := ToDeadLetters(w, k, exiting);
      assert Step(maxMessages, w0, DlqWrite(o)) == ToDeadLetters(w1, k + 1, exiting) by {
        assert NoteDlq(w0, w.batch[k], o) == w1.(pc := w0.pc);
      }
      assert DlqActions(f, k, |w.batch|)[1..] == DlqActions(f, k + 1, |w.batch|);
    }
  }

  lemma AllSentAll(ms: seq<Message>)
    requires ms != []
    ensures AllSent(ms[..|ms| - 1]) + [Sent(ms[|ms| - 1])] == AllSent(ms)
  {
  }

  /** A flush that is never cancelled. */
  lemma UncutFlushIsSmallSteps(maxMessages: nat, w: Worker, f: FlushEnv, exiting: bool)
    requires w.batch != [] && f.cut >= |w.batch|
    ensures AllEnabled(maxMessages, BeginFlush(w, exiting), FlushActions(w.batch, f))
    ensures Run(maxMessages, BeginFlush(w, exiting), FlushActions(w.batch, f)) == Flush(w, f, exiting)
  {
    var w0, n := BeginFlush(w, exiting), |w.batch| - 1;
    SendsRun(maxMessages, w0, 0, n, exiting);
    var w1 := Run(maxMessages, w0, SendActions(n));
    assert [SendOk][1..] == [];
    assert Run(maxMessages, w1, [SendOk]) == Step(maxMessages, w1, SendOk);
    RunAppend(maxMessages, w0, SendActions(n), [SendOk]);
    SendActionsSnoc(n);
    AllSentAll(w.batch);
    assert w.batch[0..n] == w.batch[..n];
    assert w.out + AllSent(w.batch[..n]) + [Sent(w.batch[n])] == w.out + AllSent(w.batch);
  }

  /** A flush whose send of message f.cut is cancelled. */
  lemma CutFlushIsSmallSteps(maxMessages: nat, w: Worker, f: FlushEnv, exiting: bool)
    requires f.cut < |w.batch|
    ensures AllEnabled(maxMessages, BeginFlush(w, exiting), FlushActions(w.batch, f))
    ensures Run(maxMessages, BeginFlush(w, exiting), FlushActions(w.batch, f)) == Flush(w, f, exiting)
  {
    hide Flush, NoteCut, DistinctIds, AllSent, NoteDlq, DlqResult, DlqAt, Run, AllEnabled, SendActions, DlqActions,
         DeadLetterRest;
    var w0, k := BeginFlush(w, exiting), DistinctIds(w.batch[..f.cut + 1]);
    DistinctBounds(w.batch[..f.cut + 1]);
    FlushParts(w, f, exiting);
    SendsRun(maxMessages, w0, 0, f.cut, exiting);
    assert w.batch[0..f.cut] == w.batch[..f.cut];
    var w1 := w0.(pc := Sending(f.cut, exiting), out := w.out + AllSent(w.batch[..f.cut]));
    CutRun(maxMessages, w1, k, f, exiting);
    RunAppend(maxMessages, w0, SendActions(f.cut), [SendCancelled] + DlqActions(f, k, |w.batch|));
    assert FlushActions(w.batch, f) == SendActions(f.cut) + ([SendCancelled] + DlqActions(f, k, |w.batch|));
    NoteCutKeepsPc(w1, f.cut, k, w.pc);
    PcIrrelevant(NoteCut(w1, f.cut, k), w.pc, k, f, exiting);
  }

  lemma NoteCutKeepsPc(w: Worker, i: nat, k: nat, pc: Pc)
    requires i < |w.batch|
    ensures NoteCut(w.(pc := pc), i, k) == NoteCut(w, i, k).(pc := pc) && NoteCut(w, i, k).batch == w.batch
  {
  }

  /** The cancelled send and the dead-letter writes after it. */
  lemma CutRun(maxMessages: nat, w: Worker, k: nat, f: FlushEnv, exiting: bool)
    requires f.cut < |w.batch| && w.pc == Sending(f.cut, exiting) && k == DistinctIds(w.batch[..f.cut + 1]) <= |w.batch|
    ensures var acts := [SendCancelled] + DlqActions(f, k, |w.batch|);
            && AllEnabled(maxMessages, w, acts)
            && Run(maxMessages, w, acts) == DeadLetterRest(NoteCut(w, f.cut, k), k, f, exiting)
  {
    hide DistinctIds, NoteDlq, DlqResult, DlqAt;
    DlqRun(maxMessages, NoteCut(w, f.cut, k), k, f, exiting);
    RunCons(maxMessages, w, SendCancelled, DlqActions(f, k, |w.batch|));
  }

  /** A whole flush is the composition of the small steps the pool interleaves. */
  lemma FlushIsSmallSteps(maxMessages: nat, w: Worker, f: FlushEnv, exiting: bool)
    requires w.batch != []
    ensures AllEnabled(maxMessages, BeginFlush(w, exiting), FlushActions(w.batch, f))
    ensures Run(maxMessages, BeginFlush(w, exiting), FlushActions(w.batch, f)) == Flush(w, f, exiting)
  {
    if f.cut >= |w.batch| {
      UncutFlushIsSmallSteps(maxMessages, w, f, exiting);
    } else {
      CutFlushIsSmallSteps(maxMessages, w, f, exiting);
    }
  }

  lemma {:induction false} PcIrrelevant(w: Worker, pc: Pc, k: nat, f: FlushEnv, exiting: bool)
    requires k <= |w.batch|
    ensures DeadLetterRest(w, k, f, exiting) == DeadLetterRest(w.(pc := pc), k, f, exiting)
    decreases |w.batch| - k
  {
    if k < |w.batch| {
      PcIrrelevant(NoteDlq(w, w.batch[k], DlqResult(DlqAt(f, k))), pc, k + 1, f, exiting);
    }
  }

  lemma {:induction false} SendActionsSnoc(n: nat)
    ensures SendActions(n + 1) == SendActions(n) + [SendOk]
  {
    if n > 0 {
      SendActionsSnoc(n - 1);
    }
  }

  lemma {:induction false} RunInv(maxMessages: nat, w: Worker, acts: seq<Action>)
    requires maxMessages > 0 && Inv(maxMessages, w) && AllEnabled(maxMessages, w, acts)
    ensures Inv(maxMessages, Run(maxMessages, w, acts))
    decreases acts
  {
    if acts != [] {
      StepInv(maxMessages, w, acts[0]);
      RunInv(maxMessages, Step(maxMessages, w, acts[0]), acts[1..]);
    }
  }

  // ---------------------------------------------------------------------------------------------------------
  // What a cancelled flush does to its batch

  /** How many messages carry an id that an earlier one carries. */
  function Repeats(ms: seq<Message>): nat {
    if ms == [] then 0
    else Repeats(ms[..|ms| - 1]) + (if MessageId(ms[|ms| - 1]) in Ids(ms[..|ms| - 1]) then 1 else 0)
  }

  /** The size of the map flushBatch fills, counted message by message. */
  lemma {:induction false} DistinctPlusRepeats(ms: seq<Message>)
    ensures DistinctIds(ms) + Repeats(ms) == |ms|
  {
    hide MessageId, DistinctIds, Ids;
    if ms == [] {
      NoDistinctIds();
    } else {
      var front, m := ms[..|ms| - 1], ms[|ms| - 1];
      DistinctPlusRepeats(front);
      assert ms == front + [m];
      OneMoreId(front, m);
    }
  }

  /** The whole effect of a flush whose send of message f.cut is cancelled: Input gets everything before it and then
      the dead letters from index k on; the message in hand is missed when k jumps over it, and batch[k..f.cut] is
      dead-lettered although it was sent when k falls short of it. */
  lemma CutFlushEffect(w: Worker, f: FlushEnv, exiting: bool)
    requires f.cut < |w.batch|
    ensures var w', k := Flush(w, f, exiting), DistinctIds(w.batch[..f.cut + 1]);
            && 1 <= k == f.cut + 1 - Repeats(w.batch[..f.cut + 1])
            && Messages(w'.out) == Messages(w.out) + w.batch[..f.cut] + Messages(DlqRecords(w.batch, k, f))
            && w'.exhausted == w.exhausted + DlqFailures(w.batch, k, f)
            && w'.missed == (if k > f.cut then w.missed + [w.batch[f.cut]] else w.missed)
            && w'.resent == (if k < f.cut then w.resent + w.batch[k..f.cut] else w.resent)
            && w'.received == w.received && w'.batch == []
  {
    hide Messages, AllSent, DistinctIds, Repeats, DlqRecords, DlqFailures, Ids;
    var k := DistinctIds(w.batch[..f.cut + 1]);
    DistinctBounds(w.batch[..f.cut + 1]);
    DistinctPlusRepeats(w.batch[..f.cut + 1]);
    var w1 := w.(out := w.out + AllSent(w.batch[..f.cut]));
    DeadLetterRestOut(NoteCut(w1, f.cut, k), k, f, exiting);
    DeadLetterRestFrame(NoteCut(w1, f.cut, k), k, f, exiting);
    MessagesAppend(w.out, AllSent(w.batch[..f.cut]));
    MessagesAppend(w1.out, DlqRecords(w.batch, k, f));
    MessagesOfSent(w.batch[..f.cut]);
    assert k == f.cut ==> w.resent + w.batch[k..f.cut] == w.resent;
  }

  /** A cancelled flush loses exactly the message in hand when its ids are distinct, and loses nothing when they are
      not: then it sends something twice, or (one repetition) is right by accident. */
  lemma DistinctCutMissesOne(w: Worker, f: FlushEnv, exiting: bool)
    requires f.cut < |w.batch|
    ensures var w' := Flush(w, f, exiting);
            && (DistinctMessages(w.batch[..f.cut + 1]) <==> w'.missed == w.missed + [w.batch[f.cut]])
            && (DistinctMessages(w.batch[..f.cut + 1]) ==>
                  Messages(w'.out) == Messages(w.out) + w.batch[..f.cut] + Messages(DlqRecords(w.batch, f.cut + 1, f)))
            && (!DistinctMessages(w.batch[..f.cut + 1]) ==> w'.missed == w.missed)
  {
    CutFlushEffect(w, f, exiting);
    DistinctBounds(w.batch[..f.cut + 1]);
  }

  /** How often message x has been handed to Input or given to writeToDLQ. */
  ghost function Handled(w: Worker, x: Message): int {
    Count(Messages(w.out), x) + Count(w.exhausted, x) + Count(w.gaveUp, x)
  }

  lemma CutFlushBalance(w: Worker, f: FlushEnv, exiting: bool, x: Message)
    requires f.cut < |w.batch|
    ensures var w' := Flush(w, f, exiting);
            Handled(w', x) - Handled(w, x)
            == Count(w.batch, x) + (Count(w'.resent, x) - Count(w.resent, x))
               - (Count(w'.missed, x) - Count(w.missed, x))
  {
    hide Flush, DeadLetterRest, NoteCut, DistinctIds, Messages, AllSent, Count;
    var k := DistinctIds(w.batch[..f.cut + 1]);
    DistinctBounds(w.batch[..f.cut + 1]);
    FlushParts(w, f, exiting);
    var w1 := w.(out := w.out + AllSent(w.batch[..f.cut]));
    AllSentBalance(w, f.cut, x);
    CutBalance(w1, f.cut, k, x);
    DeadLetterRestBalance(NoteCut(w1, f.cut, k), k, f, exiting, x);
    NoCopies(x);
  }

  lemma FlushParts(w: Worker, f: FlushEnv, exiting: bool)
    requires f.cut < |w.batch|
    ensures var k := DistinctIds(w.batch[..f.cut + 1]);
            && k <= |w.batch|
            && Flush(w, f, exiting)
               == DeadLetterRest(NoteCut(w.(out := w.out + AllSent(w.batch[..f.cut])), f.cut, k), k, f, exiting)
            && NoteCut(w.(out := w.out + AllSent(w.batch[..f.cut])), f.cut, k).batch == w.batch
            && Flush(w, f, exiting).received == w.received
  {
    hide DeadLetterRest, AllSent, DistinctIds;
    var k := DistinctIds(w.batch[..f.cut + 1]);
    DistinctBounds(w.batch[..f.cut + 1]);
    DeadLetterRestFrame(NoteCut(w.(out := w.out + AllSent(w.batch[..f.cut])), f.cut, k), k, f, exiting);
  }

  lemma NoCopies(x: Message)
    ensures Count([], x) == 0
  {
  }

  /** The shipped code hands every message of a cancelled batch exactly once to Input or to writeToDLQ if and only if
      exactly one id is repeated up to the cancelled send. */
  lemma PartitionIffOneDuplicate(w: Worker, f: FlushEnv, exiting: bool)
    requires f.cut < |w.batch|
    ensures var w' := Flush(w, f, exiting);
            && ((forall x :: Handled(w', x) - Handled(w, x) == Count(w.batch, x))
                <==> Repeats(w.batch[..f.cut + 1]) == 1)
            && (w'.missed == w.missed && w'.resent == w.resent <==> Repeats(w.batch[..f.cut + 1]) == 1)
  {
    hide Flush, Handled, DistinctIds, Repeats, DlqRecords, DlqFailures, Messages;
    CutFlushEffect(w, f, exiting);
    var w', k := Flush(w, f, exiting), DistinctIds(w.batch[..f.cut + 1]);
    if k == f.cut {
      forall x ensures Handled(w', x) - Handled(w, x) == Count(w.batch, x) {
        CutFlushBalance(w, f, exiting, x);
      }
    } else {
      var x := w.batch[if k > f.cut then f.cut else k];
      CutFlushBalance(w, f, exiting, x);
      assert k < f.cut ==> x == w.batch[k..f.cut][0];
      assert Handled(w', x) - Handled(w, x) != Count(w.batch, x);
    }
  }

  // ---------------------------------------------------------------------------------------------------------
  // When a cancelled flush keeps the order

  lemma {:induction false} MessagesLength(out: seq<Record>)
    ensures |Messages(out)| == |out|
  {
    if out != [] {
      MessagesLength(out[..|out| - 1]);
    }
  }

  /** The dead letters keep the order of the batch, whichever of them are written. */
  lemma {:induction false} DlqSubseq(a: seq<Message>, batch: seq<Message>, k: nat, f: FlushEnv)
    requires k <= |batch|
    ensures Subseq(a + Messages(DlqRecords(batch, k, f)), a + batch[k..])
    decreases |batch| - k
  {
    hide Subseq, DlqResult;
    if k == |batch| {
      SubseqRefl(a);
      assert a + batch[k..] == a && a + [] == a;
    } else {
      var rest := DlqRecords(batch, k + 1, f);
      SplitMove(a, batch, k);
      if DlqResult(DlqAt(f, k)) == Written {
        DlqSubseq(a + [batch[k]], batch, k + 1, f);
        MessagesAppend([DeadLetter(batch[k])], rest);
        OneRecord(DeadLetter(batch[k]));
        assert a + ([batch[k]] + Messages(rest)) == a + [batch[k]] + Messages(rest);
      } else {
        DlqSubseq(a, batch, k + 1, f);
        SubseqDelete(a, batch[k], batch[k + 1..]);
        SubseqTrans(a + Messages(rest), a + batch[k + 1..], a + batch[k..]);
        assert [] + rest == rest;
      }
    }
  }

  lemma OneRecord(r: Record)
    ensures Messages([r]) == [r.msg]
  {
    assert [r][..0] == [];
  }

  const ACCEPTED := DlqEnv(0, [true], [])

  lemma AcceptedIsWritten()
    ensures DlqResult(ACCEPTED) == Written
  {
  }

  function AllAccepted(n: nat): (dlq: seq<DlqEnv>)
    ensures |dlq| == n && forall k | 0 <= k < n :: dlq[k] == ACCEPTED
  {
    if n == 0 then [] else AllAccepted(n - 1) + [ACCEPTED]
  }

  lemma {:induction false} AllWritten(batch: seq<Message>, k: nat, f: FlushEnv)
    requires k <= |batch| && f.dlq == AllAccepted(|batch|)
    ensures Messages(DlqRecords(batch, k, f)) == batch[k..]
    decreases |batch| - k
  {
    hide DlqResult;
    AcceptedIsWritten();
    if k < |batch| {
      AllWritten(batch, k + 1, f);
      MessagesAppend([DeadLetter(batch[k])], DlqRecords(batch, k + 1, f));
      OneRecord(DeadLetter(batch[k]));
      assert batch[k..] == [batch[k]] + batch[k + 1..];
    }
  }

  lemma FlushMessages(batch: seq<Message>, f: FlushEnv)
    requires f.cut < |batch|
    ensures var k := DistinctIds(batch[..f.cut + 1]);
            && k == f.cut + 1 - Repeats(batch[..f.cut + 1])
            && Messages(FlushRecords(batch, f)) == batch[..f.cut] + Messages(DlqRecords(batch, k, f))
  {
    hide Messages, AllSent, DistinctIds, Repeats, DlqRecords;
    DistinctPlusRepeats(batch[..f.cut + 1]);
    RecordsWhenCut(batch, f);
    MessagesAppend(AllSent(batch[..f.cut]), DlqRecords(batch, FirstDeadLetter(batch, f), f));
    MessagesOfSent(batch[..f.cut]);
  }

  /** What a cancelled flush hands to Input is in the order of the batch, whatever becomes of the dead letters, if and
      only if at most one id is repeated up to the cancelled send. */
  lemma InputOrderIffAtMostOneRepeat(batch: seq<Message>, cut: nat)
    requires cut < |batch|
    ensures (forall dlq :: Subseq(Messages(FlushRecords(batch, FlushEnv(cut, dlq))), batch))
            <==> Repeats(batch[..cut + 1]) <= 1
  {
    hide Subseq, Messages, FlushRecords, DistinctIds, Repeats, DlqRecords;
    var n := Repeats(batch[..cut + 1]);
    if n <= 1 {
      forall dlq ensures Subseq(Messages(FlushRecords(batch, FlushEnv(cut, dlq))), batch) {
        FlushMessages(batch, FlushEnv(cut, dlq));
        SentThenDead(batch, cut, cut + 1 - n, FlushEnv(cut, dlq));
      }
    } else {
      var f := FlushEnv(cut, AllAccepted(|batch|));
      ResentOutOfOrder(batch, cut);
      assert !Subseq(Messages(FlushRecords(batch, f)), batch);
    }
  }

  lemma ResentOutOfOrder(batch: seq<Message>, cut: nat)
    requires cut < |batch| && Repeats(batch[..cut + 1]) > 1
    ensures !Subseq(Messages(FlushRecords(batch, FlushEnv(cut, AllAccepted(|batch|)))), batch)
  {
    hide Subseq, Messages, FlushRecords, DistinctIds, Repeats, DlqRecords, AllAccepted;
    var f := FlushEnv(cut, AllAccepted(|batch|));
    FlushMessages(batch, f);
    AllWritten(batch, cut + 1 - Repeats(batch[..cut + 1]), f);
    if Subseq(Messages(FlushRecords(batch, f)), batch) {
      SubseqLength(Messages(FlushRecords(batch, f)), batch);
      assert false;
    }
  }

  lemma SentThenDead(batch: seq<Message>, cut: nat, k: nat, f: FlushEnv)
    requires cut < |batch| && cut <= k <= cut + 1
    ensures Subseq(batch[..cut] + Messages(DlqRecords(batch, k, f)), batch)
  {
    hide Subseq, Messages, DlqRecords;
    DlqSubseq(batch[..cut], batch, k, f);
    SubseqRefl(batch);
    assert batch[..cut] + batch[cut..] == batch;
    if k == cut + 1 {
      LoseKeepsChain(batch[..cut], batch, cut, batch);
    }
    SubseqTrans(batch[..cut] + Messages(DlqRecords(batch, k, f)), batch[..cut] + batch[k..], batch);
  }

  /** The smallest disorder: three messages with one id, the third send cancelled; the second is handed over twice. */
  lemma ThreeAlike(a: Message, b: Message, c: Message)
    requires MessageId(a) == MessageId(b) == MessageId(c)
    ensures Messages(FlushRecords([a, b, c], FlushEnv(2, AllAccepted(3)))) == [a, b, b, c]
    ensures !Subseq([a, b, b, c], [a, b, c])
  {
    hide Subseq, Messages, FlushRecords, DlqRecords, MessageId;
    var batch, f := [a, b, c], FlushEnv(2, AllAccepted(3));
    assert batch[..3] == batch;
    assert Ids(batch) == {MessageId(a)} by {
      assert a in batch;
    }
    FlushMessages(batch, f);
    AllWritten(batch, 1, f);
    if Subseq([a, b, b, c], [a, b, c]) {
      SubseqLength([a, b, b, c], [a, b, c]);
      assert false;
    }
  }

  // ---------------------------------------------------------------------------------------------------------
  // The evidently intended slice

  lemma {:induction false} DeadLetterRestBalance(w: Worker, k: nat, f: FlushEnv, exiting: bool, x: Message)
    requires k <= |w.batch|
    ensures Balance(DeadLetterRest(w, k, f, exiting), [], x) == Balance(w, w.batch[k..], x)
    decreases |w.batch| - k
  {
    if k < |w.batch| {
      var o := DlqResult(DlqAt(f, k));
      DlqBalance(w, k, o, x);
      DeadLetterRestBalance(NoteDlq(w, w.batch[k], o), k + 1, f, exiting, x);
    }
  }

  lemma {:induction false} MessagesOfSent(ms: seq<Message>)
    ensures Messages(AllSent(ms)) == ms
  {
    if ms != [] {
      var r := AllSent(ms[..|ms| - 1]);
      MessagesOfSent(ms[..|ms| - 1]);
      assert (r + [Sent(ms[|ms| - 1])])[..|r|] == r;
    }
  }

  lemma {:induction false} MessagesAppend(a: seq<Record>, b: seq<Record>)
    ensures Messages(a + b) == Messages(a) + Messages(b)
    decreases |b|
  {
    if b == [] {
      assert a + b == a;
    } else {
      MessagesAppend(a, b[..|b| - 1]);
      assert (a + b)[..|a + b| - 1] == a + b[..|b| - 1];
    }
  }

  lemma AllSentBalance(w: Worker, i: nat, x: Message)
    requires i <= |w.batch|
    ensures Balance(w.(out := w.out + AllSent(w.batch[..i])), w.batch[i..], x) == Balance(w, w.batch, x)
  {
    hide Messages, AllSent;
    MessagesAppend(w.out, AllSent(w.batch[..i]));
    MessagesOfSent(w.batch[..i]);
    assert w.batch == w.batch[..i] + w.batch[i..];
  }

  /** Dead-lettering batch[cut..], as evidently intended, would conserve every message with nothing missed or sent
      twice. */
  lemma IntendedSliceConserves(w: Worker, f: FlushEnv, exiting: bool)
    requires w.pc.Collecting? && Conserved(w) && f.cut < |w.batch|
    ensures var w' := DeadLetterRest(w.(out := w.out + AllSent(w.batch[..f.cut])), f.cut, f, exiting);
            Conserved(w') && w'.missed == w.missed && w'.resent == w.resent
  {
    var w1 := w.(out := w.out + AllSent(w.batch[..f.cut]));
    var w' := DeadLetterRest(w1, f.cut, f, exiting);
    BalanceIsConservation(w);
    BalanceIsConservation(w');
    DeadLetterRestFrame(w1, f.cut, f, exiting);
    forall x ensures Balance(w', Held(w'), x) == 0 {
      AllSentBalance(w, f.cut, x);
      DeadLetterRestBalance(w1, f.cut, f, exiting, x);
    }
  }

  lemma {:induction false} DeadLetterRestFrame(w: Worker, k: nat, f: FlushEnv, exiting: bool)
    requires k <= |w.batch|
    ensures var w' := DeadLetterRest(w, k, f, exiting);
            && w'.missed == w.missed && w'.resent == w.resent && w'.received == w.received && w'.cut == w.cut
            && w'.batch == [] && w'.pc == if exiting then Exited else Collecting
    decreases |w.batch| - k
  {
    if k < |w.batch| {
      DeadLetterRestFrame(NoteDlq(w, w.batch[k], DlqResult(DlqAt(f, k))), k + 1, f, exiting);
    }
  }

  /** A dead-letter write is counted as failed exactly when the context is done from the start, Input takes none of the
      attempts, and both waits end with their timers; it succeeds exactly when the context is live at the start, or
      Input takes an attempt and every wait before it ends with its timer. */
  lemma ExhaustedIff(env: DlqEnv)
    ensures DlqResult(env) == Exhausted <==>
            env.done == 0 && (forall k | 0 <= k < MAX_RETRIES :: !At(env.accepts, k) && (k > 0 ==> At(env.expires, k)))
    ensures DlqResult(env) == Written <==>
            env.done > 0 ||
            exists k :: 0 <= k < MAX_RETRIES && At(env.accepts, k) && (forall j | 1 <= j <= k :: At(env.expires, j))
  {
    assert DlqFrom(env, 3) == Exhausted;
    if DlqResult(env) == Written && env.done == 0 {
      var k := if At(env.accepts, 0) then 0 else if At(env.accepts, 1) then 1 else 2;
      assert At(env.accepts, k) && forall j | 1 <= j <= k :: At(env.expires, j);
    }
  }

  /** A send fails only when the context is done, and then it stays done: there is a second attempt only if the timer of
      the first wait is picked against it. Otherwise the first attempt decides, and no failure is ever counted. */
  lemma RetriesAreDead(env: DlqEnv)
    ensures AttemptsFrom(env, 0) > 1 <==> SendFails(env, 0) && At(env.expires, 1)
    ensures !At(env.expires, 1) ==> DlqResult(env) == if SendFails(env, 0) then GaveUp else Written
    ensures DlqResult(env) == Exhausted ==> AttemptsFrom(env, 0) == MAX_RETRIES
  {
    assert DlqFrom(env, 3) == Exhausted && AttemptsFrom(env, 3) == 0;
  }

  // ---------------------------------------------------------------------------------------------------------
  // The whole worker loop

  /** The case a select of the worker loop takes, with the environment of the flush it may start. */
  datatype Select =
    | FromChannel(m: Message, flush: FlushEnv)
    | FlushTick(flush: FlushEnv)
    | MetricsTick
    | FromClosed(flush: FlushEnv)
    | FromContext(flush: FlushEnv)

  function FlushIfAny(w: Worker, f: FlushEnv, exiting: bool): Worker {
    if w.batch == [] then BeginFlush(w, exiting) else Flush(w, f, exiting)
  }

  function Iterate(maxMessages: nat, w: Worker, s: Select): Worker {
    match s
    case FromChannel(m, f) =>
      var w' := w.(batch := w.batch + [m], received := w.received + [m]);
      if |w'.batch| >= maxMessages then Flush(w', f, false) else w'
    case FlushTick(f) => FlushIfAny(w, f, false)
    case MetricsTick => w
    case FromClosed(f) => FlushIfAny(w, f, true)
    case FromContext(f) => FlushIfAny(w, f, true)
  }

  /** The loop ends at the first exit; later selects are never reached. */
  function Loop(maxMessages: nat, w: Worker, selects: seq<Select>): Worker {
    if selects == [] then w
    else
      var before := Loop(maxMessages, w, selects[..|selects| - 1]);
      if before.pc.Collecting? then Iterate(maxMessages, before, selects[|selects| - 1]) else before
  }

  lemma FlushIfAnyIsSmallSteps(maxMessages: nat, w: Worker, f: FlushEnv, exiting: bool) returns (acts: seq<Action>)
    ensures AllEnabled(maxMessages, BeginFlush(w, exiting), acts)
    ensures Run(maxMessages, BeginFlush(w, exiting), acts) == FlushIfAny(w, f, exiting)
  {
    if w.batch == [] {
      acts := [];
    } else {
      acts := FlushActions(w.batch, f);
      FlushIsSmallSteps(maxMessages, w, f, exiting);
    }
  }

  lemma RunCons(maxMessages: nat, w: Worker, a: Action, acts: seq<Action>)
    requires Enabled(w, a) && AllEnabled(maxMessages, Step(maxMessages, w, a), acts)
    ensures AllEnabled(maxMessages, w, [a] + acts)
    ensures Run(maxMessages, w, [a] + acts) == Run(maxMessages, Step(maxMessages, w, a), acts)
  {
    assert ([a] + acts)[1..] == acts;
  }

  /** One turn of the loop is a run of small steps. */
  lemma IterateIsSmallSteps(maxMessages: nat, w: Worker, s: Select) returns (acts: seq<Action>)
    requires w.pc.Collecting? && maxMessages > 0
    ensures AllEnabled(maxMessages, w, acts) && Run(maxMessages, w, acts) == Iterate(maxMessages, w, s)
  {
    match s
    case FromChannel(m, f) =>
      var w' := w.(batch := w.batch + [m], received := w.received + [m]);
      acts := [];
      if |w'.batch| >= maxMessages {
        acts := FlushIfAnyIsSmallSteps(maxMessages, w', f, false);
      }
      RunCons(maxMessages, w, Receive(m), acts);
      acts := [Receive(m)] + acts;
    case FlushTick(f) =>
      acts := FlushIfAnyIsSmallSteps(maxMessages, w, f, false);
      RunCons(maxMessages, w, Tick, acts);
      acts := [Tick] + acts;
    case MetricsTick =>
      acts := [];
    case FromClosed(f) =>
      acts := FlushIfAnyIsSmallSteps(maxMessages, w, f, true);
      RunCons(maxMessages, w, ChannelClosed, acts);
      acts := [ChannelClosed] + acts;
    case FromContext(f) =>
      acts := FlushIfAnyIsSmallSteps(maxMessages, w, f, true);
      RunCons(maxMessages, w, ContextDone, acts);
      acts := [ContextDone] + acts;
  }

  /** Every run of the loop is a run of small steps from a fresh worker, and keeps the invariant. */
  lemma {:induction false} LoopIsSmallSteps(maxMessages: nat, selects: seq<Select>) returns (acts: seq<Action>)
    requires maxMessages > 0
    ensures AllEnabled(maxMessages, FRESH, acts) && Run(maxMessages, FRESH, acts) == Loop(maxMessages, FRESH, selects)
    ensures Inv(maxMessages, Loop(maxMessages, FRESH, selects))
  {
    acts := [];
    if selects != [] {
      acts := LoopIsSmallSteps(maxMessages, selects[..|selects| - 1]);
      var w := Run(maxMessages, FRESH, acts);
      if w.pc.Collecting? {
        var more := IterateIsSmallSteps(maxMessages, w, selects[|selects| - 1]);
        RunAppend(maxMessages, FRESH, acts, more);
        acts := acts + more;
      }
    }
    FreshInv(maxMessages);
    RunInv(maxMessages, FRESH, acts);
  }

  // ---------------------------------------------------------------------------------------------------------
  // When a whole run keeps the order

  /** The batch a turn of the loop flushes, and the environment of that flush. */
  function FlushedBatch(maxMessages: nat, w: Worker, s: Select): seq<Message> {
    match s
    case FromChannel(m, _) => if |w.batch| + 1 >= maxMessages then w.batch + [m] else []
    case MetricsTick => []
    case _ => w.batch
  }

  function EnvOf(s: Select): FlushEnv {
    if s.MetricsTick? then FlushEnv(0, []) else s.flush
  }

  /** The turn's flush is cancelled after more than one repeated id. */
  predicate Overshoots(maxMessages: nat, w: Worker, s: Select) {
    var (batch, cut) := (FlushedBatch(maxMessages, w, s), EnvOf(s).cut);
    cut < |batch| && Repeats(batch[..cut + 1]) > 1
  }

  lemma FlushResends(w: Worker, f: FlushEnv, exiting: bool)
    ensures w.resent <= Flush(w, f, exiting).resent
    ensures Flush(w, f, exiting).resent == w.resent <==> !(f.cut < |w.batch| && Repeats(w.batch[..f.cut + 1]) > 1)
  {
    hide AllSent, Repeats, DistinctIds, DeadLetterRest;
    if f.cut < |w.batch| {
      hide Flush;
      CutFlushEffect(w, f, exiting);
    }
  }

  lemma TurnResends(maxMessages: nat, w: Worker, s: Select)
    ensures w.resent <= Iterate(maxMessages, w, s).resent
    ensures Iterate(maxMessages, w, s).resent == w.resent <==> !Overshoots(maxMessages, w, s)
  {
    hide Flush, Repeats;
    match s
    case FromChannel(m, f) => FlushResends(w.(batch := w.batch + [m], received := w.received + [m]), f, false);
    case FlushTick(f) => FlushResends(w, f, false);
    case FromClosed(f) => FlushResends(w, f, true);
    case FromContext(f) => FlushResends(w, f, true);
    case MetricsTick =>
  }

  predicate OvershootsAt(maxMessages: nat, selects: seq<Select>, i: nat)
    requires i < |selects|
  {
    var w := Loop(maxMessages, FRESH, selects[..i]);
    w.pc.Collecting? && Overshoots(maxMessages, w, selects[i])
  }

  lemma {:induction false} ResentIff(maxMessages: nat, selects: seq<Select>)
    ensures Loop(maxMessages, FRESH, selects).resent == []
            <==> forall i | 0 <= i < |selects| :: !OvershootsAt(maxMessages, selects, i)
  {
    hide Iterate, Overshoots;
    if selects != [] {
      var n := |selects| - 1;
      var front := selects[..n];
      ResentIff(maxMessages, front);
      forall i | 0 <= i < n ensures OvershootsAt(maxMessages, selects, i) <==> OvershootsAt(maxMessages, front, i) {
        assert front[..i] == selects[..i];
      }
      var w := Loop(maxMessages, FRESH, front);
      if w.pc.Collecting? {
        TurnResends(maxMessages, w, selects[n]);
      }
      assert OvershootsAt(maxMessages, selects, n) <==> w.pc.Collecting? && Overshoots(maxMessages, w, selects[n]);
    }
  }

  lemma LoopOrder(maxMessages: nat, selects: seq<Select>)
    requires maxMessages > 0
    ensures InputOrdered(Loop(maxMessages, FRESH, selects))
  {
    hide Shape, Conserved, Ordered, InputOrdered, CleanSoFar, Tail, Loop;
    var acts := LoopIsSmallSteps(maxMessages, selects);
  }

  /** A worker whose flushes are never cancelled after more than one repeated id hands everything to Input in the order
      received; each such flush hands its batch over out of order if its dead letters are written. */
  lemma RunOrder(maxMessages: nat, selects: seq<Select>)
    requires maxMessages > 0
    ensures var w := Loop(maxMessages, FRESH, selects);
            (forall i | 0 <= i < |selects| :: !OvershootsAt(maxMessages, selects, i)) ==>
              Subseq(Messages(w.out) + Held(w), w.received)
    ensures forall i | 0 <= i < |selects| && OvershootsAt(maxMessages, selects, i) ::
              var batch := FlushedBatch(maxMessages, Loop(maxMessages, FRESH, selects[..i]), selects[i]);
              !Subseq(Messages(FlushRecords(batch, FlushEnv(EnvOf(selects[i]).cut, AllAccepted(|batch|)))), batch)
  {
    hide Subseq, Messages, FlushRecords, Held, Loop, Repeats, FlushedBatch, AllAccepted;
    ResentIff(maxMessages, selects);
    LoopOrder(maxMessages, selects);
    forall i | 0 <= i < |selects| && OvershootsAt(maxMessages, selects, i)
      ensures var batch := FlushedBatch(maxMessages, Loop(maxMessages, FRESH, selects[..i]), selects[i]);
              !Subseq(Messages(FlushRecords(batch, FlushEnv(EnvOf(selects[i]).cut, AllAccepted(|batch|)))), batch)
    {
      ResentOutOfOrder(FlushedBatch(maxMessages, Loop(maxMessages, FRESH, selects[..i]), selects[i]),
                       EnvOf(selects[i]).cut);
    }
  }

  // ---------------------------------------------------------------------------------------------------------
  // What is collected, and when it is sent

  /** A message taken from the channel starts a flush exactly when it is the last that fits; otherwise it waits. */
  lemma ReceiveFlushesFullBatch(maxMessages: nat, w: Worker, m: Message)
    requires w.pc.Collecting? && |w.batch| < maxMessages
    ensures var w' := Step(maxMessages, w, Receive(m));
            && w'.batch == w.batch + [m] && w'.received == w.received + [m] && w'.out == w.out
            && w'.pc == if |w.batch| + 1 == maxMessages then Sending(0, false) else Collecting
  {
  }

  /** A tick and the two ways out flush whatever there is; the ways out end the worker afterwards. */
  lemma OthersFlushAnything(maxMessages: nat, w: Worker)
    requires w.pc.Collecting?
    ensures Step(maxMessages, w, Tick) == w.(pc := if w.batch == [] then Collecting else Sending(0, false))
    ensures Step(maxMessages, w, ChannelClosed) == w.(pc := if w.batch == [] then Exited else Sending(0, true))
    ensures Step(maxMessages, w, ContextDone) == w.(pc := if w.batch == [] then Exited else Sending(0, true))
  {
  }

  /** The selects take the messages ms from the channel, one after the other, and no flush is cancelled. */
  predicate Takes(maxMessages: nat, selects: seq<Select>, ms: seq<Message>) {
    && |selects| == |ms|
    && forall i | 0 <= i < |ms| ::
         selects[i].FromChannel? && selects[i].m == ms[i] && selects[i].flush.cut >= maxMessages
  }

  lemma AtLeastOnce(k: int, d: int)
    requires k >= 1 && d >= 0
    ensures k * d >= d
  {
    assert (k - 1) * d >= 0;
  }

  lemma Distribute(p: int, q: int, d: int)
    ensures (p - q) * d == p * d - q * d
  {
  }

  lemma QuotientUnique(n: nat, d: nat, q: nat, r: nat, p: nat, t: nat)
    requires d > 0 && n == q * d + r == p * d + t && r < d && t < d
    ensures r == t
  {
    Distribute(p, q, d);
    Distribute(q, p, d);
    if q < p {
      AtLeastOnce(p - q, d);
    } else if p < q {
      AtLeastOnce(q - p, d);
    }
  }

  lemma NextRemainder(n: nat, d: nat)
    requires d > 0
    ensures (n + 1) % d == if n % d + 1 == d then 0 else n % d + 1
  {
    var q, r, p, t := n / d, n % d, (n + 1) / d, (n + 1) % d;
    assert n == q * d + r && n + 1 == p * d + t;
    if r + 1 == d {
      Distribute(q + 1, 1, d);
      QuotientUnique(n + 1, d, q + 1, 0, p, t);
    } else {
      QuotientUnique(n + 1, d, q, r + 1, p, t);
    }
  }

  /** The number of messages held after n of them, one by one. */
  function HeldAfter(n: nat, d: nat): (h: nat)
    requires d > 0
    ensures h < d && h <= n
  {
    if n == 0 then 0
    else if HeldAfter(n - 1, d) + 1 == d then 0
    else HeldAfter(n - 1, d) + 1
  }

  lemma {:induction false} HeldIsRemainder(n: nat, d: nat)
    requires d > 0
    ensures HeldAfter(n, d) == n % d
  {
    if n == 0 {
      QuotientUnique(0, d, 0, 0, 0 / d, 0 % d);
    } else {
      HeldIsRemainder(n - 1, d);
      NextRemainder(n - 1, d);
    }
  }

  lemma UncutFlush(w: Worker, f: FlushEnv, exiting: bool)
    requires f.cut >= |w.batch|
    ensures var w' := Flush(w, f, exiting);
            && Messages(w'.out) == Messages(w.out) + w.batch && w'.batch == []
            && w' == w.(out := w'.out, batch := [], pc := if exiting then Exited else Collecting)
  {
    MessagesAppend(w.out, AllSent(w.batch));
    MessagesOfSent(w.batch);
  }

  lemma ReceiveTurn(maxMessages: nat, w: Worker, m: Message, f: FlushEnv)
    requires |w.batch| < maxMessages <= f.cut && w.pc.Collecting?
    ensures var w' := Iterate(maxMessages, w, FromChannel(m, f));
            && w'.pc.Collecting? && w'.received == w.received + [m]
            && w'.exhausted == w.exhausted && w'.gaveUp == w.gaveUp && w'.missed == w.missed && w'.resent == w.resent
            && w'.batch == (if |w.batch| + 1 == maxMessages then [] else w.batch + [m])
            && Messages(w'.out) == (if |w.batch| + 1 == maxMessages then Messages(w.out) + (w.batch + [m])
                                    else Messages(w.out))
  {
    hide Messages, Flush;
    UncutFlush(w.(batch := w.batch + [m], received := w.received + [m]), f, false);
  }

  predicate Collected(w: Worker, w': Worker, ms: seq<Message>, held: nat)
    requires held <= |ms|
  {
    && w'.pc.Collecting? && w'.batch == ms[|ms| - held..]
    && Messages(w'.out) == Messages(w.out) + ms[..|ms| - held] && w'.received == w.received + ms
    && w'.exhausted == w.exhausted && w'.gaveUp == w.gaveUp && w'.missed == w.missed && w'.resent == w.resent
  }

  lemma CollectOneMore(maxMessages: nat, w: Worker, w1: Worker, ms: seq<Message>, m: Message, f: FlushEnv, held: nat)
    requires held < maxMessages <= f.cut && held <= |ms| && Collected(w, w1, ms, held)
    ensures Collected(w, Iterate(maxMessages, w1, FromChannel(m, f)), ms + [m],
                      if held + 1 == maxMessages then 0 else held + 1)
  {
    hide Messages, Iterate;
    ReceiveTurn(maxMessages, w1, m, f);
    var (a, n, more) := (Messages(w.out), |ms|, ms + [m]);
    assert w.received + ms + [m] == w.received + more;
    assert ms[n - held..] + [m] == more[n - held..] && more[..n - held] == ms[..n - held];
    assert a + ms[..n - held] + more[n - held..] == a + more;
    assert more[..n + 1] == more && more[n + 1..] == [];
  }

  lemma {:induction false} BatchesCounted(maxMessages: nat, w: Worker, selects: seq<Select>, ms: seq<Message>)
    requires maxMessages > 0 && w.pc.Collecting? && w.batch == [] && Takes(maxMessages, selects, ms)
    ensures Collected(w, Loop(maxMessages, w, selects), ms, HeldAfter(|ms|, maxMessages))
  {
    hide Messages, Iterate;
    if ms == [] {
      assert Messages(w.out) + [] == Messages(w.out) && w.received + [] == w.received;
    } else {
      hide Collected;
      var n := |ms| - 1;
      BatchesCounted(maxMessages, w, selects[..n], ms[..n]);
      var w1 := Loop(maxMessages, w, selects[..n]);
      StillCollecting(w, w1, ms[..n], HeldAfter(n, maxMessages));
      CollectOneMore(maxMessages, w, w1, ms[..n], ms[n], selects[n].flush, HeldAfter(n, maxMessages));
      assert selects[n] == FromChannel(ms[n], selects[n].flush);
      assert ms[..n] + [ms[n]] == ms;
    }
  }

  lemma StillCollecting(w: Worker, w': Worker, ms: seq<Message>, held: nat)
    requires held <= |ms| && Collected(w, w', ms, held)
    ensures w'.pc.Collecting?
  {
  }

  /** Messages are sent in full batches: after any number of them the worker holds the last |ms| % maxMessages and has
      sent all before, and lost or repeated none. */
  lemma BatchesAreFull(maxMessages: nat, w: Worker, selects: seq<Select>, ms: seq<Message>)
    requires maxMessages > 0 && w.pc.Collecting? && w.batch == [] && Takes(maxMessages, selects, ms)
    ensures var (w', held) := (Loop(maxMessages, w, selects), |ms| % maxMessages);
            && w'.pc.Collecting? && held <= |ms| && w'.batch == ms[|ms| - held..]
            && Messages(w'.out) == Messages(w.out) + ms[..|ms| - held] && w'.received == w.received + ms
            && w'.exhausted == w.exhausted && w'.gaveUp == w.gaveUp && w'.missed == w.missed && w'.resent == w.resent
  {
    hide Messages, Loop, Takes;
    BatchesCounted(maxMessages, w, selects, ms);
    HeldIsRemainder(|ms|, maxMessages);
  }

  /** No flush of the run is cancelled. */
  predicate NoneCancelled(maxMessages: nat, selects: seq<Select>) {
    forall i | 0 <= i < |selects| :: selects[i].MetricsTick? || selects[i].flush.cut >= maxMessages
  }

  predicate NoneLeaves(selects: seq<Select>) {
    forall i | 0 <= i < |selects| :: !selects[i].FromClosed? && !selects[i].FromContext?
  }

  /** The messages a run takes from the channel. */
  function Offered(selects: seq<Select>): seq<Message> {
    if selects == [] then []
    else Offered(selects[..|selects| - 1])
         + (if selects[|selects| - 1].FromChannel? then [selects[|selects| - 1].m] else [])
  }

  lemma FlushKeepsReceived(w: Worker, f: FlushEnv, exiting: bool)
    ensures Flush(w, f, exiting).received == w.received
    ensures Flush(w, f, exiting).pc == if exiting then Exited else Collecting
  {
    hide AllSent, DistinctIds, DeadLetterRest;
    FlushOut(w, f, exiting);
    if f.cut < |w.batch| {
      FlushParts(w, f, exiting);
    }
  }

  /** The loop ends exactly at a closed channel or a done context, and until then takes every message offered. */
  lemma {:induction false} LeavesIff(maxMessages: nat, selects: seq<Select>)
    ensures var w := Loop(maxMessages, FRESH, selects);
            && (w.pc.Exited? <==> !NoneLeaves(selects)) && (w.pc.Collecting? <==> NoneLeaves(selects))
            && (NoneLeaves(selects) ==> w.received == Offered(selects))
  {
    hide Flush;
    if selects != [] {
      var n := |selects| - 1;
      LeavesIff(maxMessages, selects[..n]);
      var w, s := Loop(maxMessages, FRESH, selects[..n]), selects[n];
      assert NoneLeaves(selects) <==> NoneLeaves(selects[..n]) && !s.FromClosed? && !s.FromContext?;
      if w.pc.Collecting? {
        match s
        case FromChannel(m, f) =>
          FlushKeepsReceived(w.(batch := w.batch + [m], received := w.received + [m]), f, false);
        case FlushTick(f) => FlushKeepsReceived(w, f, false);
        case FromClosed(f) => FlushKeepsReceived(w, f, true);
        case FromContext(f) => FlushKeepsReceived(w, f, true);
        case MetricsTick =>
      }
    }
  }

  lemma UncutTurn(maxMessages: nat, w: Worker, s: Select)
    requires |w.batch| < maxMessages && (s.MetricsTick? || s.flush.cut >= maxMessages) && w.pc.Collecting?
    ensures var (w', taken) := (Iterate(maxMessages, w, s), if s.FromChannel? then [s.m] else []);
            && Messages(w'.out) + w'.batch == Messages(w.out) + w.batch + taken
            && |w'.batch| < maxMessages
            && (!s.FromChannel? && !s.MetricsTick? ==> w'.batch == [])
            && (s.MetricsTick? ==> w' == w)
  {
    hide Flush, Messages;
    var sent := Messages(w.out);
    match s
    case FromChannel(m, f) =>
      var w1 := w.(batch := w.batch + [m], received := w.received + [m]);
      UncutFlush(w1, f, false);
      assert sent + w.batch + [m] == sent + (w.batch + [m]);
    case FlushTick(f) => UncutFlush(w, f, false);
    case FromClosed(f) => UncutFlush(w, f, true);
    case FromContext(f) => UncutFlush(w, f, true);
    case MetricsTick =>
  }

  /** Without cancellation, what is sent and then what is held is what was taken, whatever ticks come between. */
  lemma {:induction false} UncutRun(maxMessages: nat, selects: seq<Select>)
    requires maxMessages > 0 && NoneCancelled(maxMessages, selects) && NoneLeaves(selects)
    ensures var w := Loop(maxMessages, FRESH, selects);
            w.pc.Collecting? && |w.batch| < maxMessages && Messages(w.out) + w.batch == Offered(selects)
  {
    hide Iterate, Messages;
    NothingOut();
    if selects != [] {
      var n := |selects| - 1;
      UncutRun(maxMessages, selects[..n]);
      UncutTurn(maxMessages, Loop(maxMessages, FRESH, selects[..n]), selects[n]);
      LeavesIff(maxMessages, selects);
      var sent := Messages(Loop(maxMessages, FRESH, selects[..n]).out);
      assert Offered(selects[..n]) + [] == Offered(selects[..n]);
    }
  }

  lemma NothingOut()
    ensures Messages(FRESH.out) + FRESH.batch == []
  {
  }

  /** A flush tick, a closed channel and a done context leave nothing unsent if the flush is not cancelled. */
  lemma TickSendsAll(maxMessages: nat, selects: seq<Select>, s: Select)
    requires maxMessages > 0 && NoneCancelled(maxMessages, selects) && NoneLeaves(selects)
    requires !s.FromChannel? && !s.MetricsTick? && s.flush.cut >= maxMessages
    ensures var w := Loop(maxMessages, FRESH, selects + [s]); w.batch == [] && Messages(w.out) == Offered(selects)
  {
    hide Iterate, Messages;
    UncutRun(maxMessages, selects);
    var w := Loop(maxMessages, FRESH, selects);
    UncutTurn(maxMessages, w, s);
    assert (selects + [s])[..|selects|] == selects;
    var w' := Iterate(maxMessages, w, s);
    assert Messages(w.out) + w.batch + [] == Messages(w.out) + w.batch && Messages(w'.out) + [] == Messages(w'.out);
  }

  // ---------------------------------------------------------------------------------------------------------
  // Ids on the fields of the messages

  predicate DistinctTraceIds(ms: seq<Message>) {
    && (forall i | 0 <= i < |ms| :: ms[i].traceId != "")
    && (forall i, j | 0 <= i < j < |ms| :: ms[i].traceId != ms[j].traceId)
  }

  /** Messages with different trace ids, as writeToKafka makes them: a cancelled send costs the message in hand, and
      nothing is sent twice. */
  lemma DistinctTraceIdsMissOne(w: Worker, f: FlushEnv, exiting: bool)
    requires f.cut < |w.batch| && DistinctTraceIds(w.batch[..f.cut + 1])
    ensures Messages(FlushRecords(w.batch, f)) == w.batch[..f.cut] + Messages(DlqRecords(w.batch, f.cut + 1, f))
    ensures Flush(w, f, exiting).missed == w.missed + [w.batch[f.cut]] && Flush(w, f, exiting).resent == w.resent
  {
    hide Messages, FlushRecords, DlqRecords, Flush, Repeats;
    var ms := w.batch[..f.cut + 1];
    assert DistinctMessages(ms) by {
      forall i, j | 0 <= i < j < |ms| ensures MessageId(ms[i]) != MessageId(ms[j]) {
      }
    }
    DistinctBounds(ms);
    CutFlushEffect(w, f, exiting);
    FlushMessages(w.batch, f);
  }

  /** When two messages count as one: with trace ids these decide; without any, topic and key do; and a trace id without
      a colon is never taken for a topic and a key. */
  lemma SameIdOnFields(a: Message, b: Message)
    ensures a.traceId != "" && b.traceId != "" ==> (MessageId(a) == MessageId(b) <==> a.traceId == b.traceId)
    ensures a.traceId == "" && b.traceId == "" && ':' !in a.topic && ':' !in b.topic ==>
              (MessageId(a) == MessageId(b) <==> a.topic == b.topic && a.key == b.key)
    ensures a.traceId == "" && b.traceId == "" && a.topic == b.topic ==>
              (MessageId(a) == MessageId(b) <==> a.key == b.key)
    ensures a.traceId == "" && b.traceId != "" && ':' !in b.traceId ==> MessageId(a) != MessageId(b)
  {
    if a.traceId == "" && b.traceId == "" && ':' !in a.topic && ':' !in b.topic && MessageId(a) == MessageId(b) {
      FirstColon(a.topic, a.key, b.topic, b.key);
    }
    if a.traceId == "" && b.traceId == "" && a.topic == b.topic && MessageId(a) == MessageId(b) {
      var s := a.topic + ":" + a.key;
      assert a.key == s[|a.topic| + 1..] && b.key == s[|a.topic| + 1..];
    }
    if a.traceId == "" {
      assert MessageId(a)[|a.topic|] == ':';
    }
  }

  lemma FirstColon(t1: string, k1: string, t2: string, k2: string)
    requires ':' !in t1 && ':' !in t2 && t1 + ":" + k1 == t2 + ":" + k2
    ensures t1 == t2 && k1 == k2
  {
    var s := t1 + ":" + k1;
    assert s[|t1|] == ':' && s[|t2|] == ':';
    assert forall i | 0 <= i < |t1| :: s[i] == t1[i];
    assert forall i | 0 <= i < |t2| :: s[i] == t2[i];
    assert |t1| == |t2|;
    assert t1 == s[..|t1|] && t2 == s[..|t2|] && k1 == s[|t1| + 1..] && k2 == s[|t2| + 1..];
  }

  /** Three messages with one trace id, or without any and of one topic and key: the second reaches Input twice. */
  lemma ThreeOfOne(a: Message, b: Message, c: Message)
    requires a.traceId == b.traceId == c.traceId
    requires a.traceId != "" || (a.topic == b.topic == c.topic && a.key == b.key == c.key)
    ensures Messages(FlushRecords([a, b, c], FlushEnv(2, AllAccepted(3)))) == [a, b, b, c]
    ensures !Subseq([a, b, b, c], [a, b, c])
  {
    hide Subseq, Messages, FlushRecords, AllAccepted;
    ThreeAlike(a, b, c);
  }

  /** When the dead letter of message k is written in a cancelled flush, whose context is done: Input takes one of the
      three attempts, and the waits before it end with their timers. */
  lemma DeadLetterWrittenIff(f: FlushEnv, k: nat)
    ensures DlqResult(DlqAt(f, k)) == Written <==>
            k < |f.dlq|
            && (At(f.dlq[k].accepts, 0)
                || (At(f.dlq[k].expires, 1)
                    && (At(f.dlq[k].accepts, 1) || (At(f.dlq[k].expires, 2) && At(f.dlq[k].accepts, 2)))))
  {
    var env := DlqAt(f, k);
    assert DlqFrom(env, 3) == Exhausted;
  }
}
