// internal/kafka/writer.go: the Writer object, its reused batch slice, flushBatch, writeToDLQ and the worker loop.
// Each method is proved against the machine of module Worker.
module Writer {
  import opened Worker
  import Pool

  /** A Go slice over a backing array: `len` elements, cap(s) == data.Length. */
  class Slice {
    var data: array<Message>
    var len: nat
    var allocations: nat

    ghost predicate Valid()
      reads this
    {
      len <= data.Length
    }

    ghost function Contents(): seq<Message>
      reads this, data
      requires Valid()
    {
      data[..len]
    }

    /** make([]*Message, 0, capacity) */
    constructor (capacity: nat)
      ensures Valid() && Contents() == [] && data.Length == capacity && allocations == 1 && fresh(data)
    {
      data := new Message[capacity];
      len := 0;
      allocations := 1;
    }

    /** append: writes in place while there is room, otherwise moves to a larger array. */
    method Append(m: Message)
      requires Valid()
      modifies this, data
      ensures Valid() && Contents() == old(Contents()) + [m]
      ensures old(len) < old(data.Length) ==> data == old(data) && allocations == old(allocations)
      ensures old(len) == old(data.Length) ==> fresh(data) && allocations == old(allocations) + 1
    {
      if len == data.Length {
        var bigger := new Message[2 * data.Length + 1];
        forall i | 0 <= i < len {
          bigger[i] := data[i];
        }
        data := bigger;
        allocations := allocations + 1;
        assert data[..len] == old(data[..len]);
      }
      data[len] := m;
      len := len + 1;
    }

    /** s = s[:0] */
    method Truncate()
      requires Valid()
      modifies this`len
      ensures Valid() && Contents() == []
    {
      len := 0;
    }
  }

  datatype WriteResult = Queued | ErrQueueFull | PanicSendOnClosed

  class Writer {
    const maxMessages: nat
    const workers: nat
    /** The buffered channel of capacity maxMessages * workers. */
    var messageCh: seq<Message>
    var closed: bool
    /** The sync.Once of Close, and how often the channel has been closed; closing it a second time would panic. */
    var closeOnce: bool
    var closings: nat
    /** Everything handed to the producer's Input. */
    var input: seq<Record>
    var writerQueueFullDrops: nat
    var dlqEventsTotal: nat
    var dlqFailuresTotal: nat

    ghost predicate Valid()
      reads this
    {
      && maxMessages > 0 && workers > 0 && |messageCh| <= maxMessages * workers
      && closings == (if closed then 1 else 0) && closeOnce == closed
    }

    constructor (maxMessages: nat, workers: nat)
      requires maxMessages > 0 && workers > 0
      ensures Valid() && messageCh == [] && !closed && input == []
      ensures this.maxMessages == maxMessages && this.workers == workers
      ensures writerQueueFullDrops == 0 && dlqEventsTotal == 0 && dlqFailuresTotal == 0
    {
      this.maxMessages, this.workers := maxMessages, workers;
      messageCh, closed, input := [], false, [];
      closeOnce, closings := false, 0;
      writerQueueFullDrops, dlqEventsTotal, dlqFailuresTotal := 0, 0, 0;
    }

    /** The channel side of this object, as the pool's state. */
    ghost function Shared(): Pool.Pool
      reads this
    {
      Pool.Pool(messageCh, closed, false, false, [], [], writerQueueFullDrops, [])
    }

    /** A send on a closed channel panics, also inside a select with a default case. */
    method Write(msg: Message) returns (r: WriteResult)
      requires Valid()
      modifies this`messageCh, this`writerQueueFullDrops
      ensures Valid()
      ensures r == if closed then PanicSendOnClosed
                   else if |old(messageCh)| < maxMessages * workers then Queued else ErrQueueFull
      ensures messageCh == if r == Queued then old(messageCh) + [msg] else old(messageCh)
      ensures writerQueueFullDrops == old(writerQueueFullDrops) + (if r == ErrQueueFull then 1 else 0)
      ensures var p := Pool.WriteStep(Pool.PoolConfig(workers, maxMessages), old(Shared()), msg);
              p.ch == messageCh && p.drops == writerQueueFullDrops && (p.panicked <==> r == PanicSendOnClosed)
    {
      if closed {
        return PanicSendOnClosed;
      }
      if |messageCh| < maxMessages * workers {
        messageCh := messageCh + [msg];
        return Queued;
      }
      writerQueueFullDrops := writerQueueFullDrops + 1;
      return ErrQueueFull;
    }

    /** close(w.messageCh), which panics on a channel that is closed already. */
    method CloseChannel()
      requires !closed
      modifies this`closed, this`closings
      ensures closed && closings == old(closings) + 1
    {
      closed := true;
      closings := closings + 1;
    }

    /** However often it is called, the channel is closed exactly once, and what is queued stays queued. */
    method Close()
      requires Valid()
      modifies this`closed, this`closeOnce, this`closings
      ensures Valid() && closed && closings == 1
      ensures Shared() == Pool.PoolStep(Pool.PoolConfig(workers, maxMessages), old(Shared()), Pool.PoolAction.Close)
    {
      if !closeOnce {
        closeOnce := true;
        CloseChannel();
      }
    }

    /** `waits`: the backoffs waited for, in milliseconds. */
    method WriteToDlq(msg: Message, env: DlqEnv) returns (outcome: DlqOutcome, waits: seq<nat>)
      modifies this`input, this`dlqEventsTotal, this`dlqFailuresTotal
      ensures outcome == DlqResult(env)
      ensures input == if outcome == Written then old(input) + [DeadLetter(msg)] else old(input)
      ensures dlqEventsTotal == old(dlqEventsTotal) + (if outcome == Written then 1 else 0)
      ensures dlqFailuresTotal == old(dlqFailuresTotal) + (if outcome == Exhausted then 1 else 0)
      ensures waits <= [100, 200] && |waits| + 1 == AttemptsFrom(env, 0)
      ensures outcome == Exhausted ==> waits == [100, 200]
    {
      var backoff := 100;
      var attempt := 0;
      waits := [];
      while attempt < MAX_RETRIES
        invariant 0 <= attempt <= MAX_RETRIES
        invariant DlqResult(env) == DlqFrom(env, attempt)
        invariant AttemptsFrom(env, 0) == attempt + AttemptsFrom(env, attempt)
        invariant input == old(input) && dlqEventsTotal == old(dlqEventsTotal)
        invariant dlqFailuresTotal == old(dlqFailuresTotal) + (if attempt == MAX_RETRIES then 1 else 0)
        invariant backoff == if attempt <= 1 then 100 else if attempt == 2 then 200 else 400
        invariant waits == if attempt <= 1 then [] else if attempt == 2 then [100] else [100, 200]
      {
        if attempt > 0 {
          if WaitInterrupted(env, attempt) {
            return GaveUp, waits;
          }
          waits := waits + [backoff];
          backoff := backoff * 2;
        }
        if !SendFails(env, attempt) {
          input := input + [DeadLetter(msg)];
          dlqEventsTotal := dlqEventsTotal + 1;
          return Written, waits;
        }
        if attempt == MAX_RETRIES - 1 {
          dlqFailuresTotal := dlqFailuresTotal + 1;
        }
        attempt := attempt + 1;
      }
      return Exhausted, waits;
    }

    method FlushBatch(batch: Slice, env: FlushEnv)
      requires batch.Valid()
      modifies this`input, this`dlqEventsTotal, this`dlqFailuresTotal
      ensures input == old(input) + FlushRecords(batch.Contents(), env)
      ensures dlqEventsTotal == old(dlqEventsTotal) +
              |DlqRecords(batch.Contents(), FirstDeadLetter(batch.Contents(), env), env)|
      ensures dlqFailuresTotal == old(dlqFailuresTotal) +
              |DlqFailures(batch.Contents(), FirstDeadLetter(batch.Contents(), env), env)|
    {
      hide AllSent, DlqRecords, DlqFailures, FlushRecords, Ids, DistinctIds, FirstDeadLetter;
      ghost var ms := batch.Contents();
      assert ms[..0] == [];
      NothingSent();
      var sentMessages: map<string, Message> := map[];
      var i := 0;
      while i < batch.len
        invariant 0 <= i <= batch.len && i <= env.cut
        invariant sentMessages.Keys == Ids(ms[..i])
        invariant input == old(input) + AllSent(ms[..i])
        invariant dlqEventsTotal == old(dlqEventsTotal) && dlqFailuresTotal == old(dlqFailuresTotal)
      {
        var msg := batch.data[i];
        NoteSent(ms, i, sentMessages);
        sentMessages := sentMessages[MessageId(msg) := msg];
        if i == env.cut {
          RecordsWhenCut(ms, env);
          DeadLetterFrom(batch, |sentMessages|, env);
          return;
        }
        AllSentSnoc(ms, i);
        input := input + [Sent(msg)];
        i := i + 1;
      }
      assert ms[..i] == ms;
      RecordsWhenUncut(ms, env);
    }

    /** The loop over batch[len(sentMessages):]. */
    method DeadLetterFrom(batch: Slice, first: nat, env: FlushEnv)
      requires batch.Valid() && first <= batch.len
      modifies this`input, this`dlqEventsTotal, this`dlqFailuresTotal
      ensures input == old(input) + DlqRecords(batch.Contents(), first, env)
      ensures dlqEventsTotal == old(dlqEventsTotal) + |DlqRecords(batch.Contents(), first, env)|
      ensures dlqFailuresTotal == old(dlqFailuresTotal) + |DlqFailures(batch.Contents(), first, env)|
    {
      ghost var ms := batch.Contents();
      ghost var all := DlqRecords(ms, first, env);
      var k := first;
      while k < batch.len
        invariant first <= k <= batch.len
        invariant input + DlqRecords(ms, k, env) == old(input) + all
        invariant dlqEventsTotal + |DlqRecords(ms, k, env)| == old(dlqEventsTotal) + |all|
        invariant dlqFailuresTotal + |DlqFailures(ms, k, env)| == old(dlqFailuresTotal) + |DlqFailures(ms, first, env)|
      {
        var outcome, _ := WriteToDlq(batch.data[k], DlqAt(env, k));
        k := k + 1;
      }
    }

    /** flushBatch unless the batch is empty, and batch[:0]. */
    method FlushSlice(slice: Slice, f: FlushEnv, ghost w: Worker, ghost exiting: bool,
                      ghost input0: seq<Record>, ghost failures0: nat) returns (ghost w': Worker)
      requires slice.Valid() && w.batch == slice.Contents() && w.pc.Collecting?
      requires input == input0 + w.out && dlqFailuresTotal == failures0 + |w.exhausted|
      modifies this`input, this`dlqEventsTotal, this`dlqFailuresTotal, slice`len
      ensures w' == FlushIfAny(w, f, exiting)
      ensures slice.Valid() && slice.Contents() == [] == w'.batch
      ensures input == input0 + w'.out && dlqFailuresTotal == failures0 + |w'.exhausted|
      ensures w'.pc == if exiting then Exited else Collecting
    {
      w' := FlushIfAny(w, f, exiting);
      if slice.len > 0 {
        FlushOut(w, f, exiting);
        FlushBatch(slice, f);
        slice.Truncate();
      }
    }

    /** One turn of the worker loop; the slice is never replaced, so the branch that would shrink it is dead. */
    method Turn(slice: Slice, s: Select, ghost w: Worker, ghost input0: seq<Record>, ghost failures0: nat)
      returns (ghost w': Worker, exited: bool)
      requires Valid() && slice.Valid() && w.batch == slice.Contents() && w.pc.Collecting?
      requires slice.len < maxMessages == slice.data.Length
      requires input == input0 + w.out && dlqFailuresTotal == failures0 + |w.exhausted|
      modifies this`input, this`dlqEventsTotal, this`dlqFailuresTotal, slice, slice.data
      ensures w' == Iterate(maxMessages, w, s)
      ensures slice.Valid() && slice.Contents() == w'.batch && slice.len < maxMessages
      ensures slice.data == old(slice.data) && slice.allocations == old(slice.allocations)
      ensures input == input0 + w'.out && dlqFailuresTotal == failures0 + |w'.exhausted|
      ensures w'.pc == if exited then Exited else Collecting
    {
      exited := false;
      w' := w;
      match s {
        case FromChannel(m, f) =>
          w' := w.(batch := w.batch + [m], received := w.received + [m]);
          slice.Append(m);
          if slice.len >= maxMessages {
            w' := FlushSlice(slice, f, w', false, input0, failures0);
          }
        case FlushTick(f) =>
          if slice.len > 0 {
            w' := FlushSlice(slice, f, w, false, input0, failures0);
            if slice.data.Length > maxMessages * 2 {
              assert false;
            }
          }
        case MetricsTick =>
        case FromClosed(f) =>
          w' := FlushSlice(slice, f, w, true, input0, failures0);
          exited := true;
        case FromContext(f) =>
          w' := FlushSlice(slice, f, w, true, input0, failures0);
          exited := true;
      }
    }

    /** The worker loop over the cases its selects take. `batch` is what is left unflushed, `exited` whether the
        goroutine has returned, `allocations` how many arrays the slice has used. */
    method RunWorker(selects: seq<Select>) returns (exited: bool, batch: seq<Message>, allocations: nat)
      requires Valid()
      modifies this`input, this`dlqEventsTotal, this`dlqFailuresTotal
      ensures input == old(input) + Loop(maxMessages, FRESH, selects).out
      ensures batch == Loop(maxMessages, FRESH, selects).batch
      ensures exited <==> Loop(maxMessages, FRESH, selects).pc.Exited?
      ensures dlqFailuresTotal == old(dlqFailuresTotal) + |Loop(maxMessages, FRESH, selects).exhausted|
      ensures allocations == 1 && |batch| < maxMessages
    {
      var slice := new Slice(maxMessages);
      ghost var backing := slice.data;
      ghost var w := FRESH;
      exited := false;
      var i := 0;
      while i < |selects| && !exited
        decreases |selects| - i
        invariant 0 <= i <= |selects|
        invariant fresh(slice) && fresh(slice.data) && slice.Valid()
        invariant w == Loop(maxMessages, FRESH, selects[..i])
        invariant w.batch == slice.Contents() && slice.len < maxMessages
        invariant slice.data == backing && slice.data.Length == maxMessages && slice.allocations == 1
        invariant input == old(input) + w.out
        invariant dlqFailuresTotal == old(dlqFailuresTotal) + |w.exhausted|
        invariant w.pc == if exited then Exited else Collecting
      {
        assert selects[..i + 1][..i] == selects[..i];
        w, exited := Turn(slice, selects[i], w, old(input), old(dlqFailuresTotal));
        i := i + 1;
      }
      if exited {
        LoopStaysExited(maxMessages, selects, i);
      }
      assert selects[..|selects|] == selects;
      batch, allocations := slice.data[..slice.len], slice.allocations;
    }
  }

  lemma NothingSent()
    ensures AllSent([]) == [] && Ids([]) == {}
  {
  }

  lemma NoteSent(ms: seq<Message>, i: nat, sent: map<string, Message>)
    requires i < |ms| && sent.Keys == Ids(ms[..i])
    ensures sent[MessageId(ms[i]) := ms[i]].Keys == Ids(ms[..i + 1])
    ensures |sent[MessageId(ms[i]) := ms[i]]| == DistinctIds(ms[..i + 1]) <= i + 1
  {
    assert ms[..i + 1] == ms[..i] + [ms[i]];
    IdsSnoc(ms[..i], ms[i]);
    DistinctBounds(ms[..i + 1]);
    var next := sent[MessageId(ms[i]) := ms[i]];
    assert next.Keys == Ids(ms[..i + 1]);
    assert |next| == |next.Keys|;
  }

  lemma {:induction false} LoopStaysExited(maxMessages: nat, selects: seq<Select>, i: nat)
    requires i <= |selects| && !Loop(maxMessages, FRESH, selects[..i]).pc.Collecting?
    ensures Loop(maxMessages, FRESH, selects) == Loop(maxMessages, FRESH, selects[..i])
    decreases |selects|
  {
    if i == |selects| {
      assert selects[..i] == selects;
    } else {
      var front := selects[..|selects| - 1];
      assert front[..i] == selects[..i];
      LoopStaysExited(maxMessages, front, i);
    }
  }
}
