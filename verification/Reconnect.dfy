// internal/grpc/stream.go and reconnect.go: the receive loop of one stream, and the reconnect loop around it with its
// attempt limit, the replacement of the client and the sleeps.
module Reconnect {
  import opened Wrappers
  import opened Events
  import opened Config
  import opened Backoff

  const MILLISECOND := 1_000_000

  // ---------------------------------------------------------------------------------------------------------
  // One stream

  datatype StreamError = OpenFailed | RecvFailed | ContextDone

  /** What the environment decides in one turn of the receive loop: whether the context is done at the top, what Recv
      returns (None: an error), and at the send whether the channel has room, whether the context is done by then, and
      which case the select takes when both are ready. */
  datatype Turn = Turn(doneAtTop: bool, recv: Option<Event>, room: bool, done: bool, pickDone: bool)

  datatype StreamScript = StreamScript(openOk: bool, turns: seq<Turn>)

  /** A nil error is None; `Reading`: the turns handed in were played and the loop goes on. */
  datatype ReadResult = Returned(err: Option<StreamError>) | Reading

  /** The received event is given up because the context is done. */
  predicate Abandons(t: Turn) { !t.doneAtTop && t.recv.Some? && t.done && (!t.room || t.pickDone) }

  /** Whether, and with which error, a turn ends the loop. */
  function EndOfTurn(t: Turn): Option<StreamError> {
    if t.doneAtTop || Abandons(t) then Some(ContextDone)
    else if t.recv.None? then Some(RecvFailed)
    else None
  }

  /** The events a turn sends to the channel, drops because it is full, and gives up. */
  function DeliveredBy(t: Turn): seq<Event> {
    if EndOfTurn(t).None? && t.room then [t.recv.value] else []
  }

  function DroppedBy(t: Turn): seq<Event> {
    if EndOfTurn(t).None? && !t.room then [t.recv.value] else []
  }

  function GivenUpBy(t: Turn): seq<Event> {
    if Abandons(t) then [t.recv.value] else []
  }

  function Delivered(turns: seq<Turn>): seq<Event> {
    if turns == [] then [] else Delivered(turns[..|turns| - 1]) + DeliveredBy(turns[|turns| - 1])
  }

  function Dropped(turns: seq<Turn>): seq<Event> {
    if turns == [] then [] else Dropped(turns[..|turns| - 1]) + DroppedBy(turns[|turns| - 1])
  }

  function GivenUp(turns: seq<Turn>): seq<Event> {
    if turns == [] then [] else GivenUp(turns[..|turns| - 1]) + GivenUpBy(turns[|turns| - 1])
  }

  /** The stream comes to an end. */
  predicate Ends(s: StreamScript) {
    !s.openOk || exists i :: 0 <= i < |s.turns| && EndOfTurn(s.turns[i]).Some?
  }

  class Client {
    var open: bool

    constructor ()
      ensures open
    {
      open := true;
    }

    method Close()
      modifies this
      ensures !open
    {
      open := false;
    }

    /** The receive loop. `played` turns went on; every way out of the loop carries an error. Each event received is
        sent to the channel, dropped and counted, or, at most one, given up to the cancellation without a count. */
    method ReadEvents(script: StreamScript)
      returns (r: ReadResult, played: nat, delivered: seq<Event>, received: nat, streamFull: nat, lost: nat)
      requires open
      ensures r.Returned? <==> Ends(script)
      ensures r.Returned? ==> r.err.Some?
      ensures played <= |script.turns| && forall i | 0 <= i < played :: EndOfTurn(script.turns[i]).None?
      ensures r == if !script.openOk then Returned(Some(OpenFailed))
                   else if played < |script.turns| then Returned(EndOfTurn(script.turns[played])) else Reading
      ensures forall i | 0 <= i < played :: var t := script.turns[i];
                !t.doneAtTop && t.recv.Some? && (if t.room then !(t.done && t.pickDone) else !t.done)
      ensures r.Returned? && script.openOk ==>
                && played < |script.turns|
                && (var t := script.turns[played];
                    if t.doneAtTop then r.err == Some(ContextDone)
                    else if t.recv.None? then r.err == Some(RecvFailed)
                    else t.done && (t.room ==> t.pickDone) && r.err == Some(ContextDone))
      ensures delivered == Delivered(script.turns[..played]) && streamFull == |Dropped(script.turns[..played])|
      ensures lost == if script.openOk && played < |script.turns| && Abandons(script.turns[played]) then 1 else 0
      ensures received == |delivered| + streamFull + lost
      ensures |delivered| + streamFull == played
    {
      played, delivered, received, streamFull, lost := 0, [], 0, 0, 0;
      if !script.openOk {
        return Returned(Some(OpenFailed)), played, delivered, received, streamFull, lost;
      }
      while played < |script.turns|
        invariant played <= |script.turns| && forall i | 0 <= i < played :: EndOfTurn(script.turns[i]).None?
        invariant delivered == Delivered(script.turns[..played]) && streamFull == |Dropped(script.turns[..played])|
        invariant received == |delivered| + streamFull == played && lost == 0
      {
        var t := script.turns[played];
        assert script.turns[..played + 1][..played] == script.turns[..played];
        if t.doneAtTop {
          return Returned(Some(ContextDone)), played, delivered, received, streamFull, lost;
        }
        if t.recv.None? {
          return Returned(Some(RecvFailed)), played, delivered, received, streamFull, lost;
        }
        received := received + 1;
        if t.room && !(t.done && t.pickDone) {
          delivered := delivered + [t.recv.value];
        } else if t.done {
          lost := 1;
          return Returned(Some(ContextDone)), played, delivered, received, streamFull, lost;
        } else {
          streamFull := streamFull + 1;
        }
        played := played + 1;
      }
      return Reading, played, delivered, received, streamFull, lost;
    }
  }

  // ---------------------------------------------------------------------------------------------------------
  // The loop around it

  /** What the environment decides in one round of the loop: the three looks at the context, the stream, whether
      dialling succeeds, and the jitter. */
  datatype Round = Round(doneAtTop: bool, stream: StreamScript, doneAfterRead: bool,
                         dialOk: bool, jitterMs: nat, doneInSleep: bool)

  /** `Running`: every round handed in was played and the loop goes on. `InStream`: it is inside a stream that goes
      on. */
  datatype Exit = Cancelled | GaveUp | StreamClosed | InStream | Running

  predicate ValidRounds(rounds: seq<Round>) {
    forall k | 0 <= k < |rounds| :: rounds[k].jitterMs < 1000
  }

  /** Whether a client exists at the start of round k: it is the result of the latest dialling. */
  predicate HasClient(rounds: seq<Round>, k: nat)
    requires k <= |rounds|
  {
    k == 0 || rounds[k - 1].dialOk
  }

  /** Whether, and why, round k ends the loop. */
  function Stops(c: Config, rounds: seq<Round>, k: nat): Option<Exit>
    requires k < |rounds|
  {
    var r := rounds[k];
    if r.doneAtTop then Some(Cancelled)
    else if HasClient(rounds, k) && !Ends(r.stream) then Some(InStream)
    else if r.doneAfterRead then Some(Cancelled)
    else if c.maxAttempts > 0 && k >= c.maxAttempts then Some(GaveUp)
    else if r.doneInSleep then Some(Cancelled)
    else None
  }

  function ReadsBefore(rounds: seq<Round>, k: nat): nat
    requires k <= |rounds|
  {
    if k == 0 then 0 else ReadsBefore(rounds, k - 1) + (if HasClient(rounds, k - 1) then 1 else 0)
  }

  /** The ReadEvents calls of a run that ends in round `attempt`. */
  function ReadsOf(rounds: seq<Round>, exit: Exit, attempt: nat): nat
    requires attempt <= |rounds| && (exit == Running <==> attempt == |rounds|)
  {
    ReadsBefore(rounds, attempt) +
    (if exit != Running && !rounds[attempt].doneAtTop && HasClient(rounds, attempt) then 1 else 0)
  }

  /** Whether the manager still holds a client when the loop has ended: the one of the last round, or, if the context
      ended it in the sleep, the result of that round's dialling. */
  predicate HeldAtExit(rounds: seq<Round>, exit: Exit, attempt: nat)
    requires attempt <= |rounds| && (exit == Running <==> attempt == |rounds|)
  {
    if exit == Cancelled && !rounds[attempt].doneAtTop && !rounds[attempt].doneAfterRead then rounds[attempt].dialOk
    else HasClient(rounds, attempt)
  }

  /** The timer fires at once for a duration that is not positive. */
  function SleepOf(c: Config, r: Round, k: nat): int {
    var d := Backoff.Backoff(c.initialBackoff, c.maxBackoff, k) + (if c.jitter then r.jitterMs * MILLISECOND else 0);
    if d > 0 then d else 0
  }

  function SleptBefore(c: Config, rounds: seq<Round>, k: nat): int
    requires k <= |rounds|
  {
    if k == 0 then 0 else SleptBefore(c, rounds, k - 1) + SleepOf(c, rounds[k - 1], k - 1)
  }

  class ReconnectManager {
    const config: Config
    var client: Client?
    var readCalls: nat
    var reconnects: nat
    var slept: int
    /** Over all streams: events received, sent to grpcEventCh, dropped with a count, and given up without one. */
    var received: nat
    var delivered: seq<Event>
    var streamFull: nat
    var lost: nat
    ghost var dialled: set<Client>

    /** At most one connection is open, and it is the one the manager holds. */
    ghost predicate Valid()
      reads this, dialled
    {
      && (client != null ==> client in dialled && client.open)
      && (forall c | c in dialled && c.open :: c == client)
    }

    constructor (config: Config, client: Client)
      requires client.open
      ensures Valid() && this.config == config && this.client == client && dialled == {client}
      ensures readCalls == 0 && reconnects == 0 && slept == 0
      ensures received == 0 && delivered == [] && streamFull == 0 && lost == 0
    {
      this.config := config;
      this.client := client;
      readCalls, reconnects, slept := 0, 0, 0;
      received, delivered, streamFull, lost := 0, [], 0, 0;
      dialled := {client};
    }

    /** The old connection is closed before the new one is dialled (internal/grpc/reconnect.go:106-125). */
    method ReplaceClient(dialOk: bool)
      requires Valid()
      modifies this`client, this`dialled, dialled
      ensures Valid()
      ensures client != null <==> dialOk
      ensures fresh(dialled - old(dialled))
    {
      if client != null {
        client.Close();
      }
      if dialOk {
        client := new Client();
        dialled := dialled + {client};
      } else {
        client := null;
      }
    }

    /** The backoff, the jitter and the timer (internal/grpc/reconnect.go:83-90). */
    method SleepTime(r: Round, attempt: nat) returns (sleep: int)
      ensures sleep == SleepOf(config, r, attempt)
    {
      var backoff := GetReconnectBackoff(config.initialBackoff, config.maxBackoff, attempt);
      if config.jitter {
        backoff := backoff + r.jitterMs * MILLISECOND;
      }
      sleep := if backoff > 0 then backoff else 0;
    }

    /** Every event received was sent, dropped with a count, or given up, at most one in each stream. */
    ghost predicate Tallied()
      reads this
    {
      received == |delivered| + streamFull + lost && lost <= readCalls
    }

    method ReadStream(s: StreamScript) returns (r: ReadResult)
      requires client != null && client.open && Tallied()
      modifies this`readCalls, this`received, this`delivered, this`streamFull, this`lost
      ensures Tallied() && readCalls == old(readCalls) + 1
      ensures r.Returned? <==> Ends(s)
      ensures r.Returned? ==> r.err.Some?
    {
      var played, sent, got, full, gone;
      readCalls := readCalls + 1;
      r, played, sent, got, full, gone := client.ReadEvents(s);
      received, delivered, streamFull, lost := received + got, delivered + sent, streamFull + full, lost + gone;
    }

    method RunWithReconnect(rounds: seq<Round>) returns (exit: Exit, attempt: nat)
      requires Valid() && client != null && readCalls == 0 && reconnects == 0 && slept == 0
      requires received == 0 && delivered == [] && streamFull == 0 && lost == 0
      modifies this, dialled
      ensures Valid() && fresh(dialled - old(dialled))
      ensures EndsWith(config, rounds, exit, attempt)
      ensures slept == SleptBefore(config, rounds, attempt)
      ensures readCalls == ReadsOf(rounds, exit, attempt)
      ensures Tallied()
      ensures exit == GaveUp ==> reconnects == attempt == config.maxAttempts
      ensures exit == Running ==> reconnects == attempt
      ensures client != null <==> HeldAtExit(rounds, exit, attempt)
    {
      hide SleepOf, Ends, Delivered, Dropped;
      attempt := 0;
      var maxAttempts := config.maxAttempts;
      while attempt < |rounds|
        invariant Valid() && fresh(dialled - old(dialled))
        invariant attempt <= |rounds|
        invariant forall k | 0 <= k < attempt :: Stops(config, rounds, k) == None
        invariant client != null <==> HasClient(rounds, attempt)
        invariant readCalls == ReadsBefore(rounds, attempt)
        invariant reconnects == attempt
        invariant maxAttempts > 0 ==> attempt <= maxAttempts
        invariant slept == SleptBefore(config, rounds, attempt)
        invariant Tallied()
      {
        var r := rounds[attempt];
        if r.doneAtTop {
          return Cancelled, attempt;
        }
        if client != null {
          var result := ReadStream(r.stream);
          if result.Reading? {
            return InStream, attempt;
          }
          if result.err.None? {
            return StreamClosed, attempt;
          }
        }
        if r.doneAfterRead {
          return Cancelled, attempt;
        }
        if maxAttempts > 0 && attempt >= maxAttempts {
          return GaveUp, attempt;
        }
        var sleep := SleepTime(r, attempt);
        reconnects := reconnects + 1;
        ReplaceClient(r.dialOk);
        if r.doneInSleep {
          return Cancelled, attempt;
        }
        slept := slept + sleep;
        attempt := attempt + 1;
      }
      return Running, attempt;
    }
  }

  /** The loop's exit as a function of the environment: the first round that stops. */
  ghost predicate EndsWith(c: Config, rounds: seq<Round>, exit: Exit, attempt: nat) {
    && attempt <= |rounds|
    && (forall k | 0 <= k < attempt :: Stops(c, rounds, k) == None)
    && (exit == Running <==> attempt == |rounds|)
    && (exit != Running ==> Stops(c, rounds, attempt) == Some(exit))
  }

  /** When round k begins with a client its stream must end, or the round never gets further. */
  predicate GetsPastStream(rounds: seq<Round>, k: nat)
    requires k < |rounds|
  {
    (k > 0 && !rounds[k - 1].dialOk)
    || !rounds[k].stream.openOk
    || exists i :: 0 <= i < |rounds[k].stream.turns| && EndOfTurn(rounds[k].stream.turns[i]).Some?
  }

  /** Every round before the last passed all three looks at the context and the limit. The exit says why the last one
      did not: the first look; a stream that never ends; the second look; the limit; the third look, in the sleep. */
  lemma ExitReasons(c: Config, rounds: seq<Round>, exit: Exit, attempt: nat)
    requires EndsWith(c, rounds, exit, attempt)
    ensures forall k | 0 <= k < attempt ::
              && !rounds[k].doneAtTop && !rounds[k].doneAfterRead && !rounds[k].doneInSleep
              && GetsPastStream(rounds, k) && (c.maxAttempts > 0 ==> k < c.maxAttempts)
    ensures exit == Running <==> attempt == |rounds|
    ensures attempt < |rounds| ==>
              var r, limit := rounds[attempt], c.maxAttempts > 0 && attempt >= c.maxAttempts;
              && (exit == Cancelled <==>
                    r.doneAtTop || (GetsPastStream(rounds, attempt) && (r.doneAfterRead || (!limit && r.doneInSleep))))
              && (exit == InStream <==> !r.doneAtTop && !GetsPastStream(rounds, attempt))
              && (exit == GaveUp <==>
                    !r.doneAtTop && GetsPastStream(rounds, attempt) && !r.doneAfterRead && limit)
              && exit != StreamClosed
  {
    forall k | 0 <= k < attempt
      ensures !rounds[k].doneAtTop && !rounds[k].doneAfterRead && !rounds[k].doneInSleep
      ensures GetsPastStream(rounds, k) && (c.maxAttempts > 0 ==> k < c.maxAttempts)
    {
      assert Stops(c, rounds, k) == None;
      PastStream(rounds, k);
    }
    if attempt < |rounds| {
      PastStream(rounds, attempt);
    }
  }

  lemma PastStream(rounds: seq<Round>, k: nat)
    requires k < |rounds|
    ensures GetsPastStream(rounds, k) <==> !HasClient(rounds, k) || Ends(rounds[k].stream)
  {
  }

  /** With a limit m >= 1 the loop ends after at most m+1 rounds, whatever the server does, unless a stream never ends;
      a clean close by the server is never told apart from a failure. Without a limit only the context ends it. */
  lemma LimitEndsTheLoop(c: Config, rounds: seq<Round>, exit: Exit, attempt: nat)
    requires EndsWith(c, rounds, exit, attempt)
    ensures exit != StreamClosed
    ensures c.maxAttempts > 0 ==> attempt <= c.maxAttempts
    ensures c.maxAttempts > 0 && |rounds| > c.maxAttempts ==> exit != Running
    ensures (forall k | 0 <= k < |rounds| :: Ends(rounds[k].stream)) ==> exit != InStream
    ensures c.maxAttempts <= 0 ==> exit != GaveUp
    ensures exit == GaveUp ==> attempt == c.maxAttempts
  {
    if 0 < c.maxAttempts < |rounds| {
      assert Stops(c, rounds, c.maxAttempts) != None;
    }
  }

  lemma {:induction false} ReadsBound(rounds: seq<Round>, k: nat)
    requires k <= |rounds|
    ensures ReadsBefore(rounds, k) <= k
    ensures (forall j | 0 <= j < k :: HasClient(rounds, j)) ==> ReadsBefore(rounds, k) == k
  {
    if k > 0 {
      ReadsBound(rounds, k - 1);
    }
  }

  /** At most one ReadEvents per round; a run that gives up although every dialling succeeded made exactly m+1. */
  lemma ReadsPerRound(c: Config, rounds: seq<Round>, exit: Exit, attempt: nat)
    requires EndsWith(c, rounds, exit, attempt)
    ensures ReadsOf(rounds, exit, attempt) <= attempt + 1
    ensures exit == GaveUp ==> ReadsOf(rounds, exit, attempt) <= c.maxAttempts + 1
    ensures exit == GaveUp && (forall k | 0 <= k < attempt :: rounds[k].dialOk)
            ==> ReadsOf(rounds, exit, attempt) == c.maxAttempts + 1
  {
    ReadsBound(rounds, attempt);
    LimitEndsTheLoop(c, rounds, exit, attempt);
    assert (forall k | 0 <= k < attempt :: rounds[k].dialOk) ==> forall j | 0 <= j <= attempt :: HasClient(rounds, j);
  }

  /** The designed total waiting time of m rounds, in nanoseconds. */
  function WantedTotal(initial: int, max: int, m: nat): int {
    if m == 0 then 0 else WantedTotal(initial, max, m - 1) + Wanted(initial, max, m - 1)
  }

  /** The jitter of the first m rounds, in nanoseconds. */
  function JitterTotal(rounds: seq<Round>, m: nat): int
    requires m <= |rounds|
  {
    if m == 0 then 0 else JitterTotal(rounds, m - 1) + rounds[m - 1].jitterMs * 1_000_000
  }

  lemma {:induction false} JitterBound(rounds: seq<Round>, m: nat)
    requires ValidRounds(rounds) && m <= |rounds|
    ensures 0 <= JitterTotal(rounds, m) <= m * 999 * MILLISECOND
  {
    if m > 0 {
      JitterBound(rounds, m - 1);
    }
  }

  /** Within the safe range (every accepted configuration up to 22 rounds) the waiting time of a run is the designed
      one plus exactly the jitter drawn, which is less than one second per round. */
  lemma {:induction false} SleptIsWanted(c: Config, rounds: seq<Round>, m: nat)
    requires BackoffInRange(c.initialBackoff, c.maxBackoff) && ValidRounds(rounds) && m <= |rounds|
    requires m == 0 || Fits(c.initialBackoff, m - 1)
    ensures SleptBefore(c, rounds, m)
         == WantedTotal(c.initialBackoff, c.maxBackoff, m) + (if c.jitter then JitterTotal(rounds, m) else 0)
    ensures 0 <= JitterTotal(rounds, m) <= m * 999 * MILLISECOND
  {
    JitterBound(rounds, m);
    if m > 0 {
      if m > 1 {
        FitsDownward(c.initialBackoff, m - 2, m - 1);
      }
      SleptIsWanted(c, rounds, m - 1);
      FitsIsExact(c.initialBackoff, c.maxBackoff, m - 1);
      WantedShape(c.initialBackoff, c.maxBackoff, 0, m - 1);
    }
  }

  /** Beyond the safe range the wait collapses: at the first overflow the sleep is gone, jitter and all, and from
      attempt 55 on only the jitter is left. */
  lemma OverflowSleeps(c: Config, r: Round, k: nat)
    requires BackoffInRange(c.initialBackoff, c.maxBackoff) && r.jitterMs < 1000
    ensures k >= 55 ==> SleepOf(c, r, k) == if c.jitter then r.jitterMs * 1_000_000 else 0
    ensures !Fits(c.initialBackoff, k) && (k == 0 || Fits(c.initialBackoff, k - 1)) ==> SleepOf(c, r, k) == 0
  {
    if k >= 55 {
      ZeroFrom55(c.initialBackoff, c.maxBackoff, k);
    }
    if !Fits(c.initialBackoff, k) && (k == 0 || Fits(c.initialBackoff, k - 1)) {
      DeeplyNegative(c.initialBackoff, c.maxBackoff, k);
    }
  }

  /** The first register beyond 2^63 wraps to less than minus one second. */
  lemma DeeplyNegative(initial: int, max: int, k: nat)
    requires BackoffInRange(initial, max) && !Fits(initial, k) && (k == 0 || Fits(initial, k - 1))
    ensures Backoff.Backoff(initial, max, k) < -SECOND
  {
    hide Wrap64;
    assert k > 0;
    var p := initial * Pow2(k - 1);
    assert initial * SECOND * Pow2(k - 1) == p * SECOND && initial * SECOND * Pow2(k) == 2 * (p * SECOND);
    assert p <= 9_223_372_036;
    WrapsBelow(p);
  }

  lemma WrapsBelow(p: int)
    requires p <= 9_223_372_036 && 2 * (p * SECOND) >= TWO63
    ensures Wrap64(2 * (p * SECOND)) < -SECOND
  {
  }

  lemma TwentyTwoRoundsFit(c: Config, m: nat)
    requires BackoffInRange(c.initialBackoff, c.maxBackoff) && 1 <= m <= 22
    ensures Fits(c.initialBackoff, m - 1)
  {
    KnownPowers();
    FitsDownward(c.initialBackoff, m - 1, 21);
  }

  /** Closed form: p doubling rounds below the cap, the others at the cap. */
  lemma {:induction false} WantedTotalClosedForm(initial: int, max: int, m: nat) returns (p: nat)
    requires BackoffInRange(initial, max)
    ensures p <= m
    ensures forall k: nat | k < m :: (k < p <==> initial * Pow2(k) <= max)
    ensures WantedTotal(initial, max, m) == (initial * (Pow2(p) - 1) + (m - p) * max) * SECOND
  {
    hide Pow2, Wanted;
    p := 0;
    if m == 0 {
      PowerOfZero(initial);
    } else {
      p := WantedTotalClosedForm(initial, max, m - 1);
      if p == m - 1 && initial * Pow2(m - 1) <= max {
        p := m;
        DoublingRound(initial, max, m);
      } else {
        CappedRound(initial, max, m, p);
      }
    }
  }

  lemma PowerOfZero(initial: int)
    ensures initial * (Pow2(0) - 1) == 0
  {
  }

  lemma DoublingRound(initial: int, max: int, m: nat)
    requires m > 0 && initial * Pow2(m - 1) <= max
    ensures Wanted(initial, max, m - 1) + (initial * (Pow2(m - 1) - 1)) * SECOND == (initial * (Pow2(m) - 1)) * SECOND
  {
    var p := Pow2(m - 1);
    assert initial * (2 * p - 1) == initial * (p - 1) + initial * p;
  }

  lemma CappedRound(initial: int, max: int, m: nat, p: nat)
    requires BackoffInRange(initial, max) && p < m
    requires p == m - 1 ==> initial * Pow2(m - 1) > max
    requires p < m - 1 ==> initial * Pow2(p) > max
    ensures initial * Pow2(m - 1) > max && Wanted(initial, max, m - 1) == max * SECOND
    ensures (m - p) * max == (m - 1 - p) * max + max
  {
    PowerMonotone(p, m - 1);
    ScaleMonotone(initial, Pow2(p), Pow2(m - 1));
  }
}
