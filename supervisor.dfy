/**
 * The console client's outer loop: it waits for the server's socket, runs one
 * console session, decides from the session's outcome whether to quit, and
 * otherwise waits an exponentially growing backoff before trying again. The
 * socket watcher and the sessions are abstract: each round of the loop is
 * given as what they reported.
 */
module Supervisor {
  import opened Wrappers
  import opened Strings
  import opened ConsoleSession

  // ---------------------------------------------------------------------------
  // Exit codes
  // ---------------------------------------------------------------------------

  datatype ExitReason = ExitUserEof | UserInterruptWhileWaiting | ExitUnrecoverableHandshakeFailure

  /** The process exit code: 1 only after an unrecoverable handshake failure, 0 otherwise,
    * including when no reason was recorded. */
  function ExitCode(reason: Option<ExitReason>): (code: int)
    ensures code == 1 <==> reason == Some(ExitUnrecoverableHandshakeFailure)
    ensures code == 0 <==> reason != Some(ExitUnrecoverableHandshakeFailure)
  {
    match reason
    case None => 0
    case Some(ExitUserEof) => 0
    case Some(UserInterruptWhileWaiting) => 0
    case Some(ExitUnrecoverableHandshakeFailure) => 1
  }

  // ---------------------------------------------------------------------------
  // Retry backoff
  // ---------------------------------------------------------------------------

  const InitialRetryBackoffMs: int := 1000
  const MaxRetryBackoffMs: int := 60000
  /** The largest shift applied to the initial backoff. */
  const MaxShift: int := 30

  function Pow2(n: nat): (r: nat)
    ensures r >= 1
  {
    if n == 0 then 1 else 2 * Pow2(n - 1)
  }

  lemma {:induction false} Pow2Monotone(a: nat, b: nat)
    requires a <= b
    ensures Pow2(a) <= Pow2(b)
    decreases b
  {
    if a < b {
      Pow2Monotone(a, b - 1);
    }
  }

  lemma {:induction false} Pow2Add(a: nat, b: nat)
    ensures Pow2(a + b) == Pow2(a) * Pow2(b)
    decreases b
  {
    if b > 0 {
      Pow2Add(a, b - 1);
      assert Pow2(a + b) == 2 * Pow2(a + b - 1);
    }
  }

  const TwoTo63: int := 0x8000_0000_0000_0000
  const TwoTo64: int := 0x1_0000_0000_0000_0000

  /** Java's `long` left shift of a non-negative value: the product, wrapped to 64 bits. */
  function LongShiftLeft(x: nat, shift: nat): int {
    var wide := (x * Pow2(shift)) % TwoTo64;
    if wide >= TwoTo63 then wide - TwoTo64 else wide
  }

  lemma Pow2Values()
    ensures Pow2(5) == 32 && Pow2(6) == 64 && Pow2(30) == 1073741824
  {
    assert Pow2(1) == 2;
    assert Pow2(2) == 4;
    assert Pow2(3) == 8;
    assert Pow2(4) == 16;
    assert Pow2(5) == 32;
    assert Pow2(6) == 64;
    Pow2Add(5, 5);
    Pow2Add(10, 10);
    Pow2Add(20, 10);
  }

  /** The initial backoff shifted by at most 30 places never leaves the range of a `long`, so
    * the shift is the exact product. */
  lemma ShiftNeverOverflows(shift: nat)
    requires shift <= MaxShift
    ensures LongShiftLeft(InitialRetryBackoffMs, shift) == InitialRetryBackoffMs * Pow2(shift)
  {
    Pow2Monotone(shift, 30);
    Pow2Values();
    var p := Pow2(shift);
    assert 0 <= 1000 * p < TwoTo63;
  }

  /** retryBackoffMs: no wait before the first retry, then one second doubling per retry,
    * capped at a minute. */
  function RetryBackoffMs(attempt: int): (ms: int)
    ensures attempt <= 1 ==> ms == 0
    ensures ms <= MaxRetryBackoffMs
  {
    if attempt <= 1 then 0
    else
      var shift := if MaxShift < attempt - 2 then MaxShift else attempt - 2;
      var exponential := LongShiftLeft(InitialRetryBackoffMs, shift);
      if MaxRetryBackoffMs < exponential then MaxRetryBackoffMs else exponential
  }

  /** The backoff is zero up to the first retry, a whole number of seconds between one second
    * and a minute after, exactly doubling until the cap. */
  lemma RetryBackoffBounds(attempt: int)
    ensures attempt <= 1 ==> RetryBackoffMs(attempt) == 0
    ensures attempt >= 2 ==> InitialRetryBackoffMs <= RetryBackoffMs(attempt) <= MaxRetryBackoffMs
    ensures RetryBackoffMs(attempt) % 1000 == 0
    ensures 2 <= attempt <= 7 ==> RetryBackoffMs(attempt) == InitialRetryBackoffMs * Pow2(attempt - 2)
  {
    if attempt >= 2 {
      var shift := if MaxShift < attempt - 2 then MaxShift else attempt - 2;
      ShiftNeverOverflows(shift);
      if attempt <= 7 {
        Pow2Monotone(shift, 5);
        Pow2Values();
      }
    }
  }

  /** From the eighth attempt on the backoff stays at the cap. */
  lemma RetryBackoffSaturates(attempt: int)
    requires attempt >= 8
    ensures RetryBackoffMs(attempt) == MaxRetryBackoffMs
  {
    var shift := if MaxShift < attempt - 2 then MaxShift else attempt - 2;
    ShiftNeverOverflows(shift);
    Pow2Monotone(6, shift);
    Pow2Values();
  }

  /** A later attempt never waits less. */
  lemma RetryBackoffMonotone(a: int, b: int)
    requires a <= b
    ensures RetryBackoffMs(a) <= RetryBackoffMs(b)
  {
    if a >= 2 {
      var sa := if MaxShift < a - 2 then MaxShift else a - 2;
      var sb := if MaxShift < b - 2 then MaxShift else b - 2;
      ShiftNeverOverflows(sa);
      ShiftNeverOverflows(sb);
      Pow2Monotone(sa, sb);
    } else {
      RetryBackoffBounds(b);
    }
  }

  /** formatBackoff for whole seconds: the seconds and "s". The one-decimal rendering of other
    * values is left out, as None. */
  function FormatBackoff(backoffMs: int): (r: Option<string>)
    ensures r.Some? <==> backoffMs % 1000 == 0
    ensures r.Some? ==> |r.value| >= 2 && r.value[|r.value| - 1] == 's'
  {
    if backoffMs % 1000 == 0 then Some(IntToString(backoffMs / 1000) + "s") else None
  }

  /** Every backoff the loop waits is shown as whole seconds that read back as its value. */
  lemma BackoffsFormatAsSeconds(attempt: int)
    ensures var text := FormatBackoff(RetryBackoffMs(attempt));
            && text.Some?
            && AllDigits(text.value[..|text.value| - 1])
            && ParseDigits(text.value[..|text.value| - 1]) * 1000 == RetryBackoffMs(attempt)
  {
    RetryBackoffBounds(attempt);
    var b := RetryBackoffMs(attempt);
    var text := FormatBackoff(b);
    assert text.value[..|text.value| - 1] == NatToString(b / 1000);
    ParseNatToString(b / 1000);
  }

  // ---------------------------------------------------------------------------
  // Deciding after each session
  // ---------------------------------------------------------------------------

  /** shouldQuitClient: the reason's default, except that the override keeps retrying after an
    * unrecoverable handshake failure. */
  function ShouldQuitClient(outcome: SessionOutcome, ignoreUnrecoverableHandshake: bool): (quit: bool)
    ensures quit <==> (outcome.disconnectReason == UserEof
                       || (outcome.disconnectReason == UnrecoverableHandshakeFailure && !ignoreUnrecoverableHandshake))
  {
    if outcome.disconnectReason == UnrecoverableHandshakeFailure && ignoreUnrecoverableHandshake then false
    else QuitClientByDefault(outcome.disconnectReason)
  }

  /** The exit reason a session's outcome records: its own for the user quitting or a fatal
    * handshake not overridden, the earlier one otherwise. */
  function RecordedExitReason(current: Option<ExitReason>, reason: DisconnectReason, ignoreUnrecoverableHandshake: bool): (r: Option<ExitReason>)
    ensures reason == UserEof ==> r == Some(ExitUserEof)
    ensures reason == UnrecoverableHandshakeFailure && !ignoreUnrecoverableHandshake ==> r == Some(ExitUnrecoverableHandshakeFailure)
    ensures (|| reason == ConnectionClosed || reason == GenericConnectionError
             || (reason == UnrecoverableHandshakeFailure && ignoreUnrecoverableHandshake)) ==> r == current
  {
    match reason
    case UserEof => Some(ExitUserEof)
    case UnrecoverableHandshakeFailure => if ignoreUnrecoverableHandshake then current else Some(ExitUnrecoverableHandshakeFailure)
    case _ => current
  }

  /** What the socket watcher and the session reported in one round of the loop: whether the
    * socket appeared (rather than shutdown being requested while waiting), the session's
    * outcome, and whether the backoff wait ended with the socket still there and no shutdown. */
  datatype Round = Round(socketAppeared: bool, outcome: SessionOutcome, backoffCompleted: bool)

  /** The loop's state: the retry count, the exit reason, the backoffs waited and whether the
    * loop has ended. */
  datatype LoopState = LoopState(retryCount: int, exitReason: Option<ExitReason>, backoffs: seq<int>, stopped: bool)

  /** One round of the loop. */
  function Step(s: LoopState, r: Round, ignore: bool): (t: LoopState)
    ensures !r.socketAppeared ==> t == s.(stopped := true)
    ensures r.socketAppeared ==> t.exitReason == RecordedExitReason(s.exitReason, r.outcome.disconnectReason, ignore)
    ensures r.socketAppeared ==> (t.stopped <==> ShouldQuitClient(r.outcome, ignore) || !r.backoffCompleted)
    ensures r.socketAppeared && ShouldQuitClient(r.outcome, ignore) ==> t.backoffs == s.backoffs
    ensures r.socketAppeared && !ShouldQuitClient(r.outcome, ignore) ==>
              var count := if r.outcome.didConnect then 0 else s.retryCount;
              t.retryCount == count + 1 && t.backoffs == s.backoffs + [RetryBackoffMs(count + 1)]
  {
    if !r.socketAppeared then s.(stopped := true)
    else
      var reason := RecordedExitReason(s.exitReason, r.outcome.disconnectReason, ignore);
      var count := if r.outcome.didConnect then 0 else s.retryCount;
      if ShouldQuitClient(r.outcome, ignore) then LoopState(count, reason, s.backoffs, true)
      else LoopState(count + 1, reason, s.backoffs + [RetryBackoffMs(count + 1)], !r.backoffCompleted)
  }

  /** The loop run over the rounds, up to the round that ends it. */
  function Supervise(s: LoopState, rounds: seq<Round>, ignore: bool): (t: LoopState)
    ensures s.stopped ==> t == s
    decreases |rounds|
  {
    if s.stopped || rounds == [] then s
    else Supervise(Step(s, rounds[0], ignore), rounds[1..], ignore)
  }

  /** The loop only appends to the backoffs, waits once per round when it does not stop, and
    * keeps a recorded exit reason. */
  lemma {:induction false} SuperviseExtends(s: LoopState, rounds: seq<Round>, ignore: bool)
    ensures var t := Supervise(s, rounds, ignore);
              && |s.backoffs| <= |t.backoffs| && t.backoffs[..|s.backoffs|] == s.backoffs
              && (!t.stopped ==> |t.backoffs| == |s.backoffs| + |rounds|)
              && (s.exitReason.Some? ==> t.exitReason.Some?)
    decreases |rounds|
  {
    if !s.stopped && rounds != [] {
      var u := Step(s, rounds[0], ignore);
      SuperviseExtends(u, rounds[1..], ignore);
      var t := Supervise(u, rounds[1..], ignore);
      assert t.backoffs[..|u.backoffs|][..|s.backoffs|] == t.backoffs[..|s.backoffs|];
    }
  }

  /** One round of the loop, when it is not over yet. */
  lemma SuperviseUnfold(s: LoopState, rounds: seq<Round>, ignore: bool)
    requires !s.stopped && rounds != []
    ensures Supervise(s, rounds, ignore) == Supervise(Step(s, rounds[0], ignore), rounds[1..], ignore)
  {
  }

  /** The state the client starts in. */
  const Start: LoopState := LoopState(0, None, [], false)

  /** After a session that connected, the client retries at once. */
  lemma ConnectedSessionRetriesAtOnce(s: LoopState, r: Round, ignore: bool)
    requires r.socketAppeared && r.outcome.didConnect && !ShouldQuitClient(r.outcome, ignore)
    ensures Step(s, r, ignore).backoffs == s.backoffs + [0]
    ensures Step(s, r, ignore).retryCount == 1
  {
  }

  /** Failed attempts in a row wait 0, 1, 2, 4, ... seconds, capped at a minute. */
  lemma {:induction false} FailuresBackOff(s: LoopState, rounds: seq<Round>, ignore: bool)
    requires !s.stopped
    requires forall i :: 0 <= i < |rounds| ==> rounds[i].socketAppeared && rounds[i].backoffCompleted
    requires forall i :: 0 <= i < |rounds| ==> !rounds[i].outcome.didConnect && !QuitClientByDefault(rounds[i].outcome.disconnectReason)
    ensures Supervise(s, rounds, ignore).backoffs == s.backoffs + seq(|rounds|, j => RetryBackoffMs(s.retryCount + j + 1))
    ensures Supervise(s, rounds, ignore).retryCount == s.retryCount + |rounds|
    ensures !Supervise(s, rounds, ignore).stopped
    decreases |rounds|
  {
    if rounds != [] {
      var t := Step(s, rounds[0], ignore);
      assert !ShouldQuitClient(rounds[0].outcome, ignore);
      FailuresBackOff(t, rounds[1..], ignore);
      assert s.backoffs + seq(|rounds|, j => RetryBackoffMs(s.retryCount + j + 1))
          == t.backoffs + seq(|rounds| - 1, j => RetryBackoffMs(t.retryCount + j + 1));
    }
  }

  /** The user closing the console ends the client with exit code 0. */
  lemma UserEofQuits(s: LoopState, r: Round, rest: seq<Round>, ignore: bool)
    requires !s.stopped && r.socketAppeared && r.outcome.disconnectReason == UserEof
    ensures Supervise(s, [r] + rest, ignore).stopped
    ensures ExitCode(Supervise(s, [r] + rest, ignore).exitReason) == 0
  {
    assert ([r] + rest)[1..] == rest;
  }

  /** An unrecoverable handshake failure ends the client with exit code 1, unless overridden,
    * when the client goes on retrying. */
  lemma UnrecoverableHandshakeQuits(s: LoopState, r: Round, rest: seq<Round>, ignore: bool)
    requires !s.stopped && r.socketAppeared && r.outcome.disconnectReason == UnrecoverableHandshakeFailure
    ensures !ignore ==> Supervise(s, [r] + rest, ignore).stopped
                        && ExitCode(Supervise(s, [r] + rest, ignore).exitReason) == 1
    ensures ignore ==> Step(s, r, ignore).exitReason == s.exitReason
                       && (Step(s, r, ignore).stopped <==> !r.backoffCompleted)
  {
    assert ([r] + rest)[1..] == rest;
  }

  // ---------------------------------------------------------------------------
  // The client
  // ---------------------------------------------------------------------------

  /** The client's state shared with its interrupt handler. */
  class EndermuxClient {
    var shutdownRequested: bool
    var exitReason: Option<ExitReason>
    /** The active session, if any, by whether it is connected. */
    var activeSession: Option<bool>

    constructor ()
      ensures !shutdownRequested && exitReason.None? && activeSession.None?
    {
      shutdownRequested := false;
      exitReason := None;
      activeSession := None;
    }

    /** The interrupt handler: with no connected session, record the interrupt and request
      * shutdown; with one, leave it to the session. */
    method OnInterrupt()
      modifies this
      ensures activeSession == old(activeSession)
      ensures old(activeSession) == Some(true) ==> shutdownRequested == old(shutdownRequested) && exitReason == old(exitReason)
      ensures old(activeSession) != Some(true) ==> shutdownRequested && exitReason == Some(UserInterruptWhileWaiting)
    {
      if activeSession.None? || !activeSession.value {
        exitReason := Some(UserInterruptWhileWaiting);
        shutdownRequested := true;
      }
    }

    /** run over the rounds the watcher and the sessions report: the loop of `Supervise` from
      * the starting state, unless shutdown was already requested, then the exit code. */
    method Run(rounds: seq<Round>, ignoreUnrecoverableHandshake: bool) returns (code: int, final: LoopState)
      modifies this
      ensures old(shutdownRequested) ==> final == Start.(exitReason := old(exitReason), stopped := true)
      ensures !old(shutdownRequested) ==> final == Supervise(Start.(exitReason := old(exitReason)), rounds, ignoreUnrecoverableHandshake)
      ensures exitReason == final.exitReason && code == ExitCode(exitReason)
      ensures shutdownRequested == old(shutdownRequested) && activeSession == old(activeSession)
    {
      var state := Start.(exitReason := exitReason, stopped := shutdownRequested);
      var i := 0;
      ghost var total := Supervise(Start.(exitReason := exitReason), rounds, ignoreUnrecoverableHandshake);
      while !state.stopped && i < |rounds|
        invariant 0 <= i <= |rounds|
        invariant shutdownRequested == old(shutdownRequested) && activeSession == old(activeSession)
        invariant old(shutdownRequested) ==> state == Start.(exitReason := old(exitReason), stopped := true)
        invariant !old(shutdownRequested) ==> Supervise(state, rounds[i..], ignoreUnrecoverableHandshake) == total
        decreases |rounds| - i
      {
        SuperviseUnfold(state, rounds[i..], ignoreUnrecoverableHandshake);
        assert rounds[i..][1..] == rounds[i + 1..];
        state := Step(state, rounds[i], ignoreUnrecoverableHandshake);
        i := i + 1;
      }
      exitReason := state.exitReason;
      final := state;
      code := ExitCode(exitReason);
    }
  }
}
