/**
  UdpMessageSender.cs: one request datagram, one reply datagram, retried on
  socket failures with exponential backoff. The network is an oracle: each
  attempt's outcome is drawn from a script, and every datagram sent is logged.
*/
module Transport {
  import opened Base
  import opened Text

  const MaxRetries: nat := 3
  const InitialBackoffMs: nat := 100
  const TimeoutMs: nat := 1000

  /** What one send/receive attempt ends with. */
  datatype Attempt =
    | Received(text: string)   // the first datagram that arrives, decoded as ASCII
    | ReceiveTimeout           // CancelAfter(TimeoutMs) fired while the caller's token was not cancelled
    | SocketError              // any other failure of SendAsync or ReceiveAsync
    | CallerCancelled          // the caller's own token was cancelled

  /** The outcome of attempt k of the script; a silent wire times out. */
  function OutcomeAt(outcomes: seq<Attempt>, k: nat): Attempt
  {
    if k < |outcomes| then outcomes[k] else ReceiveTimeout
  }

  function Drop<T>(s: seq<T>, n: nat): (r: seq<T>)
    ensures |r| == if n <= |s| then |s| - n else 0
  {
    if n <= |s| then s[n..] else []
  }

  function Pow2(k: nat): (p: nat)
    ensures p >= 1
  {
    if k == 0 then 1 else 2 * Pow2(k - 1)
  }

  /** The delay after a failed attempt k: InitialBackoffMs * 2^k. */
  function Backoff(k: nat): nat
  {
    InitialBackoffMs * Pow2(k)
  }

  /** The delays waited after attempts a, a+1, ..., k-1. */
  function BackoffsBetween(a: nat, k: nat): (r: seq<int>)
    requires a <= k
    ensures |r| == k - a && forall i :: 0 <= i < k - a ==> r[i] == Backoff(a + i)
  {
    seq(k - a, (i: int) requires 0 <= i => Backoff(a + i))
  }

  /** One call's result, how many datagrams it sent and the delays it waited. */
  datatype Exchange = Exchange(result: Result<string>, attempts: nat, delays: seq<int>)

  /** The attempt loop of SendMessageAndReceiveResponseAsync, from attempt `attempt` on. */
  function ExchangeFrom(outcomes: seq<Attempt>, attempt: nat): Exchange
    requires attempt < MaxRetries
    decreases MaxRetries - attempt
  {
    match OutcomeAt(outcomes, attempt)
    case Received(t) => Exchange(Ok(t), attempt + 1, [])
    case ReceiveTimeout => Exchange(Err(Timeout), attempt + 1, [])
    case CallerCancelled => Exchange(Err(Cancelled), attempt + 1, [])
    case SocketError =>
      if attempt == MaxRetries - 1 then Exchange(Err(SocketFailure), attempt + 1, [])
      else
        var rest := ExchangeFrom(outcomes, attempt + 1);
        Exchange(rest.result, rest.attempts, [Backoff(attempt)] + rest.delays)
  }

  /** An attempt that ends the call: everything but a socket error. */
  predicate Settles(a: Attempt) { !a.SocketError? }

  /** The result a settling attempt gives: the reply itself, or the exception it raises. */
  function Settled(a: Attempt): Result<string>
    requires Settles(a)
  {
    match a
    case Received(t) => Ok(t)
    case ReceiveTimeout => Err(Timeout)
    case CallerCancelled => Err(Cancelled)
  }

  /**
    Reference reading of the loop: the call ends at the first attempt that does
    not fail with a socket error, after waiting 100 ms, 200 ms, ... before each
    later attempt.
  */
  lemma {:induction false} ExchangeSettlesAtFirst(outcomes: seq<Attempt>, a: nat, k: nat)
    requires a <= k < MaxRetries
    requires Settles(OutcomeAt(outcomes, k))
    requires forall j :: a <= j < k ==> OutcomeAt(outcomes, j) == SocketError
    ensures ExchangeFrom(outcomes, a) == Exchange(Settled(OutcomeAt(outcomes, k)), k + 1, BackoffsBetween(a, k))
    decreases k - a
  {
    if a < k {
      ExchangeSettlesAtFirst(outcomes, a + 1, k);
      var rest := ExchangeFrom(outcomes, a + 1);
      assert [Backoff(a)] + BackoffsBetween(a + 1, k) == BackoffsBetween(a, k);
    }
  }

  /** Three socket errors: the third is rethrown after waiting 100 ms and 200 ms. */
  lemma {:induction false} ExchangeExhausted(outcomes: seq<Attempt>, a: nat)
    requires a < MaxRetries
    requires forall j :: a <= j < MaxRetries ==> OutcomeAt(outcomes, j) == SocketError
    ensures ExchangeFrom(outcomes, a) == Exchange(Err(SocketFailure), MaxRetries, BackoffsBetween(a, MaxRetries - 1))
    decreases MaxRetries - a
  {
    if a < MaxRetries - 1 {
      ExchangeExhausted(outcomes, a + 1);
      assert [Backoff(a)] + BackoffsBetween(a + 1, MaxRetries - 1) == BackoffsBetween(a, MaxRetries - 1);
    }
  }

  /**
    At most MaxRetries datagrams per call, one delay between consecutive
    attempts, increasing delays, and never the trailing "Max retries reached".
  */
  lemma {:induction false} ExchangeBounds(outcomes: seq<Attempt>, a: nat)
    requires a < MaxRetries
    ensures var x := ExchangeFrom(outcomes, a);
      a < x.attempts <= MaxRetries && |x.delays| == x.attempts - 1 - a &&
      (forall i :: 0 <= i < |x.delays| ==> x.delays[i] == Backoff(a + i)) &&
      (x.result.Err? ==> x.result.error == Timeout || x.result.error == Cancelled || x.result.error == SocketFailure)
    decreases MaxRetries - a
  {
    if OutcomeAt(outcomes, a) == SocketError && a < MaxRetries - 1 {
      ExchangeBounds(outcomes, a + 1);
    }
  }

  /** A timeout ends the call at once: one datagram, no delay, TimeoutException. */
  lemma TimeoutNotRetried(outcomes: seq<Attempt>)
    requires OutcomeAt(outcomes, 0) == ReceiveTimeout
    ensures ExchangeFrom(outcomes, 0) == Exchange(Err(Timeout), 1, [])
  {
  }

  /** Two socket errors then a reply: the reply, after three datagrams and delays 100 < 200. */
  lemma ThirdAttemptSucceeds(outcomes: seq<Attempt>, t: string)
    requires OutcomeAt(outcomes, 0) == SocketError && OutcomeAt(outcomes, 1) == SocketError
    requires OutcomeAt(outcomes, 2) == Received(t)
    ensures ExchangeFrom(outcomes, 0) == Exchange(Ok(t), 3, [100, 200])
  {
    ExchangeSettlesAtFirst(outcomes, 0, 2);
    assert BackoffsBetween(0, 2) == [100, 200];
  }

  /** The network oracle: scripted attempt outcomes and the log of datagrams sent. */
  class Network {
    var outcomes: seq<Attempt>
    var datagrams: seq<string>

    constructor (outcomes: seq<Attempt>)
      ensures this.outcomes == outcomes && datagrams == []
    {
      this.outcomes := outcomes;
      datagrams := [];
    }

    /** Sends one datagram and waits for the scripted outcome of this attempt. */
    method Transmit(message: string) returns (a: Attempt)
      modifies this
      ensures a == OutcomeAt(old(outcomes), 0)
      ensures outcomes == Drop(old(outcomes), 1)
      ensures datagrams == old(datagrams) + [message]
    {
      a := OutcomeAt(outcomes, 0);
      outcomes := Drop(outcomes, 1);
      datagrams := datagrams + [message];
    }
  }

  lemma DropOutcome(outcomes: seq<Attempt>, k: nat)
    ensures OutcomeAt(Drop(outcomes, k), 0) == OutcomeAt(outcomes, k)
    ensures Drop(Drop(outcomes, k), 1) == Drop(outcomes, k + 1)
  {
  }

  /** The call as a whole is what is left from attempt k on, after the delays of the attempts before it. */
  ghost predicate ResumesAt(outcomes: seq<Attempt>, k: nat)
    requires k < MaxRetries
  {
    var x := ExchangeFrom(outcomes, k);
    ExchangeFrom(outcomes, 0) == Exchange(x.result, x.attempts, BackoffsBetween(0, k) + x.delays)
  }

  /** A socket error before the last attempt hands the call on to the next attempt. */
  lemma ResumeAfterSocketError(outcomes: seq<Attempt>, k: nat)
    requires k < MaxRetries - 1 && OutcomeAt(outcomes, k) == SocketError
    requires ResumesAt(outcomes, k)
    ensures ResumesAt(outcomes, k + 1)
  {
    var y := ExchangeFrom(outcomes, k + 1);
    assert ExchangeFrom(outcomes, k) == Exchange(y.result, y.attempts, [Backoff(k)] + y.delays);
    assert BackoffsBetween(0, k) + ([Backoff(k)] + y.delays) == BackoffsBetween(0, k + 1) + y.delays by {
      assert BackoffsBetween(0, k) + [Backoff(k)] == BackoffsBetween(0, k + 1);
    }
  }

  /** Any other outcome of attempt k ends the call there. */
  lemma ResumeEnds(outcomes: seq<Attempt>, k: nat)
    requires k < MaxRetries && ResumesAt(outcomes, k)
    requires !(OutcomeAt(outcomes, k).SocketError? && k < MaxRetries - 1)
    ensures var x := ExchangeFrom(outcomes, 0);
      x.attempts == k + 1 && x.delays == BackoffsBetween(0, k) &&
      x.result == match OutcomeAt(outcomes, k)
        case Received(t) => Ok(t)
        case ReceiveTimeout => Err(Timeout)
        case CallerCancelled => Err(Cancelled)
        case SocketError => Err(SocketFailure)
  {
    assert BackoffsBetween(0, k) + [] == BackoffsBetween(0, k);
  }

  /** Regex.IsMatch(response, pattern) for the literal patterns the relay managers pass. */
  predicate Matches(response: string, pattern: string)
  {
    Contains(response, pattern)
  }

  class UdpMessageSender {
    const network: Network
    ghost var delays: seq<int>

    constructor (network: Network)
      ensures this.network == network && delays == []
    {
      this.network := network;
      delays := [];
    }

    /** SendMessageAndReceiveResponseAsync: the attempt loop. */
    method SendMessageAndReceiveResponse(message: string) returns (r: Result<string>)
      modifies this, network
      ensures var x := ExchangeFrom(old(network.outcomes), 0);
        r == x.result &&
        network.outcomes == Drop(old(network.outcomes), x.attempts) &&
        network.datagrams == old(network.datagrams) + Repeat(message, x.attempts) &&
        delays == old(delays) + x.delays
    {
      ghost var script := network.outcomes;
      var attempt: nat := 0;
      while attempt < MaxRetries
        invariant attempt < MaxRetries
        invariant network.outcomes == Drop(script, attempt)
        invariant network.datagrams == old(network.datagrams) + Repeat(message, attempt)
        invariant delays == old(delays) + BackoffsBetween(0, attempt)
        invariant ResumesAt(script, attempt)
        decreases MaxRetries - attempt
      {
        DropOutcome(script, attempt);
        var outcome := network.Transmit(message);
        assert Repeat(message, attempt) + [message] == Repeat(message, attempt + 1);
        if outcome.SocketError? && attempt < MaxRetries - 1 {
          ResumeAfterSocketError(script, attempt);
          delays := delays + [Backoff(attempt)];
          assert BackoffsBetween(0, attempt) + [Backoff(attempt)] == BackoffsBetween(0, attempt + 1);
          attempt := attempt + 1;
        } else {
          ResumeEnds(script, attempt);
          match outcome
          case Received(response) =>
            return Ok(response);
          case ReceiveTimeout =>
            return Err(Timeout);
          case CallerCancelled =>
            return Err(Cancelled);
          case SocketError =>
            return Err(SocketFailure);
        }
      }
      r := Err(InvalidOperation("Max retries reached"));
    }

    /** SendCommandAndValidateResponseAsync: whether the reply matches the expected pattern. */
    method SendCommandAndValidateResponse(command: string, expectedResponsePattern: string) returns (r: Result<bool>)
      modifies this, network
      ensures var x := ExchangeFrom(old(network.outcomes), 0);
        r == (match x.result
              case Ok(t) => Ok(Matches(t, expectedResponsePattern))
              case Err(e) => Err(e)) &&
        network.outcomes == Drop(old(network.outcomes), x.attempts) &&
        network.datagrams == old(network.datagrams) + Repeat(command, x.attempts) &&
        delays == old(delays) + x.delays
    {
      var response := SendMessageAndReceiveResponse(command);
      match response
      case Ok(t) => r := Ok(Matches(t, expectedResponsePattern));
      case Err(e) => r := Err(e);
    }
  }
}
