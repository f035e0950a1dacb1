/**
 * `ContributorsAPI.fetchWithRetry`: up to `retries` requests to one
 * endpoint, returning the first successful response, waiting
 * 2^i * 1000 ms after a failed attempt i unless it was the last one, and
 * rethrowing the last attempt's error.
 *
 * The network is a script: `attempts[i]` is what request number i would
 * produce. The waits are recorded instead of slept.
 */
module ContributorRetry {
  import opened Wrappers
  import opened ContributorMerge

  /** What one `fetch` produces: a transport error, or a response with its status and parsed body. */
  datatype Attempt =
    | TransportError
    | Response(status: int, body: Option<seq<GitHubContributor>>)

  /** `response.ok`: a status in the range 200-299. */
  predicate IsOk(a: Attempt)
  {
    a.Response? && 200 <= a.status <= 299
  }

  /** How a retrieval ends: with a response, by rethrowing a failed attempt, or with the final `throw`. */
  datatype Retrieved =
    | Succeeded(response: Attempt)
    | Rethrown(failure: Attempt)
    | AllRetryAttemptsFailed

  /** The attempts made, the waits between them in milliseconds, and the ending. */
  datatype RetryOutcome = RetryOutcome(used: nat, delays: seq<nat>, result: Retrieved)

  const DefaultRetries: int := 3

  function Pow2(n: nat): (r: nat)
    ensures r >= 1
  {
    if n == 0 then 1 else 2 * Pow2(n - 1)
  }

  /** `Math.pow(2, i) * 1000`. */
  function Backoff(i: nat): nat
  {
    Pow2(i) * 1000
  }

  /** The waits after failed attempts 0 .. n-1. */
  function BackoffDelays(n: nat): seq<nat>
  {
    seq(n, i requires 0 <= i < n => Backoff(i))
  }

  /** The index of the first successful attempt in `s`, or `|s|` if there is none. */
  function FirstOk(s: seq<Attempt>): (k: nat)
    ensures k <= |s|
    ensures k < |s| ==> IsOk(s[k])
    ensures forall j :: 0 <= j < k ==> !IsOk(s[j])
  {
    if s == [] then 0 else if IsOk(s[0]) then 0 else 1 + FirstOk(s[1..])
  }

  /**
   * The retrieval the loop performs: the first successful attempt among the
   * first `retries`, after one wait per earlier failure; otherwise the last
   * attempt's failure after `retries - 1` waits; no attempt at all when
   * `retries <= 0`.
   */
  function Retrieval(attempts: seq<Attempt>, retries: int): RetryOutcome
    requires retries <= |attempts|
  {
    if retries <= 0 then RetryOutcome(0, [], AllRetryAttemptsFailed)
    else
      var k := FirstOk(attempts[..retries]);
      if k < retries then RetryOutcome(k + 1, BackoffDelays(k), Succeeded(attempts[k]))
      else RetryOutcome(retries, BackoffDelays(retries - 1), Rethrown(attempts[retries - 1]))
  }

  /** `fetchWithRetry(url, retries)` with the network replaced by `attempts`. */
  method FetchWithRetry(attempts: seq<Attempt>, retries: int) returns (r: RetryOutcome)
    requires retries <= |attempts|
    ensures r == Retrieval(attempts, retries)
  {
    var delays: seq<nat> := [];
    var i := 0;
    while i < retries
      invariant 0 <= i
      invariant retries > 0 ==> i < retries
      invariant retries <= 0 ==> i == 0
      invariant forall j :: 0 <= j < i ==> !IsOk(attempts[j])
      invariant delays == BackoffDelays(i)
    {
      var response := attempts[i];
      if IsOk(response) {
        assert FirstOk(attempts[..retries]) == i by {
          FirstOkAt(attempts[..retries], i);
        }
        return RetryOutcome(i + 1, delays, Succeeded(response));
      }
      if i == retries - 1 {
        assert FirstOk(attempts[..retries]) == retries by {
          FirstOkNone(attempts[..retries]);
        }
        return RetryOutcome(i + 1, delays, Rethrown(response));
      }
      delays := delays + [Backoff(i)];
      i := i + 1;
    }
    r := RetryOutcome(0, [], AllRetryAttemptsFailed);
  }

  /** The first success is the one at `i` when everything before `i` failed. */
  lemma {:induction false} FirstOkAt(s: seq<Attempt>, i: nat)
    requires i < |s| && IsOk(s[i])
    requires forall j :: 0 <= j < i ==> !IsOk(s[j])
    ensures FirstOk(s) == i
  {
    if i > 0 {
      FirstOkAt(s[1..], i - 1);
    }
  }

  lemma {:induction false} FirstOkNone(s: seq<Attempt>)
    requires forall j :: 0 <= j < |s| ==> !IsOk(s[j])
    ensures FirstOk(s) == |s|
  {
    if s != [] {
      FirstOkNone(s[1..]);
    }
  }

  /* ---------------------------------------------------------------- */
  /* Properties of the retry schedule                                 */
  /* ---------------------------------------------------------------- */

  /**
   * At most `retries` attempts; a success is the first OK response and
   * every earlier attempt failed; a failure means all `retries` attempts
   * failed and the last one is rethrown.
   */
  lemma RetrievalOutcome(attempts: seq<Attempt>, retries: int)
    requires retries <= |attempts|
    ensures var r := Retrieval(attempts, retries);
            && r.used <= (if retries > 0 then retries else 0)
            && (forall j :: 0 <= j < r.used - 1 ==> !IsOk(attempts[j]))
            && (r.result.Succeeded? <==> exists j :: 0 <= j < retries && IsOk(attempts[j]))
            && (r.result.Succeeded? ==> r.used >= 1 && r.result.response == attempts[r.used - 1] && IsOk(r.result.response))
            && (r.result.Rethrown? ==> r.used == retries && r.result.failure == attempts[retries - 1] && !IsOk(r.result.failure))
            && (r.result.AllRetryAttemptsFailed? <==> retries <= 0)
  {
    if retries > 0 {
      var k := FirstOk(attempts[..retries]);
      if k == retries {
        assert forall j :: 0 <= j < retries ==> !IsOk(attempts[..retries][j]);
      }
    }
  }

  /** One wait between consecutive attempts and none after the last: `used - 1` waits, growing 2^i * 1000. */
  lemma RetrievalDelays(attempts: seq<Attempt>, retries: int)
    requires retries <= |attempts|
    ensures var r := Retrieval(attempts, retries);
            && |r.delays| == (if r.used == 0 then 0 else r.used - 1)
            && forall i :: 0 <= i < |r.delays| ==> r.delays[i] == Pow2(i) * 1000
  {
  }

  /** With the default of 3 attempts the only waits are 1000 ms and then 2000 ms. */
  lemma DefaultRetryDelays(attempts: seq<Attempt>)
    requires DefaultRetries <= |attempts|
    ensures Retrieval(attempts, DefaultRetries).delays <= [1000, 2000]
    ensures Retrieval(attempts, DefaultRetries).used >= 1
  {
    assert Pow2(0) == 1 && Pow2(1) == 2;
    var k := FirstOk(attempts[..DefaultRetries]);
    assert BackoffDelays(2) == [1000, 2000];
    if k == 0 {
      assert BackoffDelays(0) == [];
    } else if k == 1 {
      assert BackoffDelays(1) == [1000];
    }
  }
}
