/**
 * The enhanced dryer's retry loop. Each attempt picks an engine and a
 * prompt variation by the attempt number modulo 3 and parameters by the
 * engine name, sends one request, and on failure sleeps: an extra
 * 3 * retryDelay after a 429, then retryDelay * (i + 1) unless it was the
 * last attempt. The endpoint is an oracle from (attempt, request) to an
 * outcome, and `time.sleep` is recorded as the list of delays it was given.
 */
module EnhancedDryer {
  import opened Wrappers
  import opened Imaging
  import opened Prompts
  import opened Remote

  /** `max_retries` and `retry_delay` (seconds) of a dryer instance. */
  datatype Settings = Settings(maxRetries: nat, retryDelay: nat)

  /** The values the constructor sets. */
  const Defaults := Settings(3, 2)

  /** The remote endpoint: what attempt `i` gets back for its request. */
  type Endpoint = (nat, Request) -> Outcome

  /**
   * What a call did: the image it returned (None for Python's None), the
   * requests it sent in order, and the delays it slept, in order.
   */
  datatype Run = Run(result: Option<Image>, requests: seq<Request>, sleeps: seq<nat>)

  /** The request attempt `i` sends for the preprocessed image `pre`. */
  function Plan(pre: Image, i: nat): Request
  {
    var engine := Engines[i % |Engines|];
    Request(engine, Variations()[i % |Variations()|], ParamsFor(engine), pre)
  }

  function OutcomeAt(pre: Image, remote: Endpoint, i: nat): Outcome
  {
    remote(i, Plan(pre, i))
  }

  predicate SucceedsAt(pre: Image, remote: Endpoint, i: nat)
  {
    Classify(OutcomeAt(pre, remote, i)) == Succeeded
  }

  /** The standard delay after failed attempt `i`: it grows linearly. */
  function StandardDelay(retryDelay: nat, i: nat): nat
  {
    retryDelay * (i + 1)
  }

  /** The delays slept after attempt `i` failed with outcome `o`. */
  function AfterFailure(s: Settings, i: nat, o: Outcome): seq<nat>
  {
    (if Classify(o) == RateLimited then [s.retryDelay * 3] else [])
    + (if i < s.maxRetries - 1 then [StandardDelay(s.retryDelay, i)] else [])
  }

  /** Reference definition of the loop from attempt `i` on. */
  function Attempts(s: Settings, pre: Image, remote: Endpoint, i: nat): Run
    decreases s.maxRetries - i
  {
    if i >= s.maxRetries then Run(None, [], [])
    else
      var req := Plan(pre, i);
      var o := remote(i, req);
      if Classify(o) == Succeeded then Run(o.artifact, [req], [])
      else
        var rest := Attempts(s, pre, remote, i + 1);
        Run(rest.result, [req] + rest.requests, AfterFailure(s, i, o) + rest.sleeps)
  }

  /** `process_image`: no key means no attempt; otherwise preprocess once and loop. */
  function Dry(s: Settings, apiKey: Option<string>, image: Image, remote: Endpoint): Run
  {
    if !HasKey(apiKey) then Run(None, [], [])
    else Attempts(s, Preprocess(image), remote, 0)
  }

  /** The requests of attempts `i` .. `i + n - 1`. */
  function PlansFrom(pre: Image, i: nat, n: nat): seq<Request>
  {
    seq(n, j requires 0 <= j < n => Plan(pre, i + j))
  }

  /** All delays slept after the failed attempts `i` .. `k - 1`. */
  function Backoff(s: Settings, pre: Image, remote: Endpoint, i: nat, k: nat): seq<nat>
    decreases k - i
  {
    if i >= k then []
    else AfterFailure(s, i, OutcomeAt(pre, remote, i)) + Backoff(s, pre, remote, i + 1, k)
  }

  /** One failed attempt followed by the rest of the loop. */
  lemma AttemptsStep(s: Settings, pre: Image, remote: Endpoint, i: nat)
    requires i < s.maxRetries && !SucceedsAt(pre, remote, i)
    ensures Attempts(s, pre, remote, i).result == Attempts(s, pre, remote, i + 1).result
    ensures Attempts(s, pre, remote, i).requests == [Plan(pre, i)] + Attempts(s, pre, remote, i + 1).requests
    ensures Attempts(s, pre, remote, i).sleeps
            == AfterFailure(s, i, OutcomeAt(pre, remote, i)) + Attempts(s, pre, remote, i + 1).sleeps
  {
  }

  /** The sleeps of one failed attempt, in the order the source makes them. */
  method SleepsAfterFailure(s: Settings, retry: nat, o: Outcome) returns (delays: seq<nat>)
    ensures |delays| == (if Classify(o) == RateLimited then 1 else 0) + (if retry + 1 < s.maxRetries then 1 else 0)
    ensures Classify(o) == RateLimited ==> delays[0] == 3 * s.retryDelay
    ensures retry + 1 < s.maxRetries ==> delays[|delays| - 1] == s.retryDelay * (retry + 1)
    ensures delays == AfterFailure(s, retry, o)
  {
    delays := [];
    if Classify(o) == RateLimited {
      delays := delays + [s.retryDelay * 3];
    }
    if retry < s.maxRetries - 1 {
      delays := delays + [StandardDelay(s.retryDelay, retry)];
    }
  }

  /**
   * Loop invariant: the attempts made so far, followed by the reference
   * run of the remaining ones, are the reference run from attempt 0.
   */
  ghost predicate SoFar(s: Settings, pre: Image, remote: Endpoint, i: nat, requests: seq<Request>, sleeps: seq<nat>)
  {
    var rest := Attempts(s, pre, remote, i);
    var all := Attempts(s, pre, remote, 0);
    && requests + rest.requests == all.requests
    && sleeps + rest.sleeps == all.sleeps
    && rest.result == all.result
  }

  lemma SoFarStep(s: Settings, pre: Image, remote: Endpoint, i: nat, requests: seq<Request>, sleeps: seq<nat>)
    requires i < s.maxRetries && !SucceedsAt(pre, remote, i)
    requires SoFar(s, pre, remote, i, requests, sleeps)
    ensures SoFar(s, pre, remote, i + 1, requests + [Plan(pre, i)],
                  sleeps + AfterFailure(s, i, OutcomeAt(pre, remote, i)))
  {
    AttemptsStep(s, pre, remote, i);
    var rest := Attempts(s, pre, remote, i + 1);
    assert requests + [Plan(pre, i)] + rest.requests == requests + ([Plan(pre, i)] + rest.requests);
    var a := AfterFailure(s, i, OutcomeAt(pre, remote, i));
    assert sleeps + a + rest.sleeps == sleeps + (a + rest.sleeps);
  }

  /**
   * The imperative loop of `process_image`. The image is preprocessed once,
   * before the loop, and every request carries that one preprocessed image.
   */
  method ProcessImage(s: Settings, apiKey: Option<string>, image: Image, remote: Endpoint)
    returns (run: Run)
    ensures run == Dry(s, apiKey, image, remote)
    ensures !HasKey(apiKey) ==> run == Run(None, [], [])
    ensures forall k :: 0 <= k < |run.requests| ==> run.requests[k].initImage == Preprocess(image)
  {
    if !HasKey(apiKey) {
      return Run(None, [], []);
    }
    var pre := Preprocess(image);
    var requests: seq<Request> := [];
    var sleeps: seq<nat> := [];
    var retry: nat := 0;
    while retry < s.maxRetries
      invariant retry <= s.maxRetries
      invariant SoFar(s, pre, remote, retry, requests, sleeps)
      invariant forall k :: 0 <= k < |requests| ==> requests[k].initImage == pre
      decreases s.maxRetries - retry
    {
      // engine, prompt variation and parameters for this attempt
      var req := Plan(pre, retry);
      var o := remote(retry, req);
      var kind := Classify(o);
      if kind == Succeeded {
        return Run(o.artifact, requests + [req], sleeps);
      }
      // the rate-limit wait and the standard backoff
      var delays := SleepsAfterFailure(s, retry, o);
      SoFarStep(s, pre, remote, retry, requests, sleeps);
      sleeps := sleeps + delays;
      requests := requests + [req];
      retry := retry + 1;
    }
    return Run(None, requests, sleeps);
  }

  /** Attempt `i + k` of a run sends the planned request; there are at most `maxRetries - i`. */
  lemma {:induction false} AttemptsRequests(s: Settings, pre: Image, remote: Endpoint, i: nat)
    requires i <= s.maxRetries
    ensures |Attempts(s, pre, remote, i).requests| <= s.maxRetries - i
    ensures forall k :: 0 <= k < |Attempts(s, pre, remote, i).requests| ==>
              Attempts(s, pre, remote, i).requests[k] == Plan(pre, i + k)
    decreases s.maxRetries - i
  {
    if i < s.maxRetries && !SucceedsAt(pre, remote, i) {
      AttemptsRequests(s, pre, remote, i + 1);
      AttemptsStep(s, pre, remote, i);
    }
  }

  /**
   * When attempts `i` .. `k - 1` fail and attempt `k` succeeds, the run
   * returns attempt `k`'s image, after exactly those requests and their sleeps.
   */
  lemma {:induction false} FirstSuccessFrom(s: Settings, pre: Image, remote: Endpoint, i: nat, k: nat)
    requires i <= k < s.maxRetries
    requires forall j :: i <= j < k ==> !SucceedsAt(pre, remote, j)
    requires SucceedsAt(pre, remote, k)
    ensures Attempts(s, pre, remote, i).result == OutcomeAt(pre, remote, k).artifact
    ensures Attempts(s, pre, remote, i).requests == PlansFrom(pre, i, k - i + 1)
    ensures Attempts(s, pre, remote, i).sleeps == Backoff(s, pre, remote, i, k)
    decreases k - i
  {
    if i < k {
      assert !SucceedsAt(pre, remote, i);
      FirstSuccessFrom(s, pre, remote, i + 1, k);
      AttemptsStep(s, pre, remote, i);
      PlansFromCons(pre, i, k - i + 1);
      assert Backoff(s, pre, remote, i, k)
             == AfterFailure(s, i, OutcomeAt(pre, remote, i)) + Backoff(s, pre, remote, i + 1, k);
    } else {
      SuccessHere(s, pre, remote, i);
      assert PlansFrom(pre, i, 1) == [Plan(pre, i)];
    }
  }

  /** A successful attempt ends the run with its own request only. */
  lemma SuccessHere(s: Settings, pre: Image, remote: Endpoint, i: nat)
    requires i < s.maxRetries && SucceedsAt(pre, remote, i)
    ensures Attempts(s, pre, remote, i) == Run(OutcomeAt(pre, remote, i).artifact, [Plan(pre, i)], [])
  {
  }

  /** When attempts `i` .. `maxRetries - 1` all fail, the run returns None after all of them. */
  lemma {:induction false} ExhaustedFrom(s: Settings, pre: Image, remote: Endpoint, i: nat)
    requires i <= s.maxRetries
    requires forall j :: i <= j < s.maxRetries ==> !SucceedsAt(pre, remote, j)
    ensures Attempts(s, pre, remote, i).result == None
    ensures Attempts(s, pre, remote, i).requests == PlansFrom(pre, i, s.maxRetries - i)
    ensures Attempts(s, pre, remote, i).sleeps == Backoff(s, pre, remote, i, s.maxRetries)
    decreases s.maxRetries - i
  {
    if i < s.maxRetries {
      assert !SucceedsAt(pre, remote, i);
      ExhaustedFrom(s, pre, remote, i + 1);
      AttemptsStep(s, pre, remote, i);
      PlansFromCons(pre, i, s.maxRetries - i);
      assert Backoff(s, pre, remote, i, s.maxRetries)
             == AfterFailure(s, i, OutcomeAt(pre, remote, i)) + Backoff(s, pre, remote, i + 1, s.maxRetries);
    } else {
      assert PlansFrom(pre, i, 0) == [];
    }
  }

  lemma PlansFromCons(pre: Image, i: nat, n: nat)
    requires n > 0
    ensures PlansFrom(pre, i, n) == [Plan(pre, i)] + PlansFrom(pre, i + 1, n - 1)
  {
    var a, b := PlansFrom(pre, i, n), [Plan(pre, i)] + PlansFrom(pre, i + 1, n - 1);
    assert |a| == |b|;
    forall j | 0 <= j < n ensures a[j] == b[j] {
      if j > 0 {
        assert b[j] == PlansFrom(pre, i + 1, n - 1)[j - 1];
      }
    }
  }

  /**
   * With a key, the first 200 response whose artifact decodes ends the
   * call: its image is returned, no later attempt is made and no sleep
   * follows it.
   */
  lemma FirstSuccessReturnsAtOnce(s: Settings, apiKey: Option<string>, image: Image, remote: Endpoint, k: nat)
    requires HasKey(apiKey) && k < s.maxRetries
    requires forall j :: 0 <= j < k ==> !SucceedsAt(Preprocess(image), remote, j)
    requires SucceedsAt(Preprocess(image), remote, k)
    ensures Dry(s, apiKey, image, remote).result == OutcomeAt(Preprocess(image), remote, k).artifact
    ensures Dry(s, apiKey, image, remote).result.Some?
    ensures Dry(s, apiKey, image, remote).requests == PlansFrom(Preprocess(image), 0, k + 1)
    ensures Dry(s, apiKey, image, remote).sleeps == Backoff(s, Preprocess(image), remote, 0, k)
  {
    FirstSuccessFrom(s, Preprocess(image), remote, 0, k);
  }

  /** With a key and no successful attempt, the call returns None after exactly `maxRetries` attempts. */
  lemma ExhaustedAfterMaxRetries(s: Settings, apiKey: Option<string>, image: Image, remote: Endpoint)
    requires HasKey(apiKey)
    requires forall j :: 0 <= j < s.maxRetries ==> !SucceedsAt(Preprocess(image), remote, j)
    ensures Dry(s, apiKey, image, remote).result == None
    ensures Dry(s, apiKey, image, remote).requests == PlansFrom(Preprocess(image), 0, s.maxRetries)
    ensures Dry(s, apiKey, image, remote).sleeps == Backoff(s, Preprocess(image), remote, 0, s.maxRetries)
  {
    ExhaustedFrom(s, Preprocess(image), remote, 0);
  }

  /**
   * An image comes back exactly when a key is set and some attempt
   * succeeds, and it is the artifact of the first attempt that does.
   */
  lemma ResultIffSomeAttemptSucceeds(s: Settings, apiKey: Option<string>, image: Image, remote: Endpoint)
    ensures Dry(s, apiKey, image, remote).result.Some?
            <==> HasKey(apiKey) && exists j :: 0 <= j < s.maxRetries && SucceedsAt(Preprocess(image), remote, j)
    ensures Dry(s, apiKey, image, remote).result.Some? ==>
              exists k :: 0 <= k < s.maxRetries && SucceedsAt(Preprocess(image), remote, k)
                          && (forall j :: 0 <= j < k ==> !SucceedsAt(Preprocess(image), remote, j))
                          && Dry(s, apiKey, image, remote).result == OutcomeAt(Preprocess(image), remote, k).artifact
  {
    var pre := Preprocess(image);
    if HasKey(apiKey) {
      if k :| 0 <= k < s.maxRetries && SucceedsAt(pre, remote, k) {
        var first := FirstIndex(pre, remote, k);
        FirstSuccessReturnsAtOnce(s, apiKey, image, remote, first);
        assert Dry(s, apiKey, image, remote).result == OutcomeAt(pre, remote, first).artifact;
      } else {
        ExhaustedAfterMaxRetries(s, apiKey, image, remote);
      }
    }
  }

  /** The least successful attempt index, given that attempt `k` succeeds. */
  function FirstIndex(pre: Image, remote: Endpoint, k: nat): (f: nat)
    requires SucceedsAt(pre, remote, k)
    ensures f <= k && SucceedsAt(pre, remote, f)
    ensures forall j :: 0 <= j < f ==> !SucceedsAt(pre, remote, j)
    decreases k
  {
    if k == 0 then 0
    else if exists j :: 0 <= j < k && SucceedsAt(pre, remote, j) then
      var j :| 0 <= j < k && SucceedsAt(pre, remote, j);
      FirstIndex(pre, remote, j)
    else k
  }

  /** `n` standard delays, for the failed attempts `i` .. `i + n - 1`. */
  function LinearDelays(d: nat, i: nat, n: nat): (r: seq<nat>)
    ensures |r| == n
    ensures forall j :: 0 <= j < n ==> r[j] == d * (i + j + 1)
    decreases n
  {
    if n == 0 then [] else [StandardDelay(d, i)] + LinearDelays(d, i + 1, n - 1)
  }

  /**
   * Without a 429, each attempt that fails before the last one is
   * followed by exactly one sleep, retryDelay * (attempt + 1).
   */
  lemma {:induction false} StandardBackoffBefore(s: Settings, pre: Image, remote: Endpoint, i: nat, k: nat)
    requires i <= k < s.maxRetries
    requires forall j :: i <= j < k ==> Classify(OutcomeAt(pre, remote, j)) != RateLimited
    ensures Backoff(s, pre, remote, i, k) == LinearDelays(s.retryDelay, i, k - i)
    decreases k - i
  {
    if i < k {
      StandardBackoffBefore(s, pre, remote, i + 1, k);
    } else {
      assert LinearDelays(s.retryDelay, i, 0) == [];
    }
  }

  /** Without a 429, exhausting the attempts sleeps after every attempt but the last. */
  lemma {:induction false} StandardBackoffToEnd(s: Settings, pre: Image, remote: Endpoint, i: nat)
    requires i < s.maxRetries
    requires forall j :: i <= j < s.maxRetries ==> Classify(OutcomeAt(pre, remote, j)) != RateLimited
    ensures Backoff(s, pre, remote, i, s.maxRetries) == LinearDelays(s.retryDelay, i, s.maxRetries - 1 - i)
    decreases s.maxRetries - i
  {
    if i + 1 < s.maxRetries {
      StandardBackoffToEnd(s, pre, remote, i + 1);
    } else {
      assert Backoff(s, pre, remote, i + 1, s.maxRetries) == [];
      assert LinearDelays(s.retryDelay, i, 0) == [];
    }
  }

  /**
   * When every attempt from `i` on is rate limited, the sleeps alternate:
   * 3 * retryDelay after each attempt (the last one included), each but
   * the last followed by the standard delay.
   */
  lemma {:induction false} RateLimitedBackoff(s: Settings, pre: Image, remote: Endpoint, i: nat)
    requires i < s.maxRetries
    requires forall j :: i <= j < s.maxRetries ==> Classify(OutcomeAt(pre, remote, j)) == RateLimited
    ensures |Backoff(s, pre, remote, i, s.maxRetries)| == 2 * (s.maxRetries - i) - 1
    ensures forall k :: 0 <= k < |Backoff(s, pre, remote, i, s.maxRetries)| ==>
              Backoff(s, pre, remote, i, s.maxRetries)[k]
              == (if k % 2 == 0 then 3 * s.retryDelay else StandardDelay(s.retryDelay, i + k / 2))
    decreases s.maxRetries - i
  {
    var b := Backoff(s, pre, remote, i, s.maxRetries);
    if i + 1 < s.maxRetries {
      RateLimitedBackoff(s, pre, remote, i + 1);
      var rest := Backoff(s, pre, remote, i + 1, s.maxRetries);
      assert b == [s.retryDelay * 3, StandardDelay(s.retryDelay, i)] + rest;
      forall k | 2 <= k < |b|
        ensures b[k] == (if k % 2 == 0 then 3 * s.retryDelay else StandardDelay(s.retryDelay, i + k / 2))
      {
        assert b[k] == rest[k - 2];
        assert (k - 2) % 2 == k % 2 && (k - 2) / 2 == k / 2 - 1;
      }
    } else {
      assert Backoff(s, pre, remote, i + 1, s.maxRetries) == [];
      assert b == [s.retryDelay * 3];
    }
  }

  /**
   * Two server errors, then success, with the default settings: the third
   * image is returned after three requests and the sleeps 2 and 4 seconds,
   * with no rate-limit wait.
   */
  lemma TwoServerErrorsThenSuccess(apiKey: Option<string>, image: Image, remote: Endpoint)
    requires HasKey(apiKey)
    requires Classify(OutcomeAt(Preprocess(image), remote, 0)) == ServerError
    requires Classify(OutcomeAt(Preprocess(image), remote, 1)) == ServerError
    requires Classify(OutcomeAt(Preprocess(image), remote, 2)) == Succeeded
    ensures Dry(Defaults, apiKey, image, remote).result == OutcomeAt(Preprocess(image), remote, 2).artifact
    ensures |Dry(Defaults, apiKey, image, remote).requests| == 3
    ensures Dry(Defaults, apiKey, image, remote).sleeps == [2, 4]
  {
    var pre := Preprocess(image);
    FirstSuccessReturnsAtOnce(Defaults, apiKey, image, remote, 2);
    StandardBackoffBefore(Defaults, pre, remote, 0, 2);
  }

  /** Success on the first attempt: that image, one request, no sleep. */
  lemma ImmediateSuccess(s: Settings, apiKey: Option<string>, image: Image, remote: Endpoint)
    requires HasKey(apiKey) && 0 < s.maxRetries
    requires SucceedsAt(Preprocess(image), remote, 0)
    ensures Dry(s, apiKey, image, remote)
            == Run(OutcomeAt(Preprocess(image), remote, 0).artifact, [Plan(Preprocess(image), 0)], [])
  {
  }

  /**
   * Always rate limited: `maxRetries` requests, None, and the sleeps
   * 3 * retryDelay after every attempt, the standard delay between them.
   */
  lemma AlwaysRateLimited(s: Settings, apiKey: Option<string>, image: Image, remote: Endpoint)
    requires HasKey(apiKey) && 0 < s.maxRetries
    requires forall j :: 0 <= j < s.maxRetries ==> Classify(OutcomeAt(Preprocess(image), remote, j)) == RateLimited
    ensures Dry(s, apiKey, image, remote).result == None
    ensures |Dry(s, apiKey, image, remote).requests| == s.maxRetries
    ensures |Dry(s, apiKey, image, remote).sleeps| == 2 * s.maxRetries - 1
    ensures forall k :: 0 <= k < |Dry(s, apiKey, image, remote).sleeps| ==>
              Dry(s, apiKey, image, remote).sleeps[k]
              == (if k % 2 == 0 then 3 * s.retryDelay else s.retryDelay * (k / 2 + 1))
  {
    ExhaustedAfterMaxRetries(s, apiKey, image, remote);
    RateLimitedBackoff(s, Preprocess(image), remote, 0);
  }

  /**
   * Every failure but a 429, with any settings: `maxRetries` requests and
   * the sleeps retryDelay * 1, ..., retryDelay * (maxRetries - 1).
   */
  lemma NeverRateLimitedExhaustion(s: Settings, apiKey: Option<string>, image: Image, remote: Endpoint)
    requires HasKey(apiKey) && 0 < s.maxRetries
    requires forall j :: 0 <= j < s.maxRetries ==>
               Classify(OutcomeAt(Preprocess(image), remote, j)) !in {Succeeded, RateLimited}
    ensures Dry(s, apiKey, image, remote).result == None
    ensures |Dry(s, apiKey, image, remote).requests| == s.maxRetries
    ensures Dry(s, apiKey, image, remote).sleeps == LinearDelays(s.retryDelay, 0, s.maxRetries - 1)
  {
    ExhaustedAfterMaxRetries(s, apiKey, image, remote);
    StandardBackoffToEnd(s, Preprocess(image), remote, 0);
  }

  /** Attempt `i` uses engine and prompt `i mod 3`; the plan repeats every three attempts. */
  lemma PlanRotation(pre: Image, i: nat)
    ensures Plan(pre, i).engine == Engines[i % 3]
    ensures Plan(pre, i).prompts == Variations()[i % 3]
    ensures Plan(pre, i + 3) == Plan(pre, i)
  {
  }

  /**
   * With the default three retries and no success, each engine is tried
   * exactly once, in list order, with prompt variation 0, 1, 2 and the XL
   * parameters only for the first.
   */
  lemma EachEngineOnceInOrder(apiKey: Option<string>, image: Image, remote: Endpoint)
    requires HasKey(apiKey)
    requires forall j :: 0 <= j < 3 ==> !SucceedsAt(Preprocess(image), remote, j)
    ensures |Dry(Defaults, apiKey, image, remote).requests| == 3
    ensures forall j :: 0 <= j < 3 ==>
              Dry(Defaults, apiKey, image, remote).requests[j].engine == Engines[j]
              && Dry(Defaults, apiKey, image, remote).requests[j].prompts == Variations()[j]
    ensures Dry(Defaults, apiKey, image, remote).requests[0].params == XlParams
    ensures Dry(Defaults, apiKey, image, remote).requests[1].params == BaseParams
    ensures Dry(Defaults, apiKey, image, remote).requests[2].params == BaseParams
  {
    ExhaustedAfterMaxRetries(Defaults, apiKey, image, remote);
    EngineParams();
  }
}
