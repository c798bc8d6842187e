/** The OpenAI key rotation of main.py: `switch_openai_key`, the quota guard of
    `get_openai_score` and the retry loop of `retry_request`. The requests themselves are
    not modelled: what the request made with key `k` during attempt `a` gives is an input,
    `call(a, k)`. */
module Keys {
  import opened Wrappers
  import opened Text

  /** An `OpenAIError`: its text, `str(e)`, and its HTTP status. */
  datatype ApiError = ApiError(message: String, status: nat)

  /** What one chat-completion request gives: the reply's content, or an error. */
  datatype ApiResult = Content(text: String) | Failure(error: ApiError)

  /** How a call ends: it returns a value (None included), raises the `OpenAIError`, or
      raises `Exception("Max retries exceeded")`. */
  datatype Answer = Returned(reply: Option<String>) | Raised(error: ApiError) | MaxRetries

  /** The error says the key has no quota left. */
  predicate IsQuota(e: ApiError) {
    Contains(e.message, "insufficient_quota") || Contains(e.message, "billing_hard_limit_reached")
  }

  /** The HTTP status of a rate-limited request. */
  const RateLimited: nat := 429

  /** `(current_key_index + 1) % len(openai_api_keys)`: the next key, in range, and the
      first key again only after the last. */
  function NextIndex(index: nat, count: nat): (r: nat)
    requires count >= 1
    ensures r < count
    ensures index < count - 1 ==> r == index + 1
    ensures index == count - 1 ==> r == 0
  {
    NextIndexInRange(index, count);
    (index + 1) % count
  }

  lemma NextIndexInRange(index: nat, count: nat)
    requires count >= 1
    ensures (index + 1) % count < count
    ensures index < count - 1 ==> (index + 1) % count == index + 1
    ensures index == count - 1 ==> (index + 1) % count == 0
  {
    if index == count - 1 {
      assert index + 1 == count;
    }
  }

  // ---------------------------------------------------------------------------
  // the two functions as written
  //
  // The test for a quota error is a parameter, `quota`: what is proved below holds for
  // any such test, and the key ring passes `IsQuota`.

  /** `get_openai_score` entered with key `index` during attempt `attempt`, with `count`
      keys: the answer and the key index it leaves behind. A quota error moves to the next
      key and tries again, unless the key is the last one, when the error is raised; any
      other error is printed and None returned. */
  function ScoreCall(quota: ApiError -> bool, call: (nat, nat) -> ApiResult, attempt: nat, count: nat, index: nat): (r: (Answer, nat))
    requires index < count
    ensures index <= r.1 < count
    decreases count - index
  {
    match call(attempt, index)
    case Content(t) => (Returned(Some(t)), index)
    case Failure(e) =>
      if quota(e) then
        if index < count - 1 then ScoreCall(quota, call, attempt, count, index + 1) else (Raised(e), index)
      else (Returned(None), index)
  }

  /** `retry_request` from attempt `attempt` of `maxRetries`: the first answer that is
      not a raised error ends it; a raised rate-limit error waits and tries again, a raised
      quota error moves to the next key and tries again, unless the key is the last one;
      any other error is raised. */
  function Retry(quota: ApiError -> bool, call: (nat, nat) -> ApiResult, count: nat, index: nat, attempt: nat, maxRetries: nat): (r: (Answer, nat))
    requires index < count
    ensures index <= r.1 < count
    decreases maxRetries - attempt, 1
  {
    if attempt >= maxRetries then (MaxRetries, index)
    else Handle(quota, call, count, attempt, maxRetries, ScoreCall(quota, call, attempt, count, index))
  }

  /** What `retry_request` does with what attempt `attempt` gave, `r`: the answer and
      the key index it was given with. */
  function Handle(quota: ApiError -> bool, call: (nat, nat) -> ApiResult, count: nat, attempt: nat, maxRetries: nat, r: (Answer, nat)): (h: (Answer, nat))
    requires r.1 < count && attempt < maxRetries
    ensures r.1 <= h.1 < count
    decreases maxRetries - attempt, 0
  {
    var (a, i) := r;
    if !a.Raised? then r
    else if a.error.status == RateLimited then Retry(quota, call, count, i, attempt + 1, maxRetries)
    else if quota(a.error) then
      if i < count - 1 then Retry(quota, call, count, i + 1, attempt + 1, maxRetries) else r
    else r
  }

  /** The request failed because its key has no quota left. */
  predicate QuotaFailure(quota: ApiError -> bool, res: ApiResult) {
    res.Failure? && quota(res.error)
  }

  /** How `get_openai_score` answers the request it stops at: its content, the raised
      quota error, or None for any other error. */
  function Verdict(quota: ApiError -> bool, res: ApiResult): Answer {
    match res
    case Content(t) => Returned(Some(t))
    case Failure(e) => if quota(e) then Raised(e) else Returned(None)
  }

  /** `get_openai_score` stops at the first key from `index` on whose request does not
      fail for quota, or at the last key, and answers as that request says: every key it
      passes over had run out of quota, so the index only grows and never wraps round,
      and a quota error is raised only for the last key. */
  lemma {:induction false} ScoreCallKeys(quota: ApiError -> bool, call: (nat, nat) -> ApiResult, attempt: nat, count: nat, index: nat)
    requires index < count
    ensures var r := ScoreCall(quota, call, attempt, count, index);
      && r.0 == Verdict(quota, call(attempt, r.1))
      && (r.1 < count - 1 ==> !QuotaFailure(quota, call(attempt, r.1)))
      && (forall k :: index <= k < r.1 ==> QuotaFailure(quota, call(attempt, k)))
    decreases count - index
  {
    if QuotaFailure(quota, call(attempt, index)) && index < count - 1 {
      ScoreCallKeys(quota, call, attempt, count, index + 1);
    }
  }

  /** Along `retry_request` too the key index only grows and never wraps round to the
      first key; the error it raises is a quota error of the last key that is not a
      rate-limit error; and it gives up only when its last attempt hit a rate-limited
      quota error of the last key. */
  lemma {:induction false} RetryKeys(quota: ApiError -> bool, call: (nat, nat) -> ApiResult, count: nat, index: nat, attempt: nat, maxRetries: nat)
    requires index < count
    ensures index <= Retry(quota, call, count, index, attempt, maxRetries).1 < count
    ensures Retry(quota, call, count, index, attempt, maxRetries).0.Raised? ==>
      && Retry(quota, call, count, index, attempt, maxRetries).1 == count - 1
      && quota(Retry(quota, call, count, index, attempt, maxRetries).0.error)
      && Retry(quota, call, count, index, attempt, maxRetries).0.error.status != RateLimited
    ensures Retry(quota, call, count, index, attempt, maxRetries).0 == MaxRetries && attempt < maxRetries ==>
      && Retry(quota, call, count, index, attempt, maxRetries).1 == count - 1
      && call(maxRetries - 1, count - 1).Failure?
      && quota(call(maxRetries - 1, count - 1).error)
      && call(maxRetries - 1, count - 1).error.status == RateLimited
    decreases maxRetries - attempt
  {
    if attempt < maxRetries {
      var (a, i) := ScoreCall(quota, call, attempt, count, index);
      ScoreCallKeys(quota, call, attempt, count, index);
      if a.Raised? {
        if a.error.status == RateLimited {
          RetryKeys(quota, call, count, i, attempt + 1, maxRetries);
        }
      }
    }
  }

  /** The key switch in `retry_request` is never taken: `get_openai_score` raises a
      quota error only once it is at the last key. */
  lemma {:induction false} RetryNeverSwitches(quota: ApiError -> bool, call: (nat, nat) -> ApiResult, count: nat, index: nat, attempt: nat)
    requires index < count
    ensures ScoreCall(quota, call, attempt, count, index).0.Raised? && quota(ScoreCall(quota, call, attempt, count, index).0.error) ==>
      !(ScoreCall(quota, call, attempt, count, index).1 < count - 1)
  {
    ScoreCallKeys(quota, call, attempt, count, index);
  }

  // ---------------------------------------------------------------------------
  // rate limits are not retried

  /** A request that fails with any error other than a quota error, a rate-limit error
      included, ends `retry_request` at once with None: `get_openai_score` catches it
      before the wait-and-retry branch can see it. */
  lemma {:induction false} RateLimitNotRetried(quota: ApiError -> bool, call: (nat, nat) -> ApiResult, count: nat, index: nat, attempt: nat, maxRetries: nat)
    requires index < count && attempt < maxRetries
    requires call(attempt, index).Failure? && !quota(call(attempt, index).error)
    ensures Retry(quota, call, count, index, attempt, maxRetries) == (Returned(None), index)
  {
  }

  /** The requests of the example: rate-limited at the first attempt, answered at the
      second. */
  function RateLimitedOnce(a: nat, k: nat): ApiResult {
    if a == 0 then Failure(ApiError("rate limit", RateLimited)) else Content("1. 5")
  }

  /** With two keys and ten attempts, a request rate-limited once and answered on the
      next attempt makes `retry_request` return None. */
  lemma RateLimitedOnceGivesNone()
    ensures Retry(IsQuota, RateLimitedOnce, 2, 0, 0, 10) == (Returned(None), 0)
  {
    assert !IsQuota(ApiError("rate limit", RateLimited));
    RateLimitNotRetried(IsQuota, RateLimitedOnce, 2, 0, 0, 10);
  }

  // ---------------------------------------------------------------------------
  // the evident intent: a rate-limit error reaches the retry loop

  /** `get_openai_score` with a rate-limit error that is not a quota error raised
      instead of swallowed. */
  function ScoreCallFixed(quota: ApiError -> bool, call: (nat, nat) -> ApiResult, attempt: nat, count: nat, index: nat): (r: (Answer, nat))
    requires index < count
    ensures index <= r.1 < count
    decreases count - index
  {
    match call(attempt, index)
    case Content(t) => (Returned(Some(t)), index)
    case Failure(e) =>
      if quota(e) then
        if index < count - 1 then ScoreCallFixed(quota, call, attempt, count, index + 1) else (Raised(e), index)
      else if e.status == RateLimited then (Raised(e), index)
      else (Returned(None), index)
  }

  /** `retry_request` over the corrected `get_openai_score`. */
  function RetryFixed(quota: ApiError -> bool, call: (nat, nat) -> ApiResult, count: nat, index: nat, attempt: nat, maxRetries: nat): (r: (Answer, nat))
    requires index < count
    ensures index <= r.1 < count
    decreases maxRetries - attempt, 1
  {
    if attempt >= maxRetries then (MaxRetries, index)
    else HandleFixed(quota, call, count, attempt, maxRetries, ScoreCallFixed(quota, call, attempt, count, index))
  }

  /** What `retry_request` does with what attempt `attempt` gave, `r`: the answer and
      the key index it was given with. */
  function HandleFixed(quota: ApiError -> bool, call: (nat, nat) -> ApiResult, count: nat, attempt: nat, maxRetries: nat, r: (Answer, nat)): (h: (Answer, nat))
    requires r.1 < count && attempt < maxRetries
    ensures r.1 <= h.1 < count
    decreases maxRetries - attempt, 0
  {
    var (a, i) := r;
    if !a.Raised? then r
    else if a.error.status == RateLimited then RetryFixed(quota, call, count, i, attempt + 1, maxRetries)
    else if quota(a.error) then
      if i < count - 1 then RetryFixed(quota, call, count, i + 1, attempt + 1, maxRetries) else r
    else r
  }

  /** The corrected `get_openai_score` still passes over only keys without quota, and
      what it raises is the error of the request it stopped at: a quota error only for
      the last key, and otherwise a rate-limit error. */
  lemma {:induction false} ScoreCallFixedKeys(quota: ApiError -> bool, call: (nat, nat) -> ApiResult, attempt: nat, count: nat, index: nat)
    requires index < count
    ensures var r := ScoreCallFixed(quota, call, attempt, count, index);
      && !r.0.MaxRetries?
      && (r.0.Raised? ==> call(attempt, r.1) == Failure(r.0.error))
      && (r.0.Raised? && quota(r.0.error) ==> r.1 == count - 1)
      && (r.0.Raised? && !quota(r.0.error) ==> r.0.error.status == RateLimited)
      && (forall k :: index <= k < r.1 ==> QuotaFailure(quota, call(attempt, k)))
    decreases count - index
  {
    if QuotaFailure(quota, call(attempt, index)) && index < count - 1 {
      ScoreCallFixedKeys(quota, call, attempt, count, index + 1);
    }
  }

  /** Along the corrected `retry_request` the key index only grows and stays in range;
      the error it raises is a quota error of the last key that is not a rate-limit
      error; and it gives up only when its last attempt was rate-limited. */
  lemma {:induction false} RetryFixedKeys(quota: ApiError -> bool, call: (nat, nat) -> ApiResult, count: nat, index: nat, attempt: nat, maxRetries: nat)
    requires index < count
    ensures index <= RetryFixed(quota, call, count, index, attempt, maxRetries).1 < count
    ensures RetryFixed(quota, call, count, index, attempt, maxRetries).0.Raised? ==>
      && RetryFixed(quota, call, count, index, attempt, maxRetries).1 == count - 1
      && quota(RetryFixed(quota, call, count, index, attempt, maxRetries).0.error)
      && RetryFixed(quota, call, count, index, attempt, maxRetries).0.error.status != RateLimited
    ensures RetryFixed(quota, call, count, index, attempt, maxRetries).0 == MaxRetries && attempt < maxRetries ==>
      && call(maxRetries - 1, RetryFixed(quota, call, count, index, attempt, maxRetries).1).Failure?
      && call(maxRetries - 1, RetryFixed(quota, call, count, index, attempt, maxRetries).1).error.status == RateLimited
    decreases maxRetries - attempt
  {
    if attempt < maxRetries {
      var (a, i) := ScoreCallFixed(quota, call, attempt, count, index);
      ScoreCallFixedKeys(quota, call, attempt, count, index);
      if a.Raised? {
        if a.error.status == RateLimited {
          RetryFixedKeys(quota, call, count, i, attempt + 1, maxRetries);
        }
      }
    }
  }

  /** One attempt of the corrected loop: what `get_openai_score` gives, handed on. */
  lemma RetryFixedAttempt(quota: ApiError -> bool, call: (nat, nat) -> ApiResult, count: nat, index: nat, attempt: nat, maxRetries: nat)
    requires index < count && attempt < maxRetries
    ensures RetryFixed(quota, call, count, index, attempt, maxRetries)
      == HandleFixed(quota, call, count, attempt, maxRetries, ScoreCallFixed(quota, call, attempt, count, index))
  {
  }

  /** After a raised error the corrected loop goes on with the next attempt: with the same
      key after a rate limit, with the next key after a quota error of a key that is not
      the last. */
  lemma HandleFixedRetries(quota: ApiError -> bool, call: (nat, nat) -> ApiResult, count: nat, attempt: nat, maxRetries: nat, r: (Answer, nat))
    requires r.1 < count && attempt < maxRetries && r.0.Raised?
    ensures r.0.error.status == RateLimited ==>
      HandleFixed(quota, call, count, attempt, maxRetries, r) == RetryFixed(quota, call, count, r.1, attempt + 1, maxRetries)
    ensures r.0.error.status != RateLimited && quota(r.0.error) && r.1 < count - 1 ==>
      HandleFixed(quota, call, count, attempt, maxRetries, r) == RetryFixed(quota, call, count, r.1 + 1, attempt + 1, maxRetries)
    ensures r.0.error.status != RateLimited && !(quota(r.0.error) && r.1 < count - 1) ==>
      HandleFixed(quota, call, count, attempt, maxRetries, r) == r
  {
  }

  /** Rate-limited with key `index` from attempt `attempt` up to, not including, attempt
      `last`, and no quota error among them. */
  ghost predicate RateLimitedUntil(quota: ApiError -> bool, call: (nat, nat) -> ApiResult, index: nat, attempt: nat, last: nat) {
    forall a: nat :: attempt <= a < last ==>
      call(a, index).Failure? && call(a, index).error.status == RateLimited && !quota(call(a, index).error)
  }

  /** Corrected, `retry_request` waits out rate-limit errors: a request rate-limited on
      every attempt before one that succeeds, within `max_retries`, returns that
      attempt's reply, with the same key. */
  lemma {:induction false} RetryFixedWaitsOut(
    quota: ApiError -> bool, call: (nat, nat) -> ApiResult, count: nat, index: nat, attempt: nat, last: nat, maxRetries: nat, t: String)
    requires index < count && attempt <= last < maxRetries
    requires RateLimitedUntil(quota, call, index, attempt, last)
    requires call(last, index) == Content(t)
    ensures RetryFixed(quota, call, count, index, attempt, maxRetries) == (Returned(Some(t)), index)
    decreases last - attempt
  {
    if attempt < last {
      assert call(attempt, index).Failure?;
      RetryFixedWaitsOut(quota, call, count, index, attempt + 1, last, maxRetries, t);
    }
  }

  /** The corrected loop returns the reply of the example's second attempt. */
  lemma RateLimitedOnceFixed()
    ensures RetryFixed(IsQuota, RateLimitedOnce, 2, 0, 0, 10) == (Returned(Some("1. 5")), 0)
  {
    assert !IsQuota(ApiError("rate limit", RateLimited));
    RetryFixedWaitsOut(IsQuota, RateLimitedOnce, 2, 0, 0, 1, 10, "1. 5");
  }

  /** The correction changes nothing for a request that does not fail with a
      rate-limit error. */
  lemma {:induction false} ScoreCallFixedAgrees(quota: ApiError -> bool, call: (nat, nat) -> ApiResult, attempt: nat, count: nat, index: nat)
    requires index < count
    requires forall k :: index <= k < count && call(attempt, k).Failure? ==>
      call(attempt, k).error.status != RateLimited || quota(call(attempt, k).error)
    ensures ScoreCallFixed(quota, call, attempt, count, index) == ScoreCall(quota, call, attempt, count, index)
    decreases count - index
  {
    if call(attempt, index).Failure? && quota(call(attempt, index).error) && index < count - 1 {
      ScoreCallFixedAgrees(quota, call, attempt, count, index + 1);
    }
  }

  // ---------------------------------------------------------------------------
  // the global key state

  /** `openai_api_keys`, `current_key_index` and the key `openai_client` was built
      with. */
  class KeyRing {
    var keys: seq<Option<String>>
    var index: nat
    var clientKey: Option<String>

    /** The index names one of the keys, and the client uses that key. */
    ghost predicate Valid()
      reads this
    {
      |keys| >= 1 && index < |keys| && clientKey == keys[index]
    }

    /** The module's start: the first key in use. */
    constructor (keys: seq<Option<String>>)
      requires |keys| >= 1
      ensures Valid() && this.keys == keys && index == 0
    {
      this.keys := keys;
      index := 0;
      clientKey := keys[0];
    }

    /** `switch_openai_key`: the next key, modulo the number of keys, and a client
        built with it. */
    method SwitchKey()
      requires Valid()
      modifies this
      ensures Valid() && keys == old(keys)
      ensures index == NextIndex(old(index), |keys|)
    {
      index := (index + 1) % |keys|;
      clientKey := keys[index];
    }

    /** `get_openai_score` during attempt `attempt`, corrected: a rate-limit error that
        is not a quota error is raised to the caller instead of being swallowed. */
    method GetOpenAIScore(call: (nat, nat) -> ApiResult, attempt: nat) returns (answer: Answer)
      requires Valid()
      modifies this
      ensures Valid() && keys == old(keys)
      ensures (answer, index) == ScoreCallFixed(IsQuota, call, attempt, |keys|, old(index))
      decreases |keys| - index
    {
      match call(attempt, index) {
        case Content(t) =>
          answer := Returned(Some(t));
        case Failure(e) =>
          if IsQuota(e) {
            if index < |keys| - 1 {
              SwitchKey();
              answer := GetOpenAIScore(call, attempt);
            } else {
              answer := Raised(e);
            }
          } else if e.status == RateLimited {
            answer := Raised(e);
          } else {
            answer := Returned(None);
          }
      }
    }

    /** `retry_request` with `max_retries` attempts, over the corrected
        `get_openai_score`: rate-limit errors are waited out. */
    method RetryRequest(call: (nat, nat) -> ApiResult, maxRetries: nat) returns (answer: Answer)
      requires Valid()
      modifies this
      ensures Valid() && keys == old(keys)
      ensures (answer, index) == RetryFixed(IsQuota, call, |keys|, old(index), 0, maxRetries)
    {
      var attempt := 0;
      ghost var goal := RetryFixed(IsQuota, call, |keys|, index, 0, maxRetries);
      while attempt < maxRetries
        invariant Valid() && keys == old(keys) && attempt <= maxRetries
        invariant RetryFixed(IsQuota, call, |keys|, index, attempt, maxRetries) == goal
        decreases maxRetries - attempt
      {
        var again;
        answer, again := Attempt(call, attempt, maxRetries);
        if !again {
          return;
        }
        attempt := attempt + 1;
      }
      answer := MaxRetries;
    }

    /** One pass of the `for attempt in range(max_retries)` loop: the answer that ends
        the loop, or `again` after waiting out a rate limit or switching to the next key. */
    method Attempt(call: (nat, nat) -> ApiResult, attempt: nat, maxRetries: nat) returns (answer: Answer, again: bool)
      requires Valid() && attempt < maxRetries
      modifies this
      ensures Valid() && keys == old(keys)
      ensures again ==>
        RetryFixed(IsQuota, call, |keys|, old(index), attempt, maxRetries) == RetryFixed(IsQuota, call, |keys|, index, attempt + 1, maxRetries)
      ensures !again ==> RetryFixed(IsQuota, call, |keys|, old(index), attempt, maxRetries) == (answer, index)
    {
      ghost var before := index;
      answer := GetOpenAIScore(call, attempt);
      RetryFixedAttempt(IsQuota, call, |keys|, before, attempt, maxRetries);
      again := false;
      if !answer.Raised? {
        return;
      }
      HandleFixedRetries(IsQuota, call, |keys|, attempt, maxRetries, (answer, index));
      if answer.error.status == RateLimited {
        // wait `retry_delay` seconds and try again with the same key
        again := true;
      } else if IsQuota(answer.error) && index < |keys| - 1 {
        SwitchKey();
        again := true;
      }
    }
  }
}
