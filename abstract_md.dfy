/** The stage that turns a list of article URLs into one Markdown digest
    (`1_url_to_abstract_md.py`): a two-window rate limiter shared by the
    workers, a worker that asks a chat-completion bot for the Markdown of
    one URL with up to ten attempts, and the batch loop that merges what the
    workers return back into input order. */
module AbstractMd {
  import opened Common
  import opened Text
  import opened RateWindow
  import opened Aggregate

  /** The periods of the two windows, in milliseconds. */
  const SecondPeriod := 1000
  const MinutePeriod := 60000

  /** The defaults of the module level `rate_limiter`. */
  const DefaultMaxPerSecond := 1
  const DefaultMaxPerMinute := 60

  /** What one `acquire` that starts at clock reading `now` does to the two
      windows, and the clock reading when it returns. The per-minute window
      is refreshed with the same `now` but its sleep starts after the
      per-second window's sleep. */
  function AcquireStep(second: Window, minute: Window, maxPerSecond: int, maxPerMinute: int, now: int)
    : (Window, Window, int)
  {
    var (s, t) := Pass(second, maxPerSecond, SecondPeriod, now, now);
    var (m, t') := Pass(minute, maxPerMinute, MinutePeriod, now, t);
    (s, m, t')
  }

  /** Whatever the windows held before, with caps of at least one neither
      count exceeds its cap after an `acquire`. */
  lemma AcquireWithinCaps(second: Window, minute: Window, maxPerSecond: int, maxPerMinute: int, now: int)
    requires maxPerSecond >= 1 && maxPerMinute >= 1
    ensures var (s, m, _) := AcquireStep(second, minute, maxPerSecond, maxPerMinute, now);
      s.count <= maxPerSecond && m.count <= maxPerMinute
  {
    var (s, t) := Pass(second, maxPerSecond, SecondPeriod, now, now);
    PassWithinCap(second, maxPerSecond, SecondPeriod, now, now);
    PassWithinCap(minute, maxPerMinute, MinutePeriod, now, t);
  }

  /** An `acquire` never rejects: it returns after some wait that is never
      negative, and when neither window started after `now` the wait is at
      most one second plus one minute. */
  lemma AcquireBoundedWait(second: Window, minute: Window, maxPerSecond: int, maxPerMinute: int, now: int)
    ensures var (_, _, after) := AcquireStep(second, minute, maxPerSecond, maxPerMinute, now);
      now <= after
      && (second.start <= now && minute.start <= now ==> after <= now + SecondPeriod + MinutePeriod)
  {
    var (s, t) := Pass(second, maxPerSecond, SecondPeriod, now, now);
    PassAdmitsOne(second, maxPerSecond, SecondPeriod, now, now);
    PassAdmitsOne(minute, maxPerMinute, MinutePeriod, now, t);
  }

  /** Each window of an `acquire`, case by case: one whose period has run
      out restarts at `now` and counts this request; one with room counts
      one more; a full one is not left before its period has run out, and
      restarts at that moment or later, counting this request. */
  lemma AcquireCases(second: Window, minute: Window, maxPerSecond: int, maxPerMinute: int, now: int)
    requires maxPerSecond >= 1 && maxPerMinute >= 1
    ensures var (s, m, after) := AcquireStep(second, minute, maxPerSecond, maxPerMinute, now);
      (now - second.start >= SecondPeriod ==> s == Window(1, now))
      && (now - second.start < SecondPeriod && second.count < maxPerSecond ==> s == Window(second.count + 1, second.start))
      && (now - second.start < SecondPeriod && second.count >= maxPerSecond ==>
            s.count == 1 && second.start + SecondPeriod <= s.start <= after)
      && (now - minute.start >= MinutePeriod ==> m == Window(1, now))
      && (now - minute.start < MinutePeriod && minute.count < maxPerMinute ==> m == Window(minute.count + 1, minute.start))
      && (now - minute.start < MinutePeriod && minute.count >= maxPerMinute ==>
            m == Window(1, after) && minute.start + MinutePeriod <= after)
  {
    var (s, t) := Pass(second, maxPerSecond, SecondPeriod, now, now);
    PassCases(second, maxPerSecond, SecondPeriod, now, now);
    PassAdmitsOne(second, maxPerSecond, SecondPeriod, now, now);
    PassCases(minute, maxPerMinute, MinutePeriod, now, t);
    PassAdmitsOne(minute, maxPerMinute, MinutePeriod, now, t);
  }

  /** `RateLimiter`: two fixed windows, one per second and one per minute.
      `admissions` counts the calls of `Acquire` and `slept` the total time
      they spent sleeping; neither is in the source. */
  class RateLimiter {
    const maxPerSecond: int
    const maxPerMinute: int
    var secondCount: int
    var minuteCount: int
    var lastResetSecond: int
    var lastResetMinute: int
    ghost var admissions: nat
    ghost var slept: int

    function SecondWindow(): Window
      reads this
    {
      Window(secondCount, lastResetSecond)
    }

    function MinuteWindow(): Window
      reads this
    {
      Window(minuteCount, lastResetMinute)
    }

    /** `RateLimiter(max_per_second, max_per_minute)` created at clock
        reading `now`. */
    constructor (maxPerSecond: int, maxPerMinute: int, now: int)
      ensures this.maxPerSecond == maxPerSecond && this.maxPerMinute == maxPerMinute
      ensures SecondWindow() == Window(0, now) && MinuteWindow() == Window(0, now)
      ensures admissions == 0
    {
      this.maxPerSecond := maxPerSecond;
      this.maxPerMinute := maxPerMinute;
      secondCount, minuteCount := 0, 0;
      lastResetSecond, lastResetMinute := now, now;
      admissions := 0;
      slept := 0;
    }

    /** `acquire()` called at clock reading `now`; `after` is the reading
        when it returns, after any sleep. */
    method Acquire(now: int) returns (after: int)
      modifies this
      ensures (SecondWindow(), MinuteWindow(), after)
        == AcquireStep(old(SecondWindow()), old(MinuteWindow()), maxPerSecond, maxPerMinute, now)
      ensures admissions == old(admissions) + 1
      ensures slept == old(slept) + (after - now)
      ensures now <= after
      ensures maxPerSecond >= 1 && maxPerMinute >= 1 ==>
        secondCount <= maxPerSecond && minuteCount <= maxPerMinute
    {
      ghost var second, minute := SecondWindow(), MinuteWindow();
      var currentTime := now;
      if currentTime - lastResetSecond >= SecondPeriod {
        secondCount := 0;
        lastResetSecond := currentTime;
      }
      if currentTime - lastResetMinute >= MinutePeriod {
        minuteCount := 0;
        lastResetMinute := currentTime;
      }
      after := currentTime;
      if secondCount >= maxPerSecond {
        var sleepTime := SecondPeriod - (currentTime - lastResetSecond);
        if sleepTime > 0 {
          after := after + sleepTime;
        }
        secondCount := 0;
        lastResetSecond := after;
      }
      if minuteCount >= maxPerMinute {
        var sleepTime := MinutePeriod - (currentTime - lastResetMinute);
        if sleepTime > 0 {
          after := after + sleepTime;
        }
        minuteCount := 0;
        lastResetMinute := after;
      }
      secondCount := secondCount + 1;
      minuteCount := minuteCount + 1;
      admissions := admissions + 1;
      slept := slept + (after - now);
      AcquireBoundedWait(second, minute, maxPerSecond, maxPerMinute, now);
      if maxPerSecond >= 1 && maxPerMinute >= 1 {
        AcquireWithinCaps(second, minute, maxPerSecond, maxPerMinute, now);
      }
    }
  }

  // ---------------------------------------------------------------------
  // Choosing the model

  /** `get_model_id_for_url`: the WeChat model for a WeChat article, else the
      TechCrunch model for a TechCrunch article, else the default. */
  function ModelIdForUrl(url: string, defaultModelId: string, wechatModelId: string, techcrunchModelId: string)
    : (m: string)
    ensures Contains(url, "weixin.qq.com") ==> m == wechatModelId
    ensures !Contains(url, "weixin.qq.com") && Contains(url, "techcrunch.com") ==> m == techcrunchModelId
    ensures !Contains(url, "weixin.qq.com") && !Contains(url, "techcrunch.com") ==> m == defaultModelId
  {
    if Contains(url, "weixin.qq.com") then wechatModelId
    else if Contains(url, "techcrunch.com") then techcrunchModelId
    else defaultModelId
  }

  /** The model `fetch_markdown` uses: the per-site choice only when both
      per-site ids were given, the default otherwise. */
  function SpecificModelId(url: string, modelId: string, wechatModelId: Option<string>, techcrunchModelId: Option<string>)
    : (m: string)
    ensures wechatModelId.None? || techcrunchModelId.None? ==> m == modelId
    ensures wechatModelId.Some? && techcrunchModelId.Some? ==>
      m == ModelIdForUrl(url, modelId, wechatModelId.value, techcrunchModelId.value)
  {
    if wechatModelId.Some? && techcrunchModelId.Some? then
      ModelIdForUrl(url, modelId, wechatModelId.value, techcrunchModelId.value)
    else
      modelId
  }

  // ---------------------------------------------------------------------
  // One worker: `fetch_markdown`

  const MaxRetries := 10

  /** `UNWANTED_TEXT`: markers of a page that is not the article. */
  const Unwanted: seq<string> := ["微信，是一个生活方式", "环境异常"]

  /** The error text returned when every attempt gave unwanted text. */
  const UnwantedExhausted := "包含不需要的文本并达到最大重试次数"

  predicate HasUnwanted(md: string) {
    exists i | 0 <= i < |Unwanted| :: Contains(md, Unwanted[i])
  }

  /** The marker scan of `fetch_markdown`: stops at the first marker found. */
  method FindUnwanted(md: string) returns (found: bool)
    ensures found <==> HasUnwanted(md)
  {
    found := false;
    var i := 0;
    while i < |Unwanted|
      invariant 0 <= i <= |Unwanted|
      invariant !found ==> forall j :: 0 <= j < i ==> !Contains(md, Unwanted[j])
      invariant found ==> HasUnwanted(md)
    {
      if Contains(md, Unwanted[i]) {
        found := true;
        break;
      }
      i := i + 1;
    }
  }

  /** A text that occurs in the cleaned reply occurs in the reply. */
  lemma TrimKeepsNoMarker(md: string)
    requires !HasUnwanted(md)
    ensures !HasUnwanted(TrimBeforeHash(md))
  {
    var r := TrimBeforeHash(md);
    TrimBeforeHashSpec(md);
    forall i | 0 <= i < |Unwanted| ensures !Contains(r, Unwanted[i]) {
      if Contains(r, Unwanted[i]) {
        assert md[|md| - |r|..|md|] == r;
        ContainsSlice(md, Unwanted[i], |md| - |r|, |md|);
      }
    }
  }

  /** The chat-completion call: the reply to `content` sent to `model`, at
      attempt number `attempt` (counted from 0). */
  type Api = (string, string, nat) -> Reply


  /** A reply the worker accepts: text without any unwanted marker. */
  predicate Acceptable(r: Reply) {
    r.Text? && !HasUnwanted(r.content)
  }

  /** The error text of an attempt that ended the worker unsuccessfully. */
  function ExhaustedMessage(r: Reply): string {
    if r.Failure? then r.message else UnwantedExhausted
  }

  /** Every one of the attempts `lo .. hi - 1` was unacceptable. */
  predicate RejectedBetween(api: Api, model: string, url: string, lo: nat, hi: nat)
    decreases hi
  {
    lo < hi ==> RejectedBetween(api, model, url, lo, hi - 1) && !Acceptable(api(model, url, hi - 1))
  }

  /** `RejectedBetween` says of each attempt in the range that it was
      unacceptable, and no more. */
  lemma {:induction false} RejectedMeans(api: Api, model: string, url: string, lo: nat, hi: nat)
    ensures RejectedBetween(api, model, url, lo, hi)
      <==> forall j :: lo <= j < hi ==> !Acceptable(api(model, url, j))
    decreases hi
  {
    if lo < hi {
      RejectedMeans(api, model, url, lo, hi - 1);
    }
  }

  /** A range of rejected attempts extends one attempt to the left. */
  lemma {:induction false} RejectedCons(api: Api, model: string, url: string, lo: nat, hi: nat)
    requires lo < hi
    requires !Acceptable(api(model, url, lo)) && RejectedBetween(api, model, url, lo + 1, hi)
    ensures RejectedBetween(api, model, url, lo, hi)
    decreases hi
  {
    if lo + 1 < hi {
      RejectedCons(api, model, url, lo, hi - 1);
    }
  }

  /** How many of the attempts `lo .. hi - 1` raised. */
  function Failures(api: Api, model: string, url: string, lo: nat, hi: nat): nat
    decreases hi - lo
  {
    if lo >= hi then 0
    else (if api(model, url, lo).Failure? then 1 else 0) + Failures(api, model, url, lo + 1, hi)
  }

  /** A worker run from attempt `k` on: its outcome, the number of calls it
      makes, and the number of one-second pauses it takes. */
  datatype FetchRun = FetchRun(outcome: Outcome, calls: nat, pauses: nat)

  /** `fetch_markdown` from attempt `k` on. At least one and at most the
      remaining number of calls is made, and the outcome echoes the index. */
  function FetchFrom(index: int, api: Api, model: string, url: string, k: nat): (run: FetchRun)
    requires k < MaxRetries
    ensures 1 <= run.calls <= MaxRetries - k
    ensures run.outcome.index == index
    decreases MaxRetries - k
  {
    var reply := api(model, url, k);
    if Acceptable(reply) then
      FetchRun(Outcome(index, Some(TrimBeforeHash(reply.content)), None), 1, 0)
    else if k + 1 < MaxRetries then
      var rest := FetchFrom(index, api, model, url, k + 1);
      FetchRun(rest.outcome, rest.calls + 1, rest.pauses + (if reply.Failure? then 1 else 0))
    else
      FetchRun(Outcome(index, None, Some(ExhaustedMessage(reply))), 1, 0)
  }

  /** The worker stops at the first acceptable reply and returns its
      cleaned text with no error; every earlier attempt was unacceptable. */
  lemma FetchStopsAtFirstAcceptable(index: int, api: Api, model: string, url: string, k: nat)
    requires k < MaxRetries
    ensures var run := FetchFrom(index, api, model, url, k);
      var last := api(model, url, k + run.calls - 1);
      RejectedBetween(api, model, url, k, k + run.calls - 1)
      && (run.outcome.text.Some? <==> Acceptable(last))
      && (run.outcome.text.Some? ==> run.outcome == Outcome(index, Some(TrimBeforeHash(last.content)), None))
  {
    FetchRejectsBeforeLast(index, api, model, url, k);
    FetchTextFromLast(index, api, model, url, k);
  }

  lemma {:induction false} FetchRejectsBeforeLast(index: int, api: Api, model: string, url: string, k: nat)
    requires k < MaxRetries
    ensures var run := FetchFrom(index, api, model, url, k);
      RejectedBetween(api, model, url, k, k + run.calls - 1)
    decreases MaxRetries - k
  {
    var reply := api(model, url, k);
    if !Acceptable(reply) && k + 1 < MaxRetries {
      FetchRejectsBeforeLast(index, api, model, url, k + 1);
      var rest := FetchFrom(index, api, model, url, k + 1);
      var hi := k + 1 + rest.calls - 1;
      assert FetchFrom(index, api, model, url, k).calls == rest.calls + 1;
      RejectedCons(api, model, url, k, hi);
    }
  }

  lemma {:induction false} FetchTextFromLast(index: int, api: Api, model: string, url: string, k: nat)
    requires k < MaxRetries
    ensures var run := FetchFrom(index, api, model, url, k);
      var last := api(model, url, k + run.calls - 1);
      && (run.outcome.text.Some? <==> Acceptable(last))
      && (run.outcome.text.Some? ==> run.outcome == Outcome(index, Some(TrimBeforeHash(last.content)), None))
    decreases MaxRetries - k
  {
    var reply := api(model, url, k);
    if !Acceptable(reply) && k + 1 < MaxRetries {
      FetchTextFromLast(index, api, model, url, k + 1);
      var rest := FetchFrom(index, api, model, url, k + 1);
      var run := FetchFrom(index, api, model, url, k);
      assert run.outcome == rest.outcome && run.calls == rest.calls + 1;
      assert k + run.calls - 1 == (k + 1) + rest.calls - 1;
    }
  }

  /** Without an acceptable reply the worker makes every remaining attempt
      and reports the error text of the last one: the exception text if it
      raised, the fixed unwanted-text message otherwise. */
  lemma {:induction false} FetchExhausted(index: int, api: Api, model: string, url: string, k: nat)
    requires k < MaxRetries
    ensures var run := FetchFrom(index, api, model, url, k);
      run.outcome.text.None? ==>
        k + run.calls == MaxRetries
        && run.outcome.error == Some(ExhaustedMessage(api(model, url, MaxRetries - 1)))
    decreases MaxRetries - k
  {
    if !Acceptable(api(model, url, k)) && k + 1 < MaxRetries {
      FetchExhausted(index, api, model, url, k + 1);
    }
  }

  /** The worker pauses once after every attempt that raised, except the
      last attempt it makes; a rejected text is retried at once. */
  lemma {:induction false} FetchPauses(index: int, api: Api, model: string, url: string, k: nat)
    requires k < MaxRetries
    ensures var run := FetchFrom(index, api, model, url, k);
      run.pauses == Failures(api, model, url, k, k + run.calls - 1)
    decreases MaxRetries - k
  {
    var run := FetchFrom(index, api, model, url, k);
    FetchStep(index, api, model, url, k);
    if run.calls > 1 {
      FetchPauses(index, api, model, url, k + 1);
      var rest := FetchFrom(index, api, model, url, k + 1);
      var hi := k + run.calls - 1;
      assert hi == (k + 1) + rest.calls - 1;
      assert rest.pauses == Failures(api, model, url, k + 1, hi);
      FailuresStep(api, model, url, k, hi);
    }
  }

  /** A run of one call takes no pause; a longer run is one rejected call,
      a pause if it raised, and the run from the next attempt. */
  lemma FetchStep(index: int, api: Api, model: string, url: string, k: nat)
    requires k < MaxRetries
    ensures var run := FetchFrom(index, api, model, url, k);
      run.calls == 1 ==> run.pauses == 0
    ensures var run := FetchFrom(index, api, model, url, k);
      run.calls > 1 ==>
        && k + 1 < MaxRetries
        && run.calls == FetchFrom(index, api, model, url, k + 1).calls + 1
        && run.pauses == FetchFrom(index, api, model, url, k + 1).pauses + (if api(model, url, k).Failure? then 1 else 0)
  {
  }

  lemma FailuresStep(api: Api, model: string, url: string, lo: nat, hi: nat)
    requires lo < hi
    ensures Failures(api, model, url, lo, hi) == (if api(model, url, lo).Failure? then 1 else 0) + Failures(api, model, url, lo + 1, hi)
  {
  }

  /** `fetch_markdown(client, model_id, url, batch_idx, ...)` as a whole. */
  function Fetch(index: int, api: Api, modelId: string, url: string,
                 wechatModelId: Option<string>, techcrunchModelId: Option<string>): FetchRun
  {
    FetchFrom(index, api, SpecificModelId(url, modelId, wechatModelId, techcrunchModelId), url, 0)
  }

  /** No text the worker returns contains an unwanted marker. */
  lemma {:induction false} FetchNeverReturnsUnwanted(index: int, api: Api, model: string, url: string, k: nat)
    requires k < MaxRetries
    ensures var run := FetchFrom(index, api, model, url, k);
      run.outcome.text.Some? ==> !HasUnwanted(run.outcome.text.value)
    decreases MaxRetries - k
  {
    var reply := api(model, url, k);
    if Acceptable(reply) {
      TrimKeepsNoMarker(reply.content);
    } else if k + 1 < MaxRetries {
      FetchNeverReturnsUnwanted(index, api, model, url, k + 1);
    }
  }

  /** A text is returned exactly when some attempt among the ten was
      acceptable. */
  lemma FetchSucceedsIffSomeAcceptable(index: int, api: Api, model: string, url: string)
    ensures var run := FetchFrom(index, api, model, url, 0);
      run.outcome.text.Some? <==> exists j | 0 <= j < MaxRetries :: Acceptable(api(model, url, j))
  {
    FetchSucceedsFrom(index, api, model, url, 0);
  }

  /** `FetchSucceedsIffSomeAcceptable` from attempt `k` on. */
  lemma FetchSucceedsFrom(index: int, api: Api, model: string, url: string, k: nat)
    requires k < MaxRetries
    ensures var run := FetchFrom(index, api, model, url, k);
      run.outcome.text.Some? <==> exists j | k <= j < MaxRetries :: Acceptable(api(model, url, j))
  {
    var run := FetchFrom(index, api, model, url, k);
    var n := k + run.calls - 1;
    FetchStopsAtFirstAcceptable(index, api, model, url, k);
    RejectedMeans(api, model, url, k, n);
    if run.outcome.text.Some? {
      assert Acceptable(api(model, url, n));
    } else {
      FetchExhausted(index, api, model, url, k);
      assert n == MaxRetries - 1 && !Acceptable(api(model, url, n));
      assert forall j :: k <= j < MaxRetries ==> !Acceptable(api(model, url, j));
    }
  }

  /** The worker. `limiter` is the shared rate limiter and `clock` the clock
      reading when the worker starts; `after` is the reading when it
      returns. It makes exactly one `Acquire` per call of the service, and
      its outcome is the one `Fetch` describes. Its time is exactly the
      time `waited` it slept inside `Acquire`, which the limiter adds to its
      `slept` total, plus a one-second pause after every raised attempt but
      the last. */
  method FetchMarkdown(limiter: RateLimiter, clock: int, api: Api, modelId: string, url: string,
                       batchIdx: int, wechatModelId: Option<string>, techcrunchModelId: Option<string>)
    returns (outcome: Outcome, after: int, ghost waited: nat)
    modifies limiter
    ensures var run := Fetch(batchIdx, api, modelId, url, wechatModelId, techcrunchModelId);
      outcome == run.outcome
      && limiter.admissions == old(limiter.admissions) + run.calls
      && limiter.slept == old(limiter.slept) + waited
      && after == clock + waited + 1000 * run.pauses
  {
    var specificModelId := modelId;
    if wechatModelId.Some? && techcrunchModelId.Some? {
      specificModelId := ModelIdForUrl(url, modelId, wechatModelId.value, techcrunchModelId.value);
    }
    assert specificModelId == SpecificModelId(url, modelId, wechatModelId, techcrunchModelId);
    var retryCount := 0;
    after := clock;
    waited := 0;
    ghost var pauses := 0;
    outcome := Outcome(batchIdx, None, None);
    while retryCount < MaxRetries
      invariant 0 <= retryCount < MaxRetries
      invariant RejectedBetween(api, specificModelId, url, 0, retryCount)
      invariant limiter.admissions == old(limiter.admissions) + retryCount
      invariant limiter.slept == old(limiter.slept) + waited
      invariant pauses == Failures(api, specificModelId, url, 0, retryCount)
      invariant after == clock + waited + 1000 * pauses
    {
      var reply, accepted;
      var before := after;
      reply, accepted, after := Attempt(limiter, after, api, specificModelId, url, retryCount);
      waited := waited + (after - before);
      FailuresSnoc(api, specificModelId, url, retryCount);
      FetchAfter(batchIdx, api, specificModelId, url, retryCount);
      ghost var k := retryCount;
      retryCount := retryCount + 1;
      if accepted {
        outcome := Outcome(batchIdx, Some(TrimBeforeHash(reply.content)), None);
        assert FetchFrom(batchIdx, api, specificModelId, url, k) == FetchRun(outcome, 1, 0);
        break;
      } else if retryCount == MaxRetries {
        outcome := Outcome(batchIdx, None, Some(ExhaustedMessage(reply)));
        assert FetchFrom(batchIdx, api, specificModelId, url, k) == FetchRun(outcome, 1, 0);
        break;
      } else if reply.Failure? {
        after := after + SecondPeriod;
        pauses := pauses + 1;
      }
    }
  }

  /** One pass through the `try` block of `fetch_markdown` at attempt `k`:
      wait for the limiter, call the service, and scan a text reply for the
      unwanted markers. */
  method Attempt(limiter: RateLimiter, now: int, api: Api, model: string, url: string, k: nat)
    returns (reply: Reply, accepted: bool, after: int)
    modifies limiter
    ensures reply == api(model, url, k)
    ensures accepted <==> Acceptable(reply)
    ensures limiter.admissions == old(limiter.admissions) + 1
    ensures limiter.slept == old(limiter.slept) + (after - now)
    ensures now <= after
  {
    after := limiter.Acquire(now);
    reply := api(model, url, k);
    match reply {
      case Text(mdText) =>
        var unwantedFound := FindUnwanted(mdText);
        accepted := !unwantedFound;
      case Failure(_) =>
        accepted := false;
    }
  }

  /** After `k` unacceptable attempts the worker's run is the run from
      attempt `k` on, with those `k` calls and the pauses after their raised
      attempts added. */
  lemma {:induction false} FetchAfter(index: int, api: Api, model: string, url: string, k: nat)
    requires k < MaxRetries
    requires RejectedBetween(api, model, url, 0, k)
    ensures var run, rest := FetchFrom(index, api, model, url, 0), FetchFrom(index, api, model, url, k);
      run.outcome == rest.outcome && run.calls == k + rest.calls
      && run.pauses == Failures(api, model, url, 0, k) + rest.pauses
  {
    if k > 0 {
      FetchAfter(index, api, model, url, k - 1);
      FailuresSnoc(api, model, url, k - 1);
    }
  }

  /** Counting the raised attempts one more at a time. */
  lemma {:induction false} FailuresSnoc(api: Api, model: string, url: string, n: nat)
    ensures Failures(api, model, url, 0, n + 1)
      == Failures(api, model, url, 0, n) + (if api(model, url, n).Failure? then 1 else 0)
  {
    FailuresSplit(api, model, url, 0, n);
  }

  lemma {:induction false} FailuresSplit(api: Api, model: string, url: string, lo: nat, n: nat)
    requires lo <= n
    ensures Failures(api, model, url, lo, n + 1)
      == Failures(api, model, url, lo, n) + (if api(model, url, n).Failure? then 1 else 0)
    decreases n - lo
  {
    if lo < n {
      FailuresSplit(api, model, url, lo + 1, n);
    }
  }

  // ---------------------------------------------------------------------
  // `main`

  /** The number of workers and the batch size. */
  const BatchSize := 10

  /** `if not model_id_wechat: model_id_wechat = model_id` and the same for
      the TechCrunch model: a missing or empty setting falls back to the
      default model. */
  function OrDefault(setting: Option<string>, modelId: string): (m: string)
    ensures setting.None? || setting == Some("") ==> m == modelId
    ensures setting.Some? && setting.value != "" ==> m == setting.value
  {
    if setting.None? || setting.value == "" then modelId else setting.value
  }

  /** The tasks of `main`, in input order: task `i` runs the worker on
      `urls[i]` with index `i` and both per-site models resolved. */
  function UrlTasks(urls: seq<string>, api: Api, modelId: string, wechatModelId: string, techcrunchModelId: string)
    : (tasks: seq<TaskResult>)
    ensures |tasks| == |urls|
    ensures forall i :: 0 <= i < |tasks| ==> tasks[i].Returned? && tasks[i].outcome.index == i
  {
    seq(|urls|, i requires 0 <= i < |urls| =>
      Returned(Fetch(i, api, modelId, urls[i], Some(wechatModelId), Some(techcrunchModelId)).outcome))
  }

  /** The settings `main` reads from the environment. */
  datatype Settings = Settings(apiKey: Option<string>, modelId: Option<string>,
                               wechatModelId: Option<string>, techcrunchModelId: Option<string>)

  predicate Configured(s: Settings) {
    s.apiKey.Some? && s.apiKey.value != "" && s.modelId.Some? && s.modelId.value != ""
  }

  /** The tasks `main` runs for the given settings and input lines. */
  function MainTasks(s: Settings, lines: seq<string>, api: Api): seq<TaskResult>
    requires Configured(s)
  {
    UrlTasks(NonBlankLines(lines), api, s.modelId.value,
             OrDefault(s.wechatModelId, s.modelId.value), OrDefault(s.techcrunchModelId, s.modelId.value))
  }

  /** `main(input_txt)`, with `input` the lines of the URL file (None when it
      does not exist) and `arrivals` the completion order of each batch. The
      file written is the in-order merge, whatever the completion order. */
  method Run(settings: Settings, input: Option<seq<string>>, api: Api, arrivals: seq<seq<TaskResult>>)
    returns (end: RunEnd)
    requires Configured(settings) && input.Some? ==>
      IsCompletionOrder(MainTasks(settings, input.value, api), BatchSize, arrivals)
    ensures !Configured(settings) <==> end == MissingConfig
    ensures Configured(settings) && input.None? <==> end == MissingInput
    ensures Configured(settings) && input.Some? ==>
      var merged := InOrderMerge(MainTasks(settings, input.value, api));
      (end == NothingMerged <==> merged.None?) && (merged.Some? ==> end == Wrote(merged.value))
  {
    if settings.apiKey.None? || settings.apiKey.value == "" || settings.modelId.None? || settings.modelId.value == "" {
      return MissingConfig;
    }
    var modelId := settings.modelId.value;
    var wechatModelId := OrDefault(settings.wechatModelId, modelId);
    var techcrunchModelId := OrDefault(settings.techcrunchModelId, modelId);
    if input.None? {
      return MissingInput;
    }
    var urls := NonBlankLines(input.value);
    var tasks := UrlTasks(urls, api, modelId, wechatModelId, techcrunchModelId);
    var results := Collect(tasks, BatchSize, arrivals, Kept);
    KeptInOrder(tasks);
    MergeInInputOrder(results, FlatMap(Kept, tasks));
    var merged := Merge(results);
    if merged.None? {
      return NothingMerged;
    }
    return Wrote(merged.value);
  }
}
