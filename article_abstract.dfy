/** The stage that turns a list of saved article files into one Markdown
    digest (`1b_article_to_abstract_md.py`): a one-window rate limiter, a
    worker that sends one article with the system prompt to a chat-completion
    bot with up to three attempts, and the batch loop that merges the
    summaries back into input order. */
module ArticleAbstract {
  import opened Common
  import opened Text
  import opened RateWindow
  import opened Aggregate

  /** The period of the window, in milliseconds. */
  const MinutePeriod := 60000

  /** The default of the module level `rate_limiter`. */
  const DefaultMaxPerMinute := 1000

  /** `RateLimiter`: a single fixed window of one minute. `admissions`
      counts the calls of `Acquire` and `slept` the total time they spent
      sleeping; neither is in the source. */
  class RateLimiter {
    const maxPerMinute: int
    var minuteCount: int
    var lastResetMinute: int
    ghost var admissions: nat
    ghost var slept: int

    function MinuteWindow(): Window
      reads this
    {
      Window(minuteCount, lastResetMinute)
    }

    /** `RateLimiter(max_per_minute)` created at clock reading `now`. */
    constructor (maxPerMinute: int, now: int)
      ensures this.maxPerMinute == maxPerMinute
      ensures MinuteWindow() == Window(0, now)
      ensures admissions == 0
    {
      this.maxPerMinute := maxPerMinute;
      minuteCount := 0;
      lastResetMinute := now;
      admissions := 0;
      slept := 0;
    }

    /** `acquire()` called at clock reading `now`; `after` is the reading
        when it returns, after any sleep. The window is refreshed, gated
        and bumped as `RateWindow.Pass` describes, so its count stays within
        the cap (`RateWindow.PassWithinCap`) and the call never rejects
        (`RateWindow.PassAdmitsOne`). */
    method Acquire(now: int) returns (after: int)
      modifies this
      ensures (MinuteWindow(), after) == Pass(old(MinuteWindow()), maxPerMinute, MinutePeriod, now, now)
      ensures admissions == old(admissions) + 1
      ensures slept == old(slept) + (after - now)
      ensures now <= after
      ensures maxPerMinute >= 1 ==> minuteCount <= maxPerMinute
    {
      var currentTime := now;
      if currentTime - lastResetMinute >= MinutePeriod {
        minuteCount := 0;
        lastResetMinute := currentTime;
      }
      after := currentTime;
      if minuteCount >= maxPerMinute {
        var sleepTime := MinutePeriod - (currentTime - lastResetMinute);
        if sleepTime > 0 {
          after := after + sleepTime;
        }
        minuteCount := 0;
        lastResetMinute := after;
      }
      minuteCount := minuteCount + 1;
      admissions := admissions + 1;
      slept := slept + (after - now);
    }
  }

  // ---------------------------------------------------------------------
  // One worker: `generate_abstract_from_article`

  const MaxRetries := 3

  /** The pause after a raised attempt, in milliseconds. */
  const RetryPause := 1000

  /** The chat-completion call: the reply of `model` to the system prompt
      `prompt` and the article `article`, at attempt number `attempt`
      (counted from 0). */
  type Api = (string, string, string, nat) -> Reply

  /** The message of an article file that cannot be read. */
  function UnreadableMessage(path: string, err: string): string {
    "无法读取文章文件 " + path + ": " + err
  }

  /** The retry loop from attempt `k` on, once the article and the prompt
      are read: its outcome and the number of calls it makes. At least one
      and at most the remaining number of calls is made, and the outcome
      echoes the index. */
  function GenerateFrom(index: int, api: Api, model: string, prompt: string, article: string, k: nat)
    : (run: (Outcome, nat))
    requires k < MaxRetries
    ensures 1 <= run.1 <= MaxRetries - k
    ensures run.0.index == index
    decreases MaxRetries - k
  {
    match api(model, prompt, article, k)
    case Text(md) => (Outcome(index, Some(TrimBeforeHash(md)), None), 1)
    case Failure(e) =>
      if k + 1 < MaxRetries then
        var (o, calls) := GenerateFrom(index, api, model, prompt, article, k + 1);
        (o, calls + 1)
      else
        (Outcome(index, None, Some(e)), 1)
  }

  /** The loop stops at the first text reply and returns it cleaned, with
      no error; every earlier attempt raised. */
  lemma {:induction false} GenerateStopsAtFirstText(index: int, api: Api, model: string, prompt: string, article: string, k: nat)
    requires k < MaxRetries
    ensures var (o, calls) := GenerateFrom(index, api, model, prompt, article, k);
      var last := api(model, prompt, article, k + calls - 1);
      (forall j :: k <= j < k + calls - 1 ==> api(model, prompt, article, j).Failure?)
      && (o.text.Some? <==> last.Text?)
      && (last.Text? ==> o == Outcome(index, Some(TrimBeforeHash(last.content)), None))
    decreases MaxRetries - k
  {
    if api(model, prompt, article, k).Failure? && k + 1 < MaxRetries {
      GenerateStopsAtFirstText(index, api, model, prompt, article, k + 1);
    }
  }

  /** When no attempt gives a text, all remaining attempts are made and the
      outcome carries the exception text of the last one. */
  lemma {:induction false} GenerateExhausted(index: int, api: Api, model: string, prompt: string, article: string, k: nat)
    requires k < MaxRetries
    ensures var (o, calls) := GenerateFrom(index, api, model, prompt, article, k);
      o.text.None? ==>
        k + calls == MaxRetries
        && o == Outcome(index, None, Some(api(model, prompt, article, MaxRetries - 1).message))
    decreases MaxRetries - k
  {
    if api(model, prompt, article, k).Failure? && k + 1 < MaxRetries {
      GenerateExhausted(index, api, model, prompt, article, k + 1);
    }
  }

  /** After `k` raised attempts the loop's run is the run from attempt `k`
      on, with those `k` calls added. */
  lemma {:induction false} GenerateAfter(index: int, api: Api, model: string, prompt: string, article: string, k: nat)
    requires k < MaxRetries
    requires forall j :: 0 <= j < k ==> api(model, prompt, article, j).Failure?
    ensures var run, rest := GenerateFrom(index, api, model, prompt, article, 0),
                             GenerateFrom(index, api, model, prompt, article, k);
      run.0 == rest.0 && run.1 == k + rest.1
  {
    if k > 0 {
      GenerateAfter(index, api, model, prompt, article, k - 1);
    }
  }

  /** What one task ends with, and how many calls of the service it makes:
      an unreadable article is reported at once without any call; an
      unreadable prompt file makes the task raise; otherwise the retry
      loop runs. */
  function Generate(index: int, api: Api, model: string, path: string,
                    files: string -> FileRead, prompt: FileRead): (TaskResult, nat)
  {
    match files(path)
    case ReadError(e) => (Returned(Outcome(index, None, Some(UnreadableMessage(path, e)))), 0)
    case Read(article) =>
      match prompt
      case ReadError(e) => (Faulted(e), 0)
      case Read(p) =>
        var (o, calls) := GenerateFrom(index, api, model, p, article, 0);
        (Returned(o), calls)
  }

  /** A task that can read both files returns the cleaned text of the first
      of at most three attempts that gives a text, and the last exception
      text when none does; one whose article cannot be read makes no call
      and reports why; one whose prompt cannot be read raises. */
  lemma GenerateCases(index: int, api: Api, model: string, path: string,
                      files: string -> FileRead, prompt: FileRead)
    ensures var (r, calls) := Generate(index, api, model, path, files, prompt);
      (files(path).ReadError? ==>
         r == Returned(Outcome(index, None, Some(UnreadableMessage(path, files(path).message)))) && calls == 0)
      && (files(path).Read? && prompt.ReadError? ==> r == Faulted(prompt.message) && calls == 0)
      && (files(path).Read? && prompt.Read? ==>
            var article, p := files(path).content, prompt.content;
            1 <= calls <= MaxRetries && r.Returned? && r.outcome.index == index
            && (forall j :: 0 <= j < calls - 1 ==> api(model, p, article, j).Failure?)
            && (r.outcome.text.Some? <==> exists j | 0 <= j < MaxRetries :: api(model, p, article, j).Text?)
            && (api(model, p, article, calls - 1).Text? ==>
                  r.outcome == Outcome(index, Some(TrimBeforeHash(api(model, p, article, calls - 1).content)), None))
            && (r.outcome.text.None? ==>
                  calls == MaxRetries
                  && r.outcome.error == Some(api(model, p, article, MaxRetries - 1).message)))
  {
    if files(path).Read? && prompt.Read? {
      var article, p := files(path).content, prompt.content;
      var (o, calls) := GenerateFrom(index, api, model, p, article, 0);
      GenerateStopsAtFirstText(index, api, model, p, article, 0);
      GenerateExhausted(index, api, model, p, article, 0);
      var n := 0 + calls - 1;
      if o.text.Some? {
        assert api(model, p, article, n).Text?;
      } else {
        forall j | 0 <= j < MaxRetries ensures !api(model, p, article, j).Text? {
          if j == n {
            assert api(model, p, article, j) == api(model, p, article, 0 + calls - 1);
          }
        }
      }
    }
  }

  /** The worker. `limiter` is the shared rate limiter, `files` the
      contents of the files by path, `prompt` the reading of the system
      prompt file, and `clock` the clock reading when the worker starts;
      `after` is the reading when it returns. It makes exactly one
      `Acquire` per call of the service, and its result is the one
      `Generate` describes. Its time is exactly the time `waited` it slept
      inside `Acquire`, which the limiter adds to its `slept` total, plus a
      one-second pause after every raised attempt but the last. */
  method GenerateAbstract(limiter: RateLimiter, clock: int, api: Api, model: string, path: string,
                          batchIdx: int, files: string -> FileRead, prompt: FileRead)
    returns (result: TaskResult, after: int, ghost waited: nat)
    modifies limiter
    ensures var (r, calls) := Generate(batchIdx, api, model, path, files, prompt);
      result == r
      && limiter.admissions == old(limiter.admissions) + calls
      && limiter.slept == old(limiter.slept) + waited
      && (calls == 0 ==> after == clock && waited == 0)
      && (calls > 0 ==> after == clock + waited + RetryPause * (calls - 1))
  {
    after := clock;
    waited := 0;
    var articleContent;
    match files(path) {
      case ReadError(e) =>
        return Returned(Outcome(batchIdx, None, Some(UnreadableMessage(path, e)))), after, waited;
      case Read(content) =>
        articleContent := content;
    }
    var promptText;
    match prompt {
      case ReadError(e) =>
        return Faulted(e), after, waited;
      case Read(content) =>
        promptText := content;
    }
    var retryCount := 0;
    result := Faulted("");
    while retryCount < MaxRetries
      invariant 0 <= retryCount < MaxRetries
      invariant forall j :: 0 <= j < retryCount ==> api(model, promptText, articleContent, j).Failure?
      invariant limiter.admissions == old(limiter.admissions) + retryCount
      invariant limiter.slept == old(limiter.slept) + waited
      invariant after == clock + waited + RetryPause * retryCount
    {
      var before := after;
      after := limiter.Acquire(after);
      waited := waited + (after - before);
      var reply := api(model, promptText, articleContent, retryCount);
      GenerateAfter(batchIdx, api, model, promptText, articleContent, retryCount);
      match reply {
        case Text(mdText) =>
          result := Returned(Outcome(batchIdx, Some(TrimBeforeHash(mdText)), None));
          break;
        case Failure(errorMsg) =>
          retryCount := retryCount + 1;
          if retryCount < MaxRetries {
            after := after + RetryPause;
            continue;
          } else {
            result := Returned(Outcome(batchIdx, None, Some(errorMsg)));
            break;
          }
      }
    }
  }

  // ---------------------------------------------------------------------
  // `main`

  /** The number of workers and the batch size. */
  const BatchSize := 20

  /** The tasks of `main`, in input order: task `i` runs the worker on
      `paths[i]` with index `i`. */
  function PathTasks(paths: seq<string>, api: Api, model: string, files: string -> FileRead, prompt: FileRead)
    : (tasks: seq<TaskResult>)
    ensures |tasks| == |paths|
    ensures forall i :: 0 <= i < |tasks| ==>
      tasks[i] == Generate(i, api, model, paths[i], files, prompt).0
      && (tasks[i].Returned? ==> tasks[i].outcome.index == i)
  {
    seq(|paths|, i requires 0 <= i < |paths| => Generate(i, api, model, paths[i], files, prompt).0)
  }

  /** The settings `main` reads from the environment. */
  datatype Settings = Settings(apiKey: Option<string>, modelId: Option<string>)

  predicate Configured(s: Settings) {
    s.apiKey.Some? && s.apiKey.value != "" && s.modelId.Some? && s.modelId.value != ""
  }

  /** The tasks `main` runs for the given settings and input lines. */
  function MainTasks(s: Settings, lines: seq<string>, api: Api, files: string -> FileRead, prompt: FileRead)
    : seq<TaskResult>
    requires Configured(s)
  {
    PathTasks(NonBlankLines(lines), api, s.modelId.value, files, prompt)
  }

  /** `main(input_articles_file)`, with `input` the lines of the list file
      (None when it does not exist) and `arrivals` the completion order of
      each batch. Tasks that raised or reported an error are skipped
      without affecting the others, and the file written is the in-order
      merge, whatever the completion order. */
  method Run(settings: Settings, input: Option<seq<string>>, api: Api, files: string -> FileRead,
             prompt: FileRead, arrivals: seq<seq<TaskResult>>)
    returns (end: RunEnd)
    requires Configured(settings) && input.Some? ==>
      IsCompletionOrder(MainTasks(settings, input.value, api, files, prompt), BatchSize, arrivals)
    ensures !Configured(settings) <==> end == MissingConfig
    ensures Configured(settings) && input.None? <==> end == MissingInput
    ensures Configured(settings) && input.Some? ==>
      var merged := InOrderMerge(MainTasks(settings, input.value, api, files, prompt));
      (end == NothingMerged <==> merged.None?) && (merged.Some? ==> end == Wrote(merged.value))
  {
    if settings.apiKey.None? || settings.apiKey.value == "" {
      return MissingConfig;
    }
    if settings.modelId.None? || settings.modelId.value == "" {
      return MissingConfig;
    }
    var modelId := settings.modelId.value;
    if input.None? {
      return MissingInput;
    }
    var paths := NonBlankLines(input.value);
    var tasks := PathTasks(paths, api, modelId, files, prompt);
    var results := Collect(tasks, BatchSize, arrivals, Kept);
    KeptInOrder(tasks);
    MergeInInputOrder(results, FlatMap(Kept, tasks));
    var merged := Merge(results);
    if merged.None? {
      return NothingMerged;
    }
    return Wrote(merged.value);
  }
}
