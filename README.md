# A verified model of a news digest pipeline

The pipeline turns news articles into one Markdown digest. It has four stages:

- `0_techcrunch_news_url.py` crawls the TechCrunch AI category and lists recent article URLs.
- `1a_url_to_article.py` scrapes each listed article into a text file and writes a manifest of the files that were saved.
- `1b_article_to_abstract_md.py` has a chat-completion service summarise each saved article.
- `1_url_to_abstract_md.py` sends URLs straight to a chat-completion bot.

Both summarising stages merge the replies back into input order.

This project models the deterministic logic of these four scripts in Dafny and proves what it promises:

- the two rate limiters;
- the bounded retry loops, with the content they reject;
- the clean-up of a reply;
- batch partitioning;
- collection in completion order and the order-restoring merge;
- the skip guard and the URL-to-filename mapping of the scraper;
- the listing crawler's link choice, per-page dedup, page-loop stop rules and final dedup and sort.

## Modules

| file | module | models |
|---|---|---|
| `common.dfy` | `Common` | `Option`, `Min` |
| `text.dfy` | `Text` | Python string operations: `in`, `find`, `split`, `join`, `strip`, `rstrip`, `isdigit`, and a file written one line per entry |
| `rate_window.dfy` | `RateWindow` | one fixed counting window: the reset test, the full-window sleep and the increment of `acquire` |
| `aggregate.dfy` | `Aggregate` | the fan-out and merge of both summarising stages |
| `abstract_md.dfy` | `AbstractMd` | `1_url_to_abstract_md.py` |
| `article_abstract.dfy` | `ArticleAbstract` | `1b_article_to_abstract_md.py` |
| `article_scraper.dfy` | `ArticleScraper` | `1a_url_to_article.py` |
| `techcrunch_listing.dfy` | `TechCrunchListing` | `0_techcrunch_news_url.py` |

## How each thing is modelled

**Code that changes state is imperative.**
- Each limiter is a class. It keeps the source's fields, and its `Acquire` is proved equal to a pure window step (`RateWindow.Pass`). Every fact about caps and waits is proved of that step.
- Each retry loop is a method with the source's attempt counter. It is proved equal to a recursive function of the per-attempt replies (`FetchFrom`, `GenerateFrom`, `ScrapeFrom`). Lemmas about that function carry what the source promises.
- The batch loops, the dict-based dedup loops, the paragraph loops, the page loop and the file-writing loops are methods with loop invariants. Each ends in an `ensures` that ties it to its specification function.

**Time.**
- The clock is an integer number of milliseconds.
- `time.sleep(d)` moves the clock forward by `d`.
- A method that may sleep gets the clock reading when it starts and returns the reading when it ends.

**Outside calls are parameters.**
- The chat-completion service is a function from (model, content, attempt number) to a reply: a text, or the text of an exception.
- The browser is a function from (URL, attempt number) to either an exception or the page as the CSS selectors see it.
- The web is a function from address to response.
- md5 is any function to 32-character hex strings.
- A file read is what the file holds, or the read error.

**Concurrency.**
- `as_completed` is an arbitrary reordering of each batch (`Aggregate.IsCompletionOrder`).
- The batch loop is proved to give the same merge for every such reordering.

**Dates are integers.**
- A URL date is Python's `date.toordinal()` of that day times 86400. That is a naive `datetime` at midnight.
- The cutoff and the dates taken from `time` tags are inputs on the same line.

The code and its documentation disagree in one place, and the model follows the code. The docstring of `fetch_markdown` (`1_url_to_abstract_md.py` lines 96-97) says a reply that keeps showing an unwanted marker is returned as the last result. The code (lines 135-142) returns no text and the error "包含不需要的文本并达到最大重试次数". `AbstractMd.FetchExhausted` states this.

Two behaviours of the code are proved as they are:

- **The two phrase tests of `scrape_article` differ.**
  - The skip guard (`1a_url_to_article.py` line 121) scrapes again when a saved file shows either verification phrase.
  - The loop (line 356) rejects a text only when it shows both phrases.
  - So a page showing only "环境异常" is saved, and the next run scrapes it again (`ArticleScraper.GuardStricterThanLoop`).
- **The WeChat image test (line 320) never changes what is kept.** An image paragraph shorter than five characters fails the length test of line 325 anyway (`ArticleScraper.ImageTestRedundant`).

## Model

| member | source | states |
|---|---|---|
| RateWindow.PassWithinCap | 1_url_to_abstract_md.py:35-66 | with a cap of at least one, a window never holds more than its cap after an `acquire`, whatever it held before, and it holds at least this request when its old count was not negative |
| RateWindow.PassAdmitsOne | 1_url_to_abstract_md.py:50-62 | an `acquire` never rejects and never turns the clock back; when the window did not start after `now` it waits at most one period |
| RateWindow.PassCases | 1_url_to_abstract_md.py:38-66 | an expired window restarts at `now` holding one; a window with room counts one more and keeps its start; a full window sleeps exactly `period - elapsed`, restarts after the sleep and holds one |
| AbstractMd.AcquireWithinCaps | 1_url_to_abstract_md.py:35-66 | with both caps at least one, neither the per-second nor the per-minute count exceeds its cap after `acquire` |
| AbstractMd.AcquireBoundedWait | 1_url_to_abstract_md.py:49-62 | `acquire` returns after a wait that is never negative, and at most one second plus one minute when neither window started in the future |
| AbstractMd.AcquireCases | 1_url_to_abstract_md.py:38-66 | each window is reset when its period (1 s, 60 s) has run out and then counts this request; a full window is left only after its period has run out |
| AbstractMd.RateLimiter.constructor | 1_url_to_abstract_md.py:26-33 | both counts start at zero and both windows start at the creation time |
| AbstractMd.RateLimiter.Acquire | 1_url_to_abstract_md.py:35-66 | the fields after the call are the two-window step of `AcquireStep`; the clock never goes back; the time it sleeps is added to the limiter's `slept` total; both counts stay within their caps |
| AbstractMd.ModelIdForUrl | 1_url_to_abstract_md.py:84-89 | the WeChat model for a URL containing `weixin.qq.com`, else the TechCrunch model for one containing `techcrunch.com`, else the default |
| AbstractMd.SpecificModelId | 1_url_to_abstract_md.py:106-108 | the per-site choice is used only when both per-site ids are given; otherwise the default model is used |
| AbstractMd.FindUnwanted | 1_url_to_abstract_md.py:122-126 | the marker scan finds a marker exactly when the reply contains one of the two unwanted texts |
| AbstractMd.TrimKeepsNoMarker | 1_url_to_abstract_md.py:144-150 | cutting the text before the first `#` never brings in an unwanted marker |
| AbstractMd.FetchFrom | 1_url_to_abstract_md.py:110-169 | from attempt `k`, between 1 and `10 - k` calls are made, and the outcome echoes `batch_idx` |
| AbstractMd.FetchStopsAtFirstAcceptable | 1_url_to_abstract_md.py:110-150 | the worker stops at the first reply that is text without a marker and returns it cleaned, with no error; every earlier attempt raised or had a marker |
| AbstractMd.FetchExhausted | 1_url_to_abstract_md.py:128-169 | with no acceptable reply, all ten attempts are made; the error is the last exception text, or the fixed unwanted-text message when the last reply had a marker |
| AbstractMd.FetchPauses | 1_url_to_abstract_md.py:152-163 | the worker pauses once for each raised attempt except the last attempt made; a reply with a marker is retried at once |
| AbstractMd.FetchNeverReturnsUnwanted | 1_url_to_abstract_md.py:122-150 | no returned text contains an unwanted marker |
| AbstractMd.FetchSucceedsIffSomeAcceptable | 1_url_to_abstract_md.py:110-169 | a text is returned exactly when one of the ten attempts gives text without a marker |
| AbstractMd.FetchMarkdown | 1_url_to_abstract_md.py:91-169 | the worker's outcome is the one `Fetch` describes; it makes one `acquire` per service call; its time is exactly `waited`, which is what its `acquire` calls added to the limiter's `slept` total, plus one second per pause, that is, after each raised attempt but the last |
| AbstractMd.Attempt | 1_url_to_abstract_md.py:112-128 | one attempt makes exactly one `acquire` and one call, and accepts exactly the text replies without a marker; its time is what `acquire` slept |
| AbstractMd.FetchAfter | 1_url_to_abstract_md.py:128-163 | after `k` rejected attempts, the worker's run is the run from attempt `k`, with those `k` calls and their pauses added |
| AbstractMd.OrDefault | 1_url_to_abstract_md.py:215-227 | a missing or empty per-site model setting falls back to `MODEL_ID` |
| AbstractMd.UrlTasks | 1_url_to_abstract_md.py:268-280 | one task per URL, and task `i` reports index `i` |
| AbstractMd.Run | 1_url_to_abstract_md.py:172-338 | exits without an API key or model id, or without an input file; otherwise writes the in-order merge of the successful texts whatever the completion order, and writes nothing when that merge is blank |
| Aggregate.NonBlankLines | 1_url_to_abstract_md.py:243-244 | every URL read is stripped and not blank, at most one per line |
| Aggregate.NonBlankLinesConcat | 1_url_to_abstract_md.py:243-244 | the URLs of two runs of lines are those of the first run followed by those of the second: file order, repeats kept |
| Aggregate.NonBlankLinesOne | 1_url_to_abstract_md.py:243-244 | one line gives its stripped text, or nothing when that is empty; with `NonBlankLinesConcat`, every non-blank line is kept |
| Aggregate.BatchCount | 1_url_to_abstract_md.py:247 | `ceil(n / size)`: enough batches to cover the list, and no extra one |
| Aggregate.BatchOf | 1_url_to_abstract_md.py:257-259 | batch `k` is a non-empty run of at most `size` consecutive items starting at `k * size` |
| Aggregate.BatchesPartition | 1_url_to_abstract_md.py:256-259 | the batches, read one after the other, are the list itself |
| Aggregate.ArrivalsArePermutation | 1_url_to_abstract_md.py:282-297 | whatever order each batch completes in, the reports taken batch after batch are every task exactly once |
| Aggregate.FlatMapPermutation | 1_url_to_abstract_md.py:282-292 | what is kept from the reports depends on their arrival order only up to reordering |
| Aggregate.Collect | 1_url_to_abstract_md.py:255-297 | `results` holds the kept reports in arrival order, and up to reordering the kept reports of the tasks in input order |
| Aggregate.CollectBatch | 1_url_to_abstract_md.py:282-297 | one batch's reports, appended in arrival order |
| Aggregate.Kept | 1_url_to_abstract_md.py:284-292 | a report adds `(ret_idx, md_text)` exactly when its task returned and its error text is empty or None |
| Aggregate.Insert | 1_url_to_abstract_md.py:310 | one step of the stable sort by index keeps the list sorted and adds exactly the new entry |
| Aggregate.SortByIndex | 1_url_to_abstract_md.py:310 | the sort by index gives a sorted reordering of `results` |
| Aggregate.SortedPermutationUnique | 1_url_to_abstract_md.py:310 | when indices are distinct, a sorted reordering is unique |
| Aggregate.SortRestoresOrder | 1_url_to_abstract_md.py:310 | sorting the collected entries gives them back in input order, whatever order they were collected in |
| Aggregate.KeptInOrder | 1_url_to_abstract_md.py:268-292 | the kept entries in input order have strictly increasing indices, each naming its own task, and carry that task's text |
| Aggregate.TrimBeforeHashSpec | 1_url_to_abstract_md.py:144-148 | the clean reply is a suffix of the reply with only a `#`-free prefix removed; it starts with `#` exactly when the reply contains one; it is the reply itself when the reply has no `#` or starts with one |
| Aggregate.Texts | 1_url_to_abstract_md.py:311 | only non-empty texts are joined, and every non-empty text is |
| Aggregate.TextsConcat | 1_url_to_abstract_md.py:311 | the texts of two runs of entries are those of the first followed by those of the second: input order, repeats kept |
| Aggregate.TextsOne | 1_url_to_abstract_md.py:311 | one entry gives its text exactly when it is present and not empty |
| Aggregate.MergeInInputOrder | 1_url_to_abstract_md.py:309-318 | the merge is the blank-line join of the non-empty texts in input order, or nothing when that is blank, whatever order the entries were collected in |
| Aggregate.MergeNoneIffAllBlank | 1_url_to_abstract_md.py:311-318 | nothing is written exactly when every text to merge is empty or white space |
| Aggregate.JoinBlank | 1_url_to_abstract_md.py:311-313 | a join with a white-space separator is blank exactly when every part is |
| ArticleAbstract.RateLimiter.constructor | 1b_article_to_abstract_md.py:26-30 | the count starts at zero and the window starts at the creation time |
| ArticleAbstract.RateLimiter.Acquire | 1b_article_to_abstract_md.py:32-50 | the window is reset after 60 s and counts this request; the count never exceeds `max_per_minute`; the clock never goes back; the time it sleeps is added to the limiter's `slept` total |
| ArticleAbstract.GenerateFrom | 1b_article_to_abstract_md.py:84-123 | from attempt `k`, between 1 and `3 - k` calls are made, and the outcome echoes `batch_idx` |
| ArticleAbstract.GenerateStopsAtFirstText | 1b_article_to_abstract_md.py:84-104 | the loop returns the cleaned text of the first attempt that does not raise; every earlier attempt raised |
| ArticleAbstract.GenerateExhausted | 1b_article_to_abstract_md.py:106-123 | with no text, all three attempts are made and the error is the last exception text |
| ArticleAbstract.GenerateAfter | 1b_article_to_abstract_md.py:106-117 | after `k` raised attempts, the run is the run from attempt `k` with those `k` calls added |
| ArticleAbstract.GenerateCases | 1b_article_to_abstract_md.py:55-123 | an unreadable article is reported at once with no call; an unreadable prompt makes the task raise; otherwise at most three calls are made, and a text is returned exactly when some attempt gives one |
| ArticleAbstract.GenerateAbstract | 1b_article_to_abstract_md.py:55-123 | the worker's result is the one `Generate` describes; it makes one `acquire` per call; its time is exactly `waited`, which is what its `acquire` calls added to the limiter's `slept` total, plus one second after each raised attempt but the last, and no time at all when a file cannot be read |
| ArticleAbstract.PathTasks | 1b_article_to_abstract_md.py:214-224 | one task per path; task `i` runs the worker on path `i` and reports index `i` |
| ArticleAbstract.Run | 1b_article_to_abstract_md.py:126-282 | exits without an API key or model id, or without an input file; tasks that raised or reported an error are skipped; writes the in-order merge, or nothing when it is blank |
| ArticleScraper.Hash10 | 1a_url_to_article.py:83 | `hexdigest()[:10]`: the first ten characters of the digest |
| ArticleScraper.FilenameFromUrl | 1a_url_to_article.py:60-98 | after trailing `/` are removed: a TechCrunch URL with more than four parts gives the `/`-free text after its last `/`; a WeChat URL with `/s/` gives the last piece of splitting it at `/s/`, a `/s/`-free suffix that follows a `/s/`; otherwise `techcrunch_`, `wechat_` or `article_` followed by ten digest characters |
| ArticleScraper.TechCrunchFilenameRoundTrip | 1a_url_to_article.py:74-79 | the file name of `https://techcrunch.com/{y}/{m}/{d}/{slug}/`, with no `/` in the pieces, is the slug |
| ArticleScraper.TechCrunchSplit | 1a_url_to_article.py:77-78 | such an address, its trailing `/` removed, splits at `/` into seven pieces, more than four, and ends with `/` and the slug |
| ArticleScraper.WeChatUrlSplit | 1a_url_to_article.py:87-88 | in `https://mp.weixin.qq.com/s/` + id, with no `/s/` in the id, the last piece of splitting at `/s/` is the id |
| ArticleScraper.WeChatFilenameRoundTrip | 1a_url_to_article.py:86-89 | for an id with no `/s/`, no `techcrunch.com` and no trailing `/`, the file name of `https://mp.weixin.qq.com/s/` + id is the id |
| ArticleScraper.Head | 1a_url_to_article.py:120 | `read(1000)`: the prefix of exactly `min(1000, len)` characters, the whole file when it is shorter |
| ArticleScraper.DateLineWithoutPath | 1a_url_to_article.py:251-265 | a URL without `.com/` gets a lone newline in place of the date line |
| ArticleScraper.TechCrunchUrlSplit | 1a_url_to_article.py:251 | `https://techcrunch.com/` followed by a path without `.` splits at `.com/` into `https://techcrunch` and that path |
| ArticleScraper.DatePieces | 1a_url_to_article.py:253 | a path of year, month, day and slug splits at `/` back into those four pieces |
| ArticleScraper.CorePieces | 1a_url_to_article.py:253 | stripping the slashes of such a path and splitting it gives the four pieces |
| ArticleScraper.DateLineOf | 1a_url_to_article.py:251-260 | when the first three path pieces after `.com/` are digits, the date line is `日期：{y}年{m}月{d}日` followed by a blank line |
| ArticleScraper.DateLineRoundTrip | 1a_url_to_article.py:249-268 | for `https://techcrunch.com/y/m/d/slug/` with digit pieces, the date line names exactly that year, month and day |
| ArticleScraper.LongTextsSpec | 1a_url_to_article.py:278-281 | the TechCrunch body keeps exactly the stripped paragraph texts longer than five characters, at most one per paragraph |
| ArticleScraper.LongTextsConcat | 1a_url_to_article.py:278-281 | the texts of two runs of paragraphs are those of the first followed by those of the second: page order, repeated paragraphs kept |
| ArticleScraper.LongTextsOne | 1a_url_to_article.py:278-281 | one paragraph gives its stripped text exactly when that is longer than five characters |
| ArticleScraper.TechCrunchBody | 1a_url_to_article.py:271-281 | the paragraph loop appends every kept text followed by a blank line, in order |
| ArticleScraper.WeChatTexts | 1a_url_to_article.py:316-327 | the WeChat filter keeps each text at most once; every kept text is a stripped paragraph text longer than five characters; every such text is kept |
| ArticleScraper.WeChatTextsPrefix | 1a_url_to_article.py:318-327 | texts are kept in first-seen order: the texts kept from a prefix of the paragraphs are a prefix of all the texts kept |
| ArticleScraper.ImageTestRedundant | 1a_url_to_article.py:320-325 | the image test never changes what the WeChat filter keeps |
| ArticleScraper.WeChatBody | 1a_url_to_article.py:310-327 | the loop with its `added_content` set appends exactly the filtered texts, in order |
| ArticleScraper.WithBackup | 1a_url_to_article.py:332-345 | a text under 200 characters is replaced by a longer fallback whenever there is one; otherwise the text is kept |
| ArticleScraper.NoTripleMeansNoMatch | 1a_url_to_article.py:353 | having no three newlines in a row means not containing `\n\n\n` |
| ArticleScraper.CollapseNoTriple | 1a_url_to_article.py:353 | after the collapse no three newlines are left in a row |
| ArticleScraper.CollapseKeepsShortRuns | 1a_url_to_article.py:353 | a text without three newlines in a row is left unchanged |
| ArticleScraper.CollapseIdempotent | 1a_url_to_article.py:353 | collapsing twice is collapsing once |
| ArticleScraper.CollapseKeepsText | 1a_url_to_article.py:353 | the collapse removes newlines only; every other character stays, in order |
| ArticleScraper.Extract | 1a_url_to_article.py:236-353 | the extraction of one attempt, by site, is the text `ExtractText` describes |
| ArticleScraper.ScrapeFrom | 1a_url_to_article.py:139-391 | from attempt `k`, between 1 and `3 - k` attempts are made, and something is written exactly when the scrape succeeds |
| ArticleScraper.ScrapeStopsAtFirstSave | 1a_url_to_article.py:355-391 | the loop stops at the first text that does not show both phrases and writes the URL, a blank line and that text; on failure all three attempts are made; after the `n`-th failed attempt it sleeps `3 * n` seconds, and not after the last |
| ArticleScraper.ScrapeAttempts | 1a_url_to_article.py:112-391 | the guard skips scraping exactly when the first 1000 characters of the file show neither phrase; otherwise at most three attempts are made, sleeping 3 s and then 6 s between them and not after the last |
| ArticleScraper.ScrapeSucceedsIff | 1a_url_to_article.py:100-404 | `scrape_article` returns True exactly when the file was already clean or one of the three attempts extracts a text that is saved |
| ArticleScraper.GuardStricterThanLoop | 1a_url_to_article.py:356-357 | a text showing only "环境异常" passes the loop's both-phrases test and is saved, yet the guard of line 121 finds that file unclean |
| ArticleScraper.TryOnce | 1a_url_to_article.py:141-357 | one attempt saves exactly when the page loaded and its text does not show both phrases |
| ArticleScraper.ScrapeArticle | 1a_url_to_article.py:100-404 | the method's result, written content and sleep time are those `Scrape` describes |
| ArticleScraper.PathJoin | 1a_url_to_article.py:475 | `os.path.join`: an absolute name replaces the directory; otherwise the path starts with the directory and ends with the name |
| ArticleScraper.UrlTasks | 1a_url_to_article.py:471-483 | one task per URL, saving to the directory joined with the URL's file name plus `.txt` |
| ArticleScraper.ManifestMembers | 1a_url_to_article.py:485-490 | a path is in the manifest exactly when a task that saves to it returned True |
| ArticleScraper.Run | 1a_url_to_article.py:406-516 | exits without an input file; otherwise the manifest lists the successful paths batch after batch in completion order, which up to reordering are those of the tasks in input order, one per line |
| Text.FindSpec | 1_url_to_abstract_md.py:146 | `find` gives the first occurrence, and -1 exactly when there is none |
| Text.LastPiece | 1a_url_to_article.py:88 | `split(sep)[-1]` is a suffix without `sep`, and it follows an occurrence of `sep` when the string holds one |
| Text.SplitFirst | 1a_url_to_article.py:88 | `split` scans from the left: without an occurrence of `sep` the string is the only piece; otherwise the first piece is the text before the first occurrence and the rest are the pieces of the text after it, which fixes the last piece (the WeChat id) even when `/s/` occurrences overlap |
| Text.SuffixAfterLastChar | 1a_url_to_article.py:77-79 | for a one-character separator, the separator-free suffix that follows the separator is unique, so the TechCrunch file name is determined |
| Text.Split | 1a_url_to_article.py:77 | the pieces of `split` join back to the string and contain no separator |
| Text.LinesRoundTrip | 1a_url_to_article.py:506-508 | when no entry holds a newline, splitting the manifest at newlines gives the entries in order, then the empty piece after the final newline |
| Text.WriteLines | 1a_url_to_article.py:506-508 | the write loop writes each entry followed by a newline |
| TechCrunchListing.DaysBeforeYearClosedForm | 0_techcrunch_news_url.py:98 | the days before year `y`, counted year by year, agree with the closed form of Python's ordinal |
| TechCrunchListing.DayNumberOrder | 0_techcrunch_news_url.py:102 | comparing dates by day number is the calendar's order |
| TechCrunchListing.FindDatePattern | 0_techcrunch_news_url.py:94 | `re.search(r'/(\d{4}/\d{2}/\d{2})/')` finds the first position where the pattern matches, and none exactly when no position matches |
| TechCrunchListing.UrlDateSpec | 0_techcrunch_news_url.py:94-98 | a URL has a date exactly when its first match is a date `strptime` accepts; that date is midnight |
| TechCrunchListing.FirstArticleIndex | 0_techcrunch_news_url.py:49-54 | the first anchor that names 2024 or 2025 and is not a `/category/` or `/tag/` link |
| TechCrunchListing.ChosenLink | 0_techcrunch_news_url.py:40-54 | a title link with an href wins; otherwise the first anchor that looks like an article is chosen, and no link only when none does |
| TechCrunchListing.ChooseLink | 0_techcrunch_news_url.py:40-54 | the link loop with its `break` picks the link `ChosenLink` describes |
| TechCrunchListing.LinkItem | 0_techcrunch_news_url.py:59-115 | a URL date overrides any earlier date; without `/tech-layoffs` an item is out of range exactly when its URL date is before the cutoff; a `/tech-layoffs` item is out of range when its tag date, or its URL date, is before the cutoff; an item with neither date is in range and undated |
| TechCrunchListing.ItemOf | 0_techcrunch_news_url.py:56-57 | a container is skipped exactly when it has no link or a `/category/` or `/tag/` link |
| TechCrunchListing.AnchorItem | 0_techcrunch_news_url.py:118-141 | the fallback keeps an anchor exactly when it names 2024 or 2025 and is not a `/category/`, `/tag/` or `/page/` link; its range is decided by its URL date |
| TechCrunchListing.ContainerItemsFiltered | 0_techcrunch_news_url.py:36-57 | every container item has a link, and not a `/category/` or `/tag/` one |
| TechCrunchListing.AnchorItemsFiltered | 0_techcrunch_news_url.py:118-121 | every fallback item names 2024 or 2025 and is no `/category/`, `/tag/` or `/page/` link |
| TechCrunchListing.FirstByUrlUrls | 0_techcrunch_news_url.py:143-149 | the dedup keeps every URL of its input and adds none |
| TechCrunchListing.FirstByUrlUnique | 0_techcrunch_news_url.py:143-149 | no URL is kept twice |
| TechCrunchListing.FirstByUrlOrder | 0_techcrunch_news_url.py:143-149 | the kept items are a subsequence of the input: order is preserved |
| TechCrunchListing.FirstByUrlKeepsFirst | 0_techcrunch_news_url.py:143-149 | the first item of every URL is the one kept |
| TechCrunchListing.DedupByUrl | 0_techcrunch_news_url.py:143-149 | the dict-based loop gives the first-occurrence dedup |
| TechCrunchListing.PageResultsFiltered | 0_techcrunch_news_url.py:52-57 | a page never yields a `/category/` or `/tag/` link, and a page without containers never yields a `/page/` link |
| TechCrunchListing.PageResultsUnique | 0_techcrunch_news_url.py:143-152 | no URL appears twice among a page's items |
| TechCrunchListing.ArticleUrlsFromPage | 0_techcrunch_news_url.py:9-156 | the page function with its container, anchor and dedup loops yields `PageResults`; a failed request yields nothing |
| TechCrunchListing.DecimalValue | 0_techcrunch_news_url.py:195 | the decimal digits of a page number read back as that number |
| TechCrunchListing.PageUrlsDistinct | 0_techcrunch_news_url.py:195 | different page numbers give different addresses |
| TechCrunchListing.CountsCoverPage | 0_techcrunch_news_url.py:207-218 | `recent_count + old_count` is the number of items on the page |
| TechCrunchListing.CollectedSpec | 0_techcrunch_news_url.py:211-216 | the pairs collected are exactly the in-range items that have a date |
| TechCrunchListing.Tally | 0_techcrunch_news_url.py:207-218 | the counting loop gives both counts and the collected pairs |
| TechCrunchListing.PageStep | 0_techcrunch_news_url.py:202-246 | one page's stop rules, streak update and collected pairs are those `Decide` describes |
| TechCrunchListing.CrawlFrom | 0_techcrunch_news_url.py:193-247 | the loop never ends before the page it starts from |
| TechCrunchListing.CrawlStops | 0_techcrunch_news_url.py:193-251 | the loop ends: on an empty page; at two old pages in a row; at a later page with no recent item; or past `max_pages`, with `current_page = max_pages + 1` |
| TechCrunchListing.CrawlContinues | 0_techcrunch_news_url.py:193-246 | every page before the last one read had items, had a recent item when not the first, and was not the second old page in a row |
| TechCrunchListing.CrawlCollects | 0_techcrunch_news_url.py:187-247 | `all_articles` is the concatenation of the pairs of every page read, in page order |
| TechCrunchListing.ReadPage | 0_techcrunch_news_url.py:195-200 | reading page `p` builds its address and yields that page's items |
| TechCrunchListing.Crawl | 0_techcrunch_news_url.py:187-251 | the `while` loop ends with the pairs, the page and the reason that `CrawlFrom` describes |
| TechCrunchListing.Absolute | 0_techcrunch_news_url.py:257-258 | a URL starting with `http` is kept unchanged; any other URL gets the site prefix `https://techcrunch.com` in front (its length is the two lengths added, see `AbsoluteRelative`); the result always starts with `http` |
| TechCrunchListing.AbsoluteIdempotent | 0_techcrunch_news_url.py:257-258 | making a URL absolute twice gives what making it absolute once gives |
| TechCrunchListing.AbsoluteRelative | 0_techcrunch_news_url.py:257-258 | a URL not starting with `http` becomes exactly the site followed by the URL |
| TechCrunchListing.LatestKeys | 0_techcrunch_news_url.py:254-262 | the dict holds each absolute URL once, and exactly the URLs of the collected pairs |
| TechCrunchListing.LatestIsMax | 0_techcrunch_news_url.py:254-262 | each URL's entry is the latest date any collected pair gives it |
| TechCrunchListing.InsertByDate | 0_techcrunch_news_url.py:266 | one step of the newest-first sort keeps the list sorted and adds exactly the new pair |
| TechCrunchListing.SortByDateDesc | 0_techcrunch_news_url.py:266 | `sort(key=date, reverse=True)` gives a newest-first reordering |
| TechCrunchListing.SortKeepsUrlsDistinct | 0_techcrunch_news_url.py:266 | sorting keeps the URLs distinct |
| TechCrunchListing.RankedDistinct | 0_techcrunch_news_url.py:253-266 | the written list names each URL once |
| TechCrunchListing.RankedLatest | 0_techcrunch_news_url.py:253-266 | every written URL is absolute and carries the latest date it was found with |
| TechCrunchListing.RankedComplete | 0_techcrunch_news_url.py:253-266 | every collected article is in the written list, made absolute |
| TechCrunchListing.RankArticles | 0_techcrunch_news_url.py:253-266 | the dict loop and the sort give the ranked list |
| TechCrunchListing.CrawlCategory | 0_techcrunch_news_url.py:158-274 | the file written lists the ranked URLs of the crawl, one per line, and the crawl stops for the reason `CrawlFrom` gives |

## Left out

**Outside the deterministic logic**
- Threads, `ThreadPoolExecutor` and `Lock`: the batches run one after the other, and each batch's completion order is an arbitrary reordering of it. The shared limiter, interleaved across workers, is not modelled.
- The wall clock and float seconds: the clock is integer milliseconds.
  - The time-dependent cutoff `datetime.now() - timedelta(days)` is an input (`cutoffs`, one per page).
  - `time.sleep(2)` between listing pages, the 1 s or 2 s page waits and the 5 s pause between scraper batches are not modelled, because nothing the code computes depends on them.
- The Selenium driver, the CDP calls, WeChat verification clicking and `driver.quit`: any of these either raises or yields a page, which is the `Load` an attempt receives.
- BeautifulSoup selection and the regular expression fallback: a page is its selector results, and the fallback text is an input.
- `requests.get`, the OpenAI client and md5 are parameters.
- The ISO `datetime[T]` parsing of `time` tags (0_techcrunch_news_url.py lines 64-71): the tag's date is an input. The `TypeError` that comparing offset-aware and naive datetimes would raise is not modelled.
- Prints, progress callbacks, `sys.exit`, `.env` loading, argparse defaults, directory creation, and the timestamped output file names. A run's end is a datatype value (`RunEnd`, `ScrapeEnd`).
- A failing file write is not modelled. Reading the article list or URL list is modelled as its lines, or as a missing file.

**Simplifications**
- `isdigit` and `\d` are the ASCII digits only.
- `old_count / len(articles) > 0.5` is stated as `2 * old_count > len(articles)`.
- File contents are Unicode strings. Encodings are not modelled.
- TechCrunchListing.SortByDateDesc: it is proved sorted newest first and a permutation, but the source's stability for equal dates is not stated as a lemma.
- The two `RateLimiter` classes do not model the shared `Lock`.
- `ghost admissions` counts `acquire` calls so the worker methods can state "one `acquire` per call", and `ghost slept` totals the time those calls sleep so the workers can state their exact time. Neither is a field of the source.
- ArticleScraper.ScrapeArticle: it returns the content to be written instead of writing the file, and an existing file is an input (`FileState`).
- AbstractMd.FetchMarkdown and ArticleAbstract.GenerateAbstract: `waited` is tied to the limiter's ghost `slept` total, but how long each `acquire` sleeps depends on the window state left by the other workers sharing the limiter, so the workers' contracts give no bound on it beyond the one each `Acquire` call keeps.
- ArticleScraper.Run: each task's skip guard sees the output file as it was before the run (`files`). A file written earlier in the same run is not seen by a later task whose URL maps to the same path. Two such URLs, for example `https://techcrunch.com/2025/01/01/x/` and `https://techcrunch.com/2025/01/08/x/` in different batches, can therefore give a different manifest from the source's, where the later task finds the earlier task's file.
- Aggregate.NonBlankLines: its own contract does not state the order or the completeness of the URLs; `NonBlankLinesConcat` and `NonBlankLinesOne` state both, as the recursive definition makes them awkward to state in one `ensures`.
- Aggregate.Texts: its own contract states membership both ways, not order; `TextsConcat` and `TextsOne` state the order and the repeats.
- ArticleScraper.LongTextsSpec: it states membership both ways, not order; `LongTextsConcat` and `LongTextsOne` state the order and the repeats.
- `fetch_markdown` is called by `main` with both per-site models always set, so the `None` branch of `SpecificModelId` is reachable only when the worker is called directly.

**Other files of the repository**
- These are not part of this model: `0_sqlite_to_articles.py`, `0_wechat_news_url.py`, `2_abstract_md_to_summary.py`, `2_abstract_to_summary.py`, `3_md_to_pdf.py`, `4_save_to_dropbox.py`, `get_refresh_token.py` and `1_url_to_abstract_md_wrapper.py`.
- The one exception is the WeChat article address form: `https://mp.weixin.qq.com/s/` followed by the id. It is `ArticleScraper.WeChatBase`.
