/** The TechCrunch listing crawler of 0_techcrunch_news_url.py: picking the
    article link and date of each container on a category page, the
    per-page dedup, the page loop with its stop rules, and the final list
    of absolute URLs, each with its latest date, newest first.

    Dates are integer seconds on one time line: a date written in a URL is
    its proleptic Gregorian day number (Python's `date.toordinal()`) times
    86400, as a naive `datetime` at midnight; the dates the page's `time`
    tags give and the cutoff are inputs on the same line. */
module TechCrunchListing {
  import opened Common
  import opened Text
  import opened Aggregate

  // ------------------------------------------------------------------
  // Calendar dates
  // ------------------------------------------------------------------

  const SecondsPerDay := 86400

  predicate IsLeap(y: int) {
    y % 4 == 0 && (y % 100 != 0 || y % 400 == 0)
  }

  function DaysInMonth(y: int, m: int): (n: int)
    requires 1 <= m <= 12
    ensures 28 <= n <= 31
  {
    if m == 2 then (if IsLeap(y) then 29 else 28)
    else if m == 4 || m == 6 || m == 9 || m == 11 then 30
    else 31
  }

  /** The days of year `y` before month `m` (`m == 13`: the whole year). */
  function DaysBeforeMonth(y: int, m: int): (n: nat)
    requires 1 <= m <= 13
    decreases m
  {
    if m == 1 then 0 else DaysBeforeMonth(y, m - 1) + DaysInMonth(y, m - 1)
  }

  function YearLength(y: int): nat {
    if IsLeap(y) then 366 else 365
  }

  /** The days before January 1st of year `y`, counting from year 1. */
  function DaysBeforeYear(y: int): nat
    decreases y
  {
    if y <= 1 then 0 else DaysBeforeYear(y - 1) + YearLength(y - 1)
  }

  /** The twelve months add up to the year's length. */
  lemma YearDays(y: int)
    ensures DaysBeforeMonth(y, 13) == YearLength(y)
  {
    assert DaysBeforeMonth(y, 2) == 31;
    assert DaysBeforeMonth(y, 3) == 31 + DaysInMonth(y, 2);
    assert DaysBeforeMonth(y, 4) == 62 + DaysInMonth(y, 2);
    assert DaysBeforeMonth(y, 5) == 92 + DaysInMonth(y, 2);
    assert DaysBeforeMonth(y, 6) == 123 + DaysInMonth(y, 2);
    assert DaysBeforeMonth(y, 7) == 153 + DaysInMonth(y, 2);
    assert DaysBeforeMonth(y, 8) == 184 + DaysInMonth(y, 2);
    assert DaysBeforeMonth(y, 9) == 215 + DaysInMonth(y, 2);
    assert DaysBeforeMonth(y, 10) == 245 + DaysInMonth(y, 2);
    assert DaysBeforeMonth(y, 11) == 276 + DaysInMonth(y, 2);
    assert DaysBeforeMonth(y, 12) == 306 + DaysInMonth(y, 2);
  }

  /** The count agrees with the closed form of Python's
      `_days_before_year`. */
  lemma {:induction false} DaysBeforeYearClosedForm(y: int)
    requires y >= 1
    ensures DaysBeforeYear(y) == 365 * (y - 1) + (y - 1) / 4 - (y - 1) / 100 + (y - 1) / 400
    decreases y
  {
    if y > 1 {
      assert DaysBeforeYear(y) == DaysBeforeYear(y - 1) + YearLength(y - 1);
      DaysBeforeYearClosedForm(y - 1);
      ClosedFormStep(y - 2);
    }
  }

  /** One more year adds its length to the closed form. */
  lemma ClosedFormStep(a: int)
    requires a >= 0
    ensures 365 * (a + 1) + (a + 1) / 4 - (a + 1) / 100 + (a + 1) / 400
      == 365 * a + a / 4 - a / 100 + a / 400 + YearLength(a + 1)
  {
    LeapSteps(a);
    LeapDivisors(a + 1);
  }

  lemma LeapDivisors(b: int)
    ensures b % 400 == 0 ==> b % 100 == 0
    ensures b % 100 == 0 ==> b % 4 == 0
  {
    if b % 400 == 0 {
      MultipleMod(b, 100, 4);
    }
    if b % 100 == 0 {
      MultipleMod(b, 4, 25);
    }
  }

  /** A multiple of `m * k` is a multiple of `m`. */
  lemma MultipleMod(b: int, m: int, k: int)
    requires m > 0 && k > 0 && b % (m * k) == 0
    ensures b % m == 0
  {
    var q := b / (m * k);
    assert b == (m * k) * q;
    assert b == m * (k * q);
  }

  /** The three quotients of the closed form step up with the leap rule. */
  lemma LeapSteps(a: int)
    requires a >= 0
    ensures (a + 1) / 4 == a / 4 + (if (a + 1) % 4 == 0 then 1 else 0)
    ensures (a + 1) / 100 == a / 100 + (if (a + 1) % 100 == 0 then 1 else 0)
    ensures (a + 1) / 400 == a / 400 + (if (a + 1) % 400 == 0 then 1 else 0)
  {
  }

  /** The dates `datetime.strptime` accepts: years 1 to 9999, real days. */
  predicate ValidDate(y: int, m: int, d: int) {
    1 <= y <= 9999 && 1 <= m <= 12 && 1 <= d <= DaysInMonth(y, m)
  }

  /** `date(y, m, d).toordinal()` */
  function DayNumber(y: int, m: int, d: int): int
    requires ValidDate(y, m, d)
  {
    DaysBeforeYear(y) + DaysBeforeMonth(y, m) + d
  }

  predicate DateBefore(y1: int, m1: int, d1: int, y2: int, m2: int, d2: int) {
    y1 < y2 || (y1 == y2 && (m1 < m2 || (m1 == m2 && d1 < d2)))
  }

  lemma {:induction false} MonthsMonotone(y: int, m1: int, m2: int)
    requires 1 <= m1 <= m2 <= 13
    ensures DaysBeforeMonth(y, m1) <= DaysBeforeMonth(y, m2)
    decreases m2
  {
    if m1 < m2 {
      MonthsMonotone(y, m1, m2 - 1);
    }
  }

  lemma {:induction false} YearsMonotone(y1: int, y2: int)
    requires 1 <= y1 <= y2
    ensures DaysBeforeYear(y1) + YearLength(y1) <= DaysBeforeYear(y2 + 1)
    decreases y2
  {
    if y1 < y2 {
      YearsMonotone(y1, y2 - 1);
    }
  }

  /** A valid date falls inside its year. */
  lemma WithinYear(y: int, m: int, d: int)
    requires ValidDate(y, m, d)
    ensures DaysBeforeMonth(y, m) + d <= YearLength(y)
  {
    MonthsMonotone(y, m + 1, 13);
    YearDays(y);
  }

  lemma EarlierDayNumber(y1: int, m1: int, d1: int, y2: int, m2: int, d2: int)
    requires ValidDate(y1, m1, d1) && ValidDate(y2, m2, d2)
    requires DateBefore(y1, m1, d1, y2, m2, d2)
    ensures DayNumber(y1, m1, d1) < DayNumber(y2, m2, d2)
  {
    if y1 < y2 {
      EarlierYear(y1, m1, d1, y2, m2, d2);
    } else if m1 < m2 {
      EarlierMonth(y1, m1, d1, m2, d2);
    }
  }

  lemma EarlierYear(y1: int, m1: int, d1: int, y2: int, m2: int, d2: int)
    requires ValidDate(y1, m1, d1) && ValidDate(y2, m2, d2) && y1 < y2
    ensures DayNumber(y1, m1, d1) < DayNumber(y2, m2, d2)
  {
    WithinYear(y1, m1, d1);
    YearsMonotone(y1, y2 - 1);
  }

  lemma EarlierMonth(y: int, m1: int, d1: int, m2: int, d2: int)
    requires ValidDate(y, m1, d1) && ValidDate(y, m2, d2) && m1 < m2
    ensures DayNumber(y, m1, d1) < DayNumber(y, m2, d2)
  {
    MonthsMonotone(y, m1 + 1, m2);
  }

  /** Day numbers order dates as the calendar does, so comparing the
      integers is comparing the `datetime`s. */
  lemma DayNumberOrder(y1: int, m1: int, d1: int, y2: int, m2: int, d2: int)
    requires ValidDate(y1, m1, d1) && ValidDate(y2, m2, d2)
    ensures DateBefore(y1, m1, d1, y2, m2, d2) <==> DayNumber(y1, m1, d1) < DayNumber(y2, m2, d2)
  {
    if DateBefore(y1, m1, d1, y2, m2, d2) {
      EarlierDayNumber(y1, m1, d1, y2, m2, d2);
    } else if DateBefore(y2, m2, d2, y1, m1, d1) {
      EarlierDayNumber(y2, m2, d2, y1, m1, d1);
    }
  }

  // ------------------------------------------------------------------
  // The date in a URL: re.search(r'/(\d{4}/\d{2}/\d{2})/', link)
  // ------------------------------------------------------------------

  predicate IsDigit(c: char) {
    '0' <= c <= '9'
  }

  /** The value of a string of decimal digits. */
  function DigitsValue(s: string): (v: nat)
    requires forall i :: 0 <= i < |s| ==> IsDigit(s[i])
    decreases |s|
  {
    if |s| == 0 then 0
    else
      var c := s[|s| - 1];
      assert IsDigit(c);
      DigitsValue(s[..|s| - 1]) * 10 + (c as int - '0' as int)
  }

  /** `/dddd/dd/dd/` starts at position `i` of `s`. */
  predicate DatePatternAt(s: string, i: int) {
    0 <= i && i + 12 <= |s|
    && s[i] == '/' && IsDigit(s[i + 1]) && IsDigit(s[i + 2]) && IsDigit(s[i + 3]) && IsDigit(s[i + 4])
    && s[i + 5] == '/' && IsDigit(s[i + 6]) && IsDigit(s[i + 7])
    && s[i + 8] == '/' && IsDigit(s[i + 9]) && IsDigit(s[i + 10])
    && s[i + 11] == '/'
  }

  /** The first position at or after `from` where the pattern matches. */
  function FindDatePattern(s: string, from: nat): (k: Option<nat>)
    ensures k.Some? ==> from <= k.value && DatePatternAt(s, k.value)
    ensures forall j :: from <= j && (k.None? || j < k.value) ==> !DatePatternAt(s, j)
    decreases |s| - from
  {
    if from + 12 > |s| then None
    else if DatePatternAt(s, from) then Some(from)
    else FindDatePattern(s, from + 1)
  }

  /** The three numbers of the pattern at `i`. */
  function PatternYear(s: string, i: int): nat
    requires DatePatternAt(s, i)
  {
    DigitsValue(s[i + 1..i + 5])
  }

  function PatternMonth(s: string, i: int): nat
    requires DatePatternAt(s, i)
  {
    DigitsValue(s[i + 6..i + 8])
  }

  function PatternDay(s: string, i: int): nat
    requires DatePatternAt(s, i)
  {
    DigitsValue(s[i + 9..i + 11])
  }

  /** The date of the first `/YYYY/MM/DD/` in `link`, None when there is no
      such match or `strptime` rejects it (month 13, February 30th, year 0);
      a later match is not tried. */
  function UrlDate(link: string): Option<int> {
    match FindDatePattern(link, 0)
    case None => None
    case Some(i) =>
      var y, m, d := PatternYear(link, i), PatternMonth(link, i), PatternDay(link, i);
      if ValidDate(y, m, d) then Some(DayNumber(y, m, d) * SecondsPerDay) else None
  }

  /** A URL has a date exactly when its first match is a real date; the
      date is midnight of that day. */
  lemma UrlDateSpec(link: string)
    ensures UrlDate(link).Some? <==> exists i :: (DatePatternAt(link, i)
      && (forall j :: 0 <= j < i ==> !DatePatternAt(link, j))
      && ValidDate(PatternYear(link, i), PatternMonth(link, i), PatternDay(link, i)))
    ensures UrlDate(link).Some? ==> UrlDate(link).value % SecondsPerDay == 0
  {
    var k := FindDatePattern(link, 0);
    if k.Some? {
      var i := k.value;
      forall i' | DatePatternAt(link, i') && (forall j :: 0 <= j < i' ==> !DatePatternAt(link, j))
        ensures i' == i
      {
        if i' != i {
          assert false;
        }
      }
    }
  }

  // ------------------------------------------------------------------
  // One category page: get_article_urls_from_page
  // ------------------------------------------------------------------

  /** One `div.post-block` (or `article`) container: the `href` of its first
      `h2 a, h3 a, h4 a` anchor when that anchor has one, the `href`s of its
      `a[href]` anchors in document order, and the date its
      `time[datetime]` tag gave (parsing that tag is not part of this model). */
  datatype Container = Container(titleHref: Option<string>, hrefs: seq<string>, tagDate: Option<int>)

  /** What the parser saw on a page: the `div.post-block` containers, the
      `article` containers and the `href` of every anchor, in document order. */
  datatype CategoryPage = CategoryPage(postBlocks: seq<Container>, articles: seq<Container>, anchors: seq<string>)

  /** The answer to `requests.get`; any failure makes the page yield nothing. */
  datatype Fetch = Fetched(page: CategoryPage) | FetchFailed

  /** One `(url, date, is_within_range)` triple. */
  datatype Item = Item(url: string, date: Option<int>, inRange: bool)

  predicate HasYear(h: string) {
    Contains(h, "/2025/") || Contains(h, "/2024/")
  }

  predicate Excluded(h: string) {
    Contains(h, "/category/") || Contains(h, "/tag/")
  }

  /** The heuristic that picks an article link among a container's anchors. */
  predicate LooksLikeArticle(h: string) {
    HasYear(h) && !Excluded(h)
  }

  /** The position of the first href that looks like an article, `|hrefs|`
      when none does. */
  function FirstArticleIndex(hrefs: seq<string>): (i: nat)
    ensures i <= |hrefs|
    ensures i < |hrefs| ==> LooksLikeArticle(hrefs[i])
    ensures forall j :: 0 <= j < i ==> !LooksLikeArticle(hrefs[j])
    decreases |hrefs|
  {
    if |hrefs| == 0 then 0
    else if LooksLikeArticle(hrefs[0]) then 0
    else 1 + FirstArticleIndex(hrefs[1..])
  }

  /** The container's link; the empty string stands for Python's falsy
      `link` (None, or an empty title `href`). */
  function ChosenLink(c: Container): (link: string)
    ensures c.titleHref.Some? && c.titleHref.value != "" ==> link == c.titleHref.value
    ensures (c.titleHref.None? || c.titleHref.value == "") ==>
      (link == "" <==> forall j :: 0 <= j < |c.hrefs| ==> !LooksLikeArticle(c.hrefs[j]))
    ensures (c.titleHref.None? || c.titleHref.value == "") && link != "" ==>
      exists i :: 0 <= i < |c.hrefs| && c.hrefs[i] == link && LooksLikeArticle(link)
        && forall j :: 0 <= j < i ==> !LooksLikeArticle(c.hrefs[j])
  {
    if c.titleHref.Some? && c.titleHref.value != "" then c.titleHref.value
    else
      var i := FirstArticleIndex(c.hrefs);
      if i < |c.hrefs| then c.hrefs[i] else ""
  }

  /** The link search of lines 40-54, with its early `break`. */
  method ChooseLink(c: Container) returns (link: string)
    ensures link == ChosenLink(c)
  {
    link := "";
    if c.titleHref.Some? {
      link := c.titleHref.value;
    }
    if link == "" {
      var i := 0;
      while i < |c.hrefs|
        invariant 0 <= i <= |c.hrefs|
        invariant link == ""
        invariant forall j :: 0 <= j < i ==> !LooksLikeArticle(c.hrefs[j])
      {
        if LooksLikeArticle(c.hrefs[i]) {
          link := c.hrefs[i];
          break;
        }
        i := i + 1;
      }
    }
  }

  /** The triple for a kept container link: the time-tag date, else (when
      the link names 2024 or 2025) its URL date, is checked for
      `/tech-layoffs` links; then a URL date, when there is one, replaces
      it and decides the range. */
  function LinkItem(link: string, tagDate: Option<int>, cutoff: int): (r: Item)
    ensures r.url == link
    ensures UrlDate(link).Some? ==> r.date == UrlDate(link)
    ensures UrlDate(link).None? ==> r.date == tagDate
    ensures !Contains(link, "/tech-layoffs") ==>
      (r.inRange <==> UrlDate(link).None? || UrlDate(link).value >= cutoff)
    ensures UrlDate(link).Some? && tagDate.None? ==> (r.inRange <==> r.date.value >= cutoff)
    ensures Contains(link, "/tech-layoffs") && tagDate.Some? ==>
      (r.inRange <==> tagDate.value >= cutoff && (UrlDate(link).None? || UrlDate(link).value >= cutoff))
    ensures tagDate.None? && UrlDate(link).None? ==> r.inRange && r.date.None?
  {
    var urlDate := UrlDate(link);
    var earlier := if tagDate.Some? then tagDate else if HasYear(link) then urlDate else None;
    var staleList := Contains(link, "/tech-layoffs") && earlier.Some? && earlier.value < cutoff;
    var date := if urlDate.Some? then urlDate else earlier;
    Item(link, date, !staleList && !(urlDate.Some? && urlDate.value < cutoff))
  }

  /** A container's triple, None when it is skipped (`continue`). */
  function ItemOf(c: Container, cutoff: int): (r: Option<Item>)
    ensures r.Some? ==> r.value.url == ChosenLink(c) && r.value.url != "" && !Excluded(r.value.url)
    ensures r.None? <==> ChosenLink(c) == "" || Excluded(ChosenLink(c))
  {
    var link := ChosenLink(c);
    if link == "" || Excluded(link) then None else Some(LinkItem(link, c.tagDate, cutoff))
  }

  function ContainerItems(cs: seq<Container>, cutoff: int): seq<Item>
    decreases |cs|
  {
    if |cs| == 0 then []
    else
      var init := ContainerItems(cs[..|cs| - 1], cutoff);
      match ItemOf(cs[|cs| - 1], cutoff)
      case Some(it) => init + [it]
      case None => init
  }

  /** The last-resort triple for an anchor of a page without containers. */
  function AnchorItem(h: string, cutoff: int): (r: Option<Item>)
    ensures r.Some? <==> HasYear(h) && !Excluded(h) && !EndsWith(h, "/page/")
    ensures r.Some? ==>
      && r.value.url == h && r.value.date == UrlDate(h)
      && (r.value.inRange <==> UrlDate(h).None? || UrlDate(h).value >= cutoff)
  {
    if HasYear(h) && !Excluded(h) && !EndsWith(h, "/page/") then
      var date := UrlDate(h);
      Some(Item(h, date, !(date.Some? && date.value < cutoff)))
    else None
  }

  function AnchorItems(hs: seq<string>, cutoff: int): seq<Item>
    decreases |hs|
  {
    if |hs| == 0 then []
    else
      var init := AnchorItems(hs[..|hs| - 1], cutoff);
      match AnchorItem(hs[|hs| - 1], cutoff)
      case Some(it) => init + [it]
      case None => init
  }

  /** Every container triple has a link, and not a `/category/` or `/tag/`
      one. */
  lemma {:induction false} ContainerItemsFiltered(cs: seq<Container>, cutoff: int)
    ensures forall it :: it in ContainerItems(cs, cutoff) ==> it.url != "" && !Excluded(it.url)
    decreases |cs|
  {
    if |cs| > 0 {
      ContainerItemsFiltered(cs[..|cs| - 1], cutoff);
    }
  }

  /** Every fallback triple names 2024 or 2025 and is neither a
      `/category/`, a `/tag/` nor a `/page/` link. */
  lemma {:induction false} AnchorItemsFiltered(hs: seq<string>, cutoff: int)
    ensures forall it :: it in AnchorItems(hs, cutoff) ==>
      HasYear(it.url) && !Excluded(it.url) && !EndsWith(it.url, "/page/")
    decreases |hs|
  {
    if |hs| > 0 {
      AnchorItemsFiltered(hs[..|hs| - 1], cutoff);
    }
  }

  /** `soup.select('div.post-block')`, or `soup.select('article')` when that
      finds nothing. */
  function Containers(p: CategoryPage): seq<Container> {
    if |p.postBlocks| > 0 then p.postBlocks else p.articles
  }

  /** The `results` list before the dedup. */
  function RawItems(p: CategoryPage, cutoff: int): seq<Item> {
    if |Containers(p)| > 0 then ContainerItems(Containers(p), cutoff) else AnchorItems(p.anchors, cutoff)
  }

  // ------------------------------------------------------------------
  // Per-page dedup (lines 144-149)
  // ------------------------------------------------------------------

  function ItemUrls(s: seq<Item>): (us: seq<string>)
    ensures |us| == |s| && forall i :: 0 <= i < |s| ==> us[i] == s[i].url
  {
    seq(|s|, i requires 0 <= i < |s| => s[i].url)
  }

  predicate NoDuplicates(us: seq<string>) {
    forall i, j :: 0 <= i < j < |us| ==> us[i] != us[j]
  }

  /** `x` is `y` with some elements removed. */
  predicate IsSubsequence<T(==)>(x: seq<T>, y: seq<T>)
    decreases |y|
  {
    if |x| == 0 then true
    else if |y| == 0 then false
    else if x[|x| - 1] == y[|y| - 1] then IsSubsequence(x[..|x| - 1], y[..|y| - 1])
    else IsSubsequence(x, y[..|y| - 1])
  }

  /** Each triple whose URL has not been seen before, in input order. */
  function FirstByUrl(s: seq<Item>): (r: seq<Item>)
    ensures forall it :: it in r ==> it in s
    decreases |s|
  {
    if |s| == 0 then []
    else
      var init := s[..|s| - 1];
      var last := s[|s| - 1];
      FirstByUrl(init) + (if last.url in ItemUrls(init) then [] else [last])
  }

  lemma {:induction false} SubsequenceSnoc<T>(x: seq<T>, y: seq<T>, e: T)
    requires IsSubsequence(x, y)
    ensures IsSubsequence(x, y + [e])
    ensures IsSubsequence(x + [e], y + [e])
    decreases |y|, 1
  {
    assert (y + [e])[..|y|] == y;
    assert (x + [e])[..|x|] == x;
    if |x| > 0 && x[|x| - 1] == e {
      SubsequenceDropLast(x, y);
    }
  }

  lemma {:induction false} SubsequenceDropLast<T>(x: seq<T>, y: seq<T>)
    requires |x| > 0 && IsSubsequence(x, y)
    ensures IsSubsequence(x[..|x| - 1], y)
    decreases |y|, 0
  {
    var yi := y[..|y| - 1];
    assert y == yi + [y[|y| - 1]];
    if x[|x| - 1] == y[|y| - 1] {
      SubsequenceSnoc(x[..|x| - 1], yi, y[|y| - 1]);
    } else {
      SubsequenceDropLast(x, yi);
      SubsequenceSnoc(x[..|x| - 1], yi, y[|y| - 1]);
    }
  }

  /** The dedup keeps every URL of its input and no other. */
  lemma {:induction false} FirstByUrlUrls(s: seq<Item>)
    ensures forall u :: u in ItemUrls(FirstByUrl(s)) <==> u in ItemUrls(s)
    decreases |s|
  {
    if |s| > 0 {
      var init := s[..|s| - 1];
      var last := s[|s| - 1];
      FirstByUrlUrls(init);
      assert s == init + [last];
      assert forall u :: u in ItemUrls(s) <==> u in ItemUrls(init) || u == last.url;
      var us := ItemUrls(FirstByUrl(init));
      if last.url !in ItemUrls(init) {
        assert ItemUrls(FirstByUrl(s)) == us + [last.url];
      } else {
        assert FirstByUrl(s) == FirstByUrl(init);
      }
    }
  }

  /** No URL is kept twice. */
  lemma {:induction false} FirstByUrlUnique(s: seq<Item>)
    ensures NoDuplicates(ItemUrls(FirstByUrl(s)))
    decreases |s|
  {
    if |s| > 0 {
      var init := s[..|s| - 1];
      var last := s[|s| - 1];
      FirstByUrlUnique(init);
      FirstByUrlUrls(init);
      if last.url !in ItemUrls(init) {
        var us := ItemUrls(FirstByUrl(init));
        assert last.url !in us;
        assert ItemUrls(FirstByUrl(s)) == us + [last.url];
        forall i, j | 0 <= i < j < |us| + 1
          ensures (us + [last.url])[i] != (us + [last.url])[j]
        {
          if j == |us| {
            assert us[i] in us;
          }
        }
      } else {
        assert FirstByUrl(s) == FirstByUrl(init);
      }
    }
  }

  /** The kept triples keep their input order. */
  lemma {:induction false} FirstByUrlOrder(s: seq<Item>)
    ensures IsSubsequence(FirstByUrl(s), s)
    decreases |s|
  {
    if |s| > 0 {
      var init := s[..|s| - 1];
      var last := s[|s| - 1];
      var r := FirstByUrl(init);
      FirstByUrlOrder(init);
      SubsequenceSnoc(r, init, last);
      assert s == init + [last];
      assert FirstByUrl(s) == r || FirstByUrl(s) == r + [last];
    }
  }

  /** The first triple of every URL is kept. */
  lemma {:induction false} FirstByUrlKeepsFirst(s: seq<Item>)
    ensures forall i :: 0 <= i < |s| && s[i].url !in ItemUrls(s[..i]) ==> s[i] in FirstByUrl(s)
    decreases |s|
  {
    if |s| > 0 {
      var init := s[..|s| - 1];
      FirstByUrlKeepsFirst(init);
      forall i | 0 <= i < |s| && s[i].url !in ItemUrls(s[..i])
        ensures s[i] in FirstByUrl(s)
      {
        if i < |init| {
          assert s[..i] == init[..i];
          assert init[i] == s[i];
        } else {
          assert s[..i] == init;
        }
      }
    }
  }

  /** The dedup loop over a dict keyed by URL. */
  method DedupByUrl(results: seq<Item>) returns (filtered: seq<Item>)
    ensures filtered == FirstByUrl(results)
  {
    var unique: map<string, (Option<int>, bool)> := map[];
    filtered := [];
    for i := 0 to |results|
      invariant filtered == FirstByUrl(results[..i])
      invariant forall u :: u in unique <==> u in ItemUrls(results[..i])
    {
      var it := results[i];
      assert results[..i + 1][..i] == results[..i];
      assert forall u :: u in ItemUrls(results[..i + 1]) <==> u in ItemUrls(results[..i]) || u == it.url;
      if it.url !in unique {
        unique := unique[it.url := (it.date, it.inRange)];
        filtered := filtered + [it];
      }
    }
    assert results[..|results|] == results;
  }

  /** The list `get_article_urls_from_page` returns. */
  function PageResults(f: Fetch, cutoff: int): seq<Item> {
    match f
    case FetchFailed => []
    case Fetched(p) => FirstByUrl(RawItems(p, cutoff))
  }

  /** No `/category/` or `/tag/` link is ever returned, and a page without
      containers returns no link ending in `/page/`. */
  lemma PageResultsFiltered(f: Fetch, cutoff: int)
    ensures forall it :: it in PageResults(f, cutoff) ==> !Excluded(it.url)
    ensures f.Fetched? && |Containers(f.page)| == 0 ==>
      forall it :: it in PageResults(f, cutoff) ==> !EndsWith(it.url, "/page/")
  {
    if f.Fetched? {
      ContainerItemsFiltered(Containers(f.page), cutoff);
      AnchorItemsFiltered(f.page.anchors, cutoff);
    }
  }

  /** No URL appears twice among a page's triples. */
  lemma PageResultsUnique(f: Fetch, cutoff: int)
    ensures NoDuplicates(ItemUrls(PageResults(f, cutoff)))
  {
    if f.Fetched? {
      FirstByUrlUnique(RawItems(f.page, cutoff));
    }
  }

  /** `get_article_urls_from_page(url, days)` on the response for `url`,
      with `cutoff` standing for `datetime.now() - timedelta(days=days)`. */
  method ArticleUrlsFromPage(f: Fetch, cutoff: int) returns (items: seq<Item>)
    ensures items == PageResults(f, cutoff)
  {
    if f.FetchFailed? {
      return [];
    }
    var page := f.page;
    var containers := page.postBlocks;
    if |containers| == 0 {
      containers := page.articles;
    }
    var results: seq<Item> := [];
    if |containers| > 0 {
      for i := 0 to |containers|
        invariant results == ContainerItems(containers[..i], cutoff)
      {
        assert containers[..i + 1][..i] == containers[..i];
        var link := ChooseLink(containers[i]);
        if link != "" && !Excluded(link) {
          results := results + [LinkItem(link, containers[i].tagDate, cutoff)];
        }
      }
      assert containers[..|containers|] == containers;
    } else {
      for i := 0 to |page.anchors|
        invariant results == AnchorItems(page.anchors[..i], cutoff)
      {
        assert page.anchors[..i + 1][..i] == page.anchors[..i];
        var href := page.anchors[i];
        if HasYear(href) && !Excluded(href) && !EndsWith(href, "/page/") {
          var date := UrlDate(href);
          results := results + [Item(href, date, !(date.Some? && date.value < cutoff))];
        }
      }
      assert page.anchors[..|page.anchors|] == page.anchors;
    }
    items := DedupByUrl(results);
  }

  // ------------------------------------------------------------------
  // Page addresses
  // ------------------------------------------------------------------

  const CategoryBase := "https://techcrunch.com/category/artificial-intelligence"

  function DigitChar(d: int): (c: char)
    requires 0 <= d < 10
    ensures IsDigit(c) && c as int - '0' as int == d
  {
    (48 + d) as char
  }

  /** `str(n)` for a natural number. */
  function Decimal(n: nat): (s: string)
    ensures |s| >= 1 && forall i :: 0 <= i < |s| ==> IsDigit(s[i])
    decreases n
  {
    if n < 10 then [DigitChar(n)] else Decimal(n / 10) + [DigitChar(n % 10)]
  }

  /** Reading the digits back gives the number. */
  lemma {:induction false} DecimalValue(n: nat)
    ensures DigitsValue(Decimal(n)) == n
    decreases n
  {
    var s := Decimal(n);
    if n < 10 {
      assert s[..0] == [];
    } else {
      DecimalValue(n / 10);
      assert s[..|s| - 1] == Decimal(n / 10);
    }
  }

  /** The address of page `p` of the category. */
  function PageUrl(p: nat): string {
    if p == 1 then CategoryBase else CategoryBase + "/page/" + Decimal(p) + "/"
  }

  lemma MiddleEqual(a: string, x: string, y: string, b: string)
    requires a + x + b == a + y + b
    ensures x == y
  {
    var s, t := a + x + b, a + y + b;
    assert x == s[|a|..|s| - |b|];
    assert y == t[|a|..|t| - |b|];
  }

  /** Different page numbers give different addresses, so no page is
      fetched twice. */
  lemma PageUrlsDistinct(p: nat, q: nat)
    requires p != q
    ensures PageUrl(p) != PageUrl(q)
  {
    if p != 1 && q != 1 && PageUrl(p) == PageUrl(q) {
      MiddleEqual(CategoryBase + "/page/", Decimal(p), Decimal(q), "/");
      DecimalValue(p);
      DecimalValue(q);
    }
  }

  // ------------------------------------------------------------------
  // The page loop of main (lines 187-251)
  // ------------------------------------------------------------------

  /** `old_article_threshold` */
  const OldThreshold := 10

  /** An `(article_url, article_date)` pair. */
  datatype Dated = Dated(url: string, date: int)

  function RecentCount(items: seq<Item>): nat
    decreases |items|
  {
    if |items| == 0 then 0
    else RecentCount(items[..|items| - 1]) + (if items[|items| - 1].inRange then 1 else 0)
  }

  function OldCount(items: seq<Item>): nat
    decreases |items|
  {
    if |items| == 0 then 0
    else OldCount(items[..|items| - 1]) + (if items[|items| - 1].inRange then 0 else 1)
  }

  /** Every triple of a page is counted once, as recent or as old. */
  lemma {:induction false} CountsCoverPage(items: seq<Item>)
    ensures RecentCount(items) + OldCount(items) == |items|
    decreases |items|
  {
    if |items| > 0 {
      CountsCoverPage(items[..|items| - 1]);
    }
  }

  /** The pairs a page adds to `all_articles`: its in-range triples that
      have a date. */
  function Collected(items: seq<Item>): seq<Dated>
    decreases |items|
  {
    if |items| == 0 then []
    else
      var init, last := items[..|items| - 1], items[|items| - 1];
      Collected(init) + (if last.inRange && last.date.Some? then [Dated(last.url, last.date.value)] else [])
  }

  /** The pairs kept are exactly the in-range dated items. */
  lemma {:induction false} CollectedSpec(items: seq<Item>)
    ensures forall d :: d in Collected(items) ==> Item(d.url, Some(d.date), true) in items
    ensures forall i :: 0 <= i < |items| && items[i].inRange && items[i].date.Some? ==>
      Dated(items[i].url, items[i].date.value) in Collected(items)
    decreases |items|
  {
    if |items| > 0 {
      var init, last := items[..|items| - 1], items[|items| - 1];
      assert items == init + [last];
      CollectedSpec(init);
    }
  }

  /** The loop over one page's triples (lines 207-218). */
  method Tally(items: seq<Item>) returns (recentCount: nat, oldCount: nat, dated: seq<Dated>)
    ensures recentCount == RecentCount(items) && oldCount == OldCount(items)
    ensures dated == Collected(items)
  {
    recentCount, oldCount, dated := 0, 0, [];
    for i := 0 to |items|
      invariant recentCount == RecentCount(items[..i]) && oldCount == OldCount(items[..i])
      invariant dated == Collected(items[..i])
    {
      assert items[..i + 1][..i] == items[..i];
      if items[i].inRange {
        recentCount := recentCount + 1;
        if items[i].date.Some? {
          dated := dated + [Dated(items[i].url, items[i].date.value)];
        }
      } else {
        oldCount := oldCount + 1;
      }
    }
    assert items[..|items|] == items;
  }

  /** A page with many old triples: more than half of them on page 2 or
      later (`old / len > 0.5` in integers), or at least ten. */
  predicate OldPage(items: seq<Item>, page: int) {
    (2 * OldCount(items) > |items| && page >= 2) || OldCount(items) >= OldThreshold
  }

  /** Why the loop ended. */
  datatype Stop = NoArticles | OldPages | NoRecent | PageLimit

  /** The collected pairs, the final `current_page`, and the reason. */
  datatype CrawlEnd = CrawlEnd(articles: seq<Dated>, page: int, stop: Stop)

  /** What one page does to the loop: the pairs it adds, the new count of
      consecutive old pages, and the reason to stop there, if any. */
  datatype Verdict = Verdict(dated: seq<Dated>, streak: nat, stop: Option<Stop>)

  /** The stop rules of lines 202-244 for one page. */
  function Decide(items: seq<Item>, page: nat, streak: nat): Verdict {
    if |items| == 0 then Verdict([], streak, Some(NoArticles))
    else
      var streak' := if OldPage(items, page) then streak + 1 else 0;
      if streak' >= 2 then Verdict(Collected(items), streak', Some(OldPages))
      else if RecentCount(items) == 0 && page > 1 then Verdict(Collected(items), streak', Some(NoRecent))
      else Verdict(Collected(items), streak', None)
  }

  /** The loop body after the fetch (lines 202-246). */
  method PageStep(items: seq<Item>, page: nat, streak: nat) returns (dated: seq<Dated>, streak': nat, stop: Option<Stop>)
    ensures Verdict(dated, streak', stop) == Decide(items, page, streak)
  {
    streak' := streak;
    if |items| == 0 {
      return [], streak', Some(NoArticles);
    }
    var recentCount, oldCount;
    recentCount, oldCount, dated := Tally(items);
    stop := None;
    if (2 * oldCount > |items| && page >= 2) || oldCount >= OldThreshold {
      streak' := streak' + 1;
      if streak' >= 2 {
        stop := Some(OldPages);
      }
    } else {
      streak' := 0;
    }
    if stop.None? && recentCount == 0 && page > 1 {
      stop := Some(NoRecent);
    }
  }

  /** The loop from `page` on, with `streak` consecutive old pages behind
      it; `pages(p)` is what page `p` yields. */
  function CrawlFrom(pages: nat -> seq<Item>, maxPages: int, page: nat, streak: nat): (e: CrawlEnd)
    ensures e.page >= page
    decreases if page > maxPages then 0 else maxPages + 1 - page
  {
    if page > maxPages then CrawlEnd([], page, PageLimit)
    else
      var v := Decide(pages(page), page, streak);
      if v.stop.Some? then CrawlEnd(v.dated, page, v.stop.value)
      else
        var rest := CrawlFrom(pages, maxPages, page + 1, v.streak);
        CrawlEnd(v.dated + rest.articles, rest.page, rest.stop)
  }

  /** Page `p` was read and the loop went on past it. */
  predicate Continues(pages: nat -> seq<Item>, p: nat) {
    |pages(p)| > 0
    && !(p > 1 && RecentCount(pages(p)) == 0)
    && !(p > 1 && OldPage(pages(p), p) && OldPage(pages(p - 1), p - 1))
  }

  /** The counter of consecutive old pages on reaching page `p`. */
  function StreakBefore(pages: nat -> seq<Item>, p: nat): nat {
    if p > 1 && OldPage(pages(p - 1), p - 1) then 1 else 0
  }

  /** The concatenated pairs of pages `lo` to `hi - 1`. */
  function CollectedPages(pages: nat -> seq<Item>, lo: nat, hi: int): seq<Dated>
    decreases hi - lo
  {
    if lo >= hi then [] else Collected(pages(lo)) + CollectedPages(pages, lo + 1, hi)
  }

  /** The four ways the loop ends, each with the condition that ended it. */
  lemma {:induction false} CrawlStops(pages: nat -> seq<Item>, maxPages: int, page: nat, streak: nat)
    requires page >= 1 && streak == StreakBefore(pages, page)
    ensures var e := CrawlFrom(pages, maxPages, page, streak);
      && (e.stop == PageLimit <==> e.page > maxPages)
      && (e.stop == PageLimit ==> e.page == if page > maxPages then page else maxPages + 1)
      && (e.stop == NoArticles ==> |pages(e.page)| == 0)
      && (e.stop == NoRecent ==> e.page > 1 && |pages(e.page)| > 0 && RecentCount(pages(e.page)) == 0)
      && (e.stop == OldPages ==> e.page > 1 && OldPage(pages(e.page), e.page) && OldPage(pages(e.page - 1), e.page - 1))
    decreases if page > maxPages then 0 else maxPages + 1 - page
  {
    if page <= maxPages {
      var v := Decide(pages(page), page, streak);
      if v.stop.None? {
        CrawlStops(pages, maxPages, page + 1, v.streak);
      }
    }
  }

  /** Every page before the last one read let the loop go on. */
  lemma {:induction false} CrawlContinues(pages: nat -> seq<Item>, maxPages: int, page: nat, streak: nat)
    requires page >= 1 && streak == StreakBefore(pages, page)
    ensures forall p :: page <= p < CrawlFrom(pages, maxPages, page, streak).page ==> Continues(pages, p)
    decreases if page > maxPages then 0 else maxPages + 1 - page
  {
    if page <= maxPages {
      var v := Decide(pages(page), page, streak);
      if v.stop.None? {
        CrawlContinues(pages, maxPages, page + 1, v.streak);
        assert Continues(pages, page);
      }
    }
  }

  /** The pairs collected are those of every page read. */
  lemma {:induction false} CrawlCollects(pages: nat -> seq<Item>, maxPages: int, page: nat, streak: nat)
    ensures var e := CrawlFrom(pages, maxPages, page, streak);
      e.articles == CollectedPages(pages, page, if e.stop == PageLimit then e.page else e.page + 1)
    decreases if page > maxPages then 0 else maxPages + 1 - page
  {
    if page <= maxPages {
      var items := pages(page);
      var v := Decide(items, page, streak);
      assert v.dated == Collected(items);
      if v.stop.None? {
        CrawlCollects(pages, maxPages, page + 1, v.streak);
        var rest := CrawlFrom(pages, maxPages, page + 1, v.streak);
        var hi := if rest.stop == PageLimit then rest.page else rest.page + 1;
        assert CollectedPages(pages, page, hi) == Collected(items) + CollectedPages(pages, page + 1, hi);
      } else {
        assert CollectedPages(pages, page + 1, page + 1) == [];
      }
    }
  }

  /** The site's answer for each address. */
  type Web = string -> Fetch

  /** What page `p` yields; `cutoffs(p)` is the cutoff computed when it is
      read. */
  function PageAt(web: Web, cutoffs: nat -> int, p: nat): seq<Item> {
    PageResults(web(PageUrl(p)), cutoffs(p))
  }

  function PagesOf(web: Web, cutoffs: nat -> int): nat -> seq<Item> {
    (p: nat) => PageAt(web, cutoffs, p)
  }

  /** `pages` tells what each page of the site yields. */
  ghost predicate Yields(web: Web, cutoffs: nat -> int, pages: nat -> seq<Item>) {
    forall p: nat {:trigger PageAt(web, cutoffs, p)} :: pages(p) == PageAt(web, cutoffs, p)
  }

  /** Reading page `page`: its address, the request and the parse. */
  method ReadPage(web: Web, cutoffs: nat -> int, ghost pages: nat -> seq<Item>, page: nat) returns (items: seq<Item>)
    requires Yields(web, cutoffs, pages)
    ensures items == pages(page)
  {
    items := ArticleUrlsFromPage(web(PageUrl(page)), cutoffs(page));
    assert items == PageAt(web, cutoffs, page);
  }

  /** The `while current_page <= args.max_pages` loop. */
  method Crawl(web: Web, cutoffs: nat -> int, ghost pages: nat -> seq<Item>, maxPages: int)
    returns (articles: seq<Dated>, page: nat, stop: Stop)
    requires Yields(web, cutoffs, pages)
    ensures CrawlEnd(articles, page, stop) == CrawlFrom(pages, maxPages, 1, 0)
  {
    ghost var whole := CrawlFrom(pages, maxPages, 1, 0);
    articles, page, stop := [], 1, PageLimit;
    var streak: nat := 0;
    while page <= maxPages
      invariant page >= 1 && stop == PageLimit
      invariant var rest := CrawlFrom(pages, maxPages, page, streak);
        whole == CrawlEnd(articles + rest.articles, rest.page, rest.stop)
      decreases maxPages - page
    {
      var items := ReadPage(web, cutoffs, pages, page);
      var dated, streak', verdict := PageStep(items, page, streak);
      ghost var next := CrawlFrom(pages, maxPages, page + 1, streak');
      if verdict.Some? {
        articles, stop := articles + dated, verdict.value;
        break;
      }
      assert articles + (dated + next.articles) == (articles + dated) + next.articles;
      articles, streak, page := articles + dated, streak', page + 1;
    }
  }

  // ------------------------------------------------------------------
  // The final list (lines 254-271)
  // ------------------------------------------------------------------

  const Site := "https://techcrunch.com"

  /** A relative URL gets the site in front; one that starts with `http`
      is kept as it is. */
  function Absolute(u: string): (r: string)
    ensures StartsWith(r, "http") && EndsWith(r, u)
    ensures StartsWith(u, "http") ==> r == u
    ensures !StartsWith(u, "http") ==> |r| == |Site| + |u| && StartsWith(r, Site)
  {
    if StartsWith(u, "http") then u else Site + u
  }

  lemma AbsoluteIdempotent(u: string)
    ensures Absolute(Absolute(u)) == Absolute(u)
  {
  }

  /** The site prefix, the length and the ending that `Absolute` promises
      for a relative URL leave only `Site + u`. */
  lemma AbsoluteRelative(u: string)
    requires !StartsWith(u, "http")
    ensures Absolute(u) == Site + u
  {
    var r := Absolute(u);
    assert r == r[..|Site|] + r[|Site|..];
    assert r[|Site|..] == u;
  }

  /** A Python dict from URL to date: its keys in insertion order and its
      entries. */
  datatype Dict = Dict(keys: seq<string>, values: map<string, int>)

  /** The update of lines 257-262 for one pair. */
  function Keep(d: Dict, e: Dated): Dict {
    var u := Absolute(e.url);
    if u in d.values && e.date <= d.values[u] then d
    else Dict(if u in d.values then d.keys else d.keys + [u], d.values[u := e.date])
  }

  /** `unique_urls` after the loop over `all`. */
  function LatestDates(all: seq<Dated>): Dict
    decreases |all|
  {
    if |all| == 0 then Dict([], map[]) else Keep(LatestDates(all[..|all| - 1]), all[|all| - 1])
  }

  /** Some pair of `all` has URL `u`. */
  predicate Named(all: seq<Dated>, u: string) {
    exists j :: 0 <= j < |all| && Absolute(all[j].url) == u
  }

  /** `date` is the largest date any pair of `all` gives URL `u`. */
  predicate IsLatest(all: seq<Dated>, u: string, date: int) {
    (exists j :: 0 <= j < |all| && Absolute(all[j].url) == u && all[j].date == date)
    && forall j :: 0 <= j < |all| && Absolute(all[j].url) == u ==> all[j].date <= date
  }

  /** The dict holds each absolute URL of `all` once, its keys are its
      entries. */
  lemma LatestKeys(all: seq<Dated>)
    ensures NoDuplicates(LatestDates(all).keys)
    ensures KeysAreEntries(LatestDates(all))
    ensures EntriesNamed(all, LatestDates(all))
  {
    LatestKeysAreEntries(all);
    LatestKeysOnce(all);
    LatestEntriesNamed(all);
  }

  /** The keys in insertion order are exactly the entries. */
  ghost predicate KeysAreEntries(d: Dict) {
    forall u :: u in d.keys <==> u in d.values
  }

  lemma {:induction false} LatestKeysAreEntries(all: seq<Dated>)
    ensures KeysAreEntries(LatestDates(all))
    decreases |all|
  {
    if |all| > 0 {
      var init, e := all[..|all| - 1], all[|all| - 1];
      LatestKeysAreEntries(init);
      var d := LatestDates(init);
      var u := Absolute(e.url);
      if u !in d.values {
        forall v ensures v in d.keys + [u] <==> v in d.values[u := e.date] {
          if v == u {
            assert (d.keys + [u])[|d.keys|] == u;
          }
        }
      }
    }
  }

  lemma {:induction false} LatestKeysOnce(all: seq<Dated>)
    ensures NoDuplicates(LatestDates(all).keys)
    decreases |all|
  {
    if |all| > 0 {
      var init, e := all[..|all| - 1], all[|all| - 1];
      LatestKeysOnce(init);
      LatestKeysAreEntries(init);
      var d := LatestDates(init);
      var u := Absolute(e.url);
      if u !in d.values {
        var ks := d.keys + [u];
        assert LatestDates(all).keys == ks;
        forall i, j | 0 <= i < j < |ks| ensures ks[i] != ks[j] {
          assert ks[i] == d.keys[i];
          if j == |d.keys| {
            assert ks[j] == u;
            assert d.keys[i] in d.keys;
          } else {
            assert ks[j] == d.keys[j];
          }
        }
      }
    }
  }

  /** The URLs named by `init` and one more pair. */
  lemma NamedSnoc(init: seq<Dated>, e: Dated, v: string)
    ensures Named(init + [e], v) <==> Named(init, v) || v == Absolute(e.url)
  {
    var all := init + [e];
    if Named(all, v) && v != Absolute(e.url) {
      var j :| 0 <= j < |all| && Absolute(all[j].url) == v;
      assert j < |init| && init[j] == all[j];
    }
    if Named(init, v) {
      var j :| 0 <= j < |init| && Absolute(init[j].url) == v;
      assert all[j] == init[j];
    }
    if v == Absolute(e.url) {
      assert all[|init|] == e;
    }
  }

  /** The entries are exactly the URLs named by `all`. */
  ghost predicate EntriesNamed(all: seq<Dated>, d: Dict) {
    forall u :: u in d.values <==> Named(all, u)
  }

  lemma {:induction false} LatestEntriesNamed(all: seq<Dated>)
    ensures EntriesNamed(all, LatestDates(all))
    decreases |all|
  {
    if |all| > 0 {
      var init, e := all[..|all| - 1], all[|all| - 1];
      assert all == init + [e];
      LatestEntriesNamed(init);
      forall v ensures v in LatestDates(all).values <==> Named(all, v) {
        NamedSnoc(init, e, v);
      }
    }
  }

  /** Every entry is the latest date `all` gives its URL. */
  ghost predicate EntriesAreLatest(all: seq<Dated>, d: Dict) {
    forall u :: u in d.values ==> IsLatest(all, u, d.values[u])
  }

  lemma {:induction false} LatestIsMax(all: seq<Dated>)
    ensures EntriesAreLatest(all, LatestDates(all))
    decreases |all|
  {
    if |all| > 0 {
      var init, e := all[..|all| - 1], all[|all| - 1];
      LatestIsMax(init);
      LatestEntriesNamed(init);
      KeepAllLatest(LatestDates(init), init, e);
      SnocSplit(all);
    }
  }

  /** One update keeps all entries the latest dates of their URLs. */
  lemma KeepAllLatest(d: Dict, init: seq<Dated>, e: Dated)
    requires EntriesAreLatest(init, d)
    requires EntriesNamed(init, d)
    ensures EntriesAreLatest(init + [e], Keep(d, e))
  {
    forall v | v in Keep(d, e).values ensures IsLatest(init + [e], v, Keep(d, e).values[v]) {
      KeepIsMax(d, init, e, v);
    }
  }

  /** One update keeps every entry the latest date of its URL. */
  lemma KeepIsMax(d: Dict, init: seq<Dated>, e: Dated, v: string)
    requires EntriesAreLatest(init, d)
    requires EntriesNamed(init, d)
    requires v in Keep(d, e).values
    ensures IsLatest(init + [e], v, Keep(d, e).values[v])
  {
    var u := Absolute(e.url);
    if v != u {
      LatestOther(init, e, v, d.values[v]);
    } else if u in d.values && e.date <= d.values[u] {
      LatestStays(init, e, v, d.values[v]);
    } else if u in d.values {
      LatestRaised(init, e, d.values[u]);
    } else {
      LatestFirst(init, e);
    }
  }

  lemma LatestStays(init: seq<Dated>, e: Dated, u: string, date: int)
    requires IsLatest(init, u, date) && (Absolute(e.url) == u ==> e.date <= date)
    ensures IsLatest(init + [e], u, date)
  {
    var all := init + [e];
    var j :| 0 <= j < |init| && Absolute(init[j].url) == u && init[j].date == date;
    assert all[j] == init[j];
    forall k | 0 <= k < |all| && Absolute(all[k].url) == u ensures all[k].date <= date {
      if k < |init| {
        assert all[k] == init[k];
      }
    }
  }

  lemma LatestOther(init: seq<Dated>, e: Dated, u: string, date: int)
    requires IsLatest(init, u, date) && Absolute(e.url) != u
    ensures IsLatest(init + [e], u, date)
  {
    LatestStays(init, e, u, date);
  }

  lemma LatestRaised(init: seq<Dated>, e: Dated, date: int)
    requires IsLatest(init, Absolute(e.url), date) && e.date > date
    ensures IsLatest(init + [e], Absolute(e.url), e.date)
  {
    var all := init + [e];
    assert all[|init|] == e;
    forall k | 0 <= k < |all| && Absolute(all[k].url) == Absolute(e.url) ensures all[k].date <= e.date {
      if k < |init| {
        assert all[k] == init[k];
      }
    }
  }

  lemma LatestFirst(init: seq<Dated>, e: Dated)
    requires !Named(init, Absolute(e.url))
    ensures IsLatest(init + [e], Absolute(e.url), e.date)
  {
    var all := init + [e];
    assert all[|init|] == e;
    forall k | 0 <= k < |all| && Absolute(all[k].url) == Absolute(e.url) ensures all[k].date <= e.date {
      if k < |init| {
        assert false;
      }
    }
  }

  /** `[(url, date) for url, date in unique_urls.items()]` */
  function Pairs(d: Dict): (r: seq<Dated>)
    requires forall u :: u in d.keys ==> u in d.values
    ensures |r| == |d.keys|
    ensures forall i :: 0 <= i < |r| ==> r[i] == Dated(d.keys[i], d.values[d.keys[i]])
  {
    seq(|d.keys|, i requires 0 <= i < |d.keys| => Dated(d.keys[i], d.values[d.keys[i]]))
  }

  function DatedUrls(r: seq<Dated>): (us: seq<string>)
    ensures |us| == |r| && forall i :: 0 <= i < |r| ==> us[i] == r[i].url
  {
    seq(|r|, i requires 0 <= i < |r| => r[i].url)
  }

  predicate NewestFirst(r: seq<Dated>) {
    forall i, j :: 0 <= i < j < |r| ==> r[i].date >= r[j].date
  }

  /** Places `e` after every pair whose date is not earlier: one step of a
      stable insertion sort, newest first. */
  function InsertByDate(s: seq<Dated>, e: Dated): (r: seq<Dated>)
    requires NewestFirst(s)
    ensures NewestFirst(r)
    ensures multiset(r) == multiset(s) + multiset{e}
    decreases |s|
  {
    if |s| == 0 || s[|s| - 1].date >= e.date then
      AppendNewest(s, e);
      s + [e]
    else
      var init, last := s[..|s| - 1], s[|s| - 1];
      var r' := InsertByDate(init, e);
      assert s == init + [last];
      forall x | x in r' ensures x.date >= last.date {
        assert x in multiset(r');
        if x != e {
          assert x in multiset(init);
        }
      }
      AppendNewest(r', last);
      r' + [last]
  }

  lemma AppendNewest(s: seq<Dated>, e: Dated)
    requires NewestFirst(s)
    requires forall x :: x in s ==> x.date >= e.date
    ensures NewestFirst(s + [e])
  {
    forall i, j | 0 <= i < j < |s| + 1 ensures (s + [e])[i].date >= (s + [e])[j].date {
      if j == |s| {
        assert s[i] in s;
      }
    }
  }

  /** `unique_articles.sort(key=lambda x: x[1], reverse=True)`: a stable
      sort, newest first. */
  function SortByDateDesc(s: seq<Dated>): (r: seq<Dated>)
    ensures NewestFirst(r)
    ensures multiset(r) == multiset(s)
    decreases |s|
  {
    if |s| == 0 then []
    else
      assert s == s[..|s| - 1] + [s[|s| - 1]];
      InsertByDate(SortByDateDesc(s[..|s| - 1]), s[|s| - 1])
  }

  /** The sort keeps URLs distinct. */
  lemma {:induction false} InsertKeepsUrlsDistinct(s: seq<Dated>, e: Dated)
    requires NewestFirst(s) && NoDuplicates(DatedUrls(s)) && e.url !in DatedUrls(s)
    ensures NoDuplicates(DatedUrls(InsertByDate(s, e)))
    decreases |s|
  {
    var r := InsertByDate(s, e);
    if |s| == 0 || s[|s| - 1].date >= e.date {
      DistinctSnoc(s, e);
    } else {
      var init, last := s[..|s| - 1], s[|s| - 1];
      assert s == init + [last];
      assert DatedUrls(s) == DatedUrls(init) + [last.url];
      assert NoDuplicates(DatedUrls(init));
      InsertKeepsUrlsDistinct(init, e);
      var r' := InsertByDate(init, e);
      forall x | x in r' ensures x.url != last.url {
        assert x in multiset(r');
        if x != e {
          assert x in multiset(init);
          var i :| 0 <= i < |init| && init[i] == x;
          assert DatedUrls(s)[i] == x.url;
        } else {
          assert DatedUrls(s)[|init|] == last.url;
        }
      }
      DistinctSnoc(r', last);
    }
  }

  lemma DistinctSnoc(s: seq<Dated>, e: Dated)
    requires NoDuplicates(DatedUrls(s)) && forall x :: x in s ==> x.url != e.url
    ensures NoDuplicates(DatedUrls(s + [e]))
  {
    var us := DatedUrls(s + [e]);
    forall i, j | 0 <= i < j < |us| ensures us[i] != us[j] {
      if j == |s| {
        assert s[i] in s;
      } else {
        assert us[i] == DatedUrls(s)[i] && us[j] == DatedUrls(s)[j];
      }
    }
  }

  /** A reordering has the same URLs. */
  lemma UrlsOfPermutation(a: seq<Dated>, b: seq<Dated>)
    requires multiset(a) == multiset(b)
    ensures forall u :: u in DatedUrls(a) ==> u in DatedUrls(b)
  {
    forall u | u in DatedUrls(a) ensures u in DatedUrls(b) {
      var i :| 0 <= i < |a| && DatedUrls(a)[i] == u;
      assert a[i] in multiset(b);
      var k :| 0 <= k < |b| && b[k] == a[i];
      assert DatedUrls(b)[k] == u;
    }
  }

  lemma {:induction false} SortKeepsUrlsDistinct(s: seq<Dated>)
    requires NoDuplicates(DatedUrls(s))
    ensures NoDuplicates(DatedUrls(SortByDateDesc(s)))
    decreases |s|
  {
    if |s| > 0 {
      var init, last := s[..|s| - 1], s[|s| - 1];
      assert s == init + [last];
      assert DatedUrls(s) == DatedUrls(init) + [last.url];
      SortKeepsUrlsDistinct(init);
      var sorted := SortByDateDesc(init);
      UrlsOfPermutation(sorted, init);
      InsertKeepsUrlsDistinct(sorted, last);
    }
  }

  /** `unique_articles` after the sort. */
  function Ranked(all: seq<Dated>): seq<Dated> {
    var d := LatestDates(all);
    LatestKeys(all);
    SortByDateDesc(Pairs(d))
  }

  /** The written list names each URL once. */
  lemma RankedDistinct(all: seq<Dated>)
    ensures NoDuplicates(DatedUrls(Ranked(all)))
  {
    var d := LatestDates(all);
    LatestKeys(all);
    var pairs := Pairs(d);
    assert NoDuplicates(DatedUrls(pairs)) by {
      assert DatedUrls(pairs) == d.keys;
    }
    SortKeepsUrlsDistinct(pairs);
  }

  /** Every written URL is absolute and carries the latest date it was seen
      with. */
  lemma RankedLatest(all: seq<Dated>)
    ensures var r := Ranked(all);
      forall i :: 0 <= i < |r| ==> StartsWith(r[i].url, "http") && IsLatest(all, r[i].url, r[i].date)
  {
    var d := LatestDates(all);
    LatestKeys(all);
    LatestIsMax(all);
    var pairs := Pairs(d);
    var r := Ranked(all);
    forall i | 0 <= i < |r| ensures StartsWith(r[i].url, "http") && IsLatest(all, r[i].url, r[i].date) {
      assert r[i] in multiset(pairs);
      var k :| 0 <= k < |pairs| && pairs[k] == r[i];
      assert d.keys[k] in d.values;
      var j :| 0 <= j < |all| && Absolute(all[j].url) == d.keys[k];
    }
  }

  /** Every collected article is in the written list, made absolute. */
  lemma RankedComplete(all: seq<Dated>)
    ensures forall j :: 0 <= j < |all| ==> Absolute(all[j].url) in DatedUrls(Ranked(all))
  {
    var d := LatestDates(all);
    LatestKeys(all);
    var pairs := Pairs(d);
    var r := Ranked(all);
    forall j | 0 <= j < |all| ensures Absolute(all[j].url) in DatedUrls(r) {
      var u := Absolute(all[j].url);
      assert Named(all, u);
      var k :| 0 <= k < |d.keys| && d.keys[k] == u;
      assert pairs[k] in multiset(r);
      var i :| 0 <= i < |r| && r[i] == pairs[k];
      assert DatedUrls(r)[i] == u;
    }
  }

  /** The dedup loop over `all_articles` and the sort. */
  method RankArticles(all: seq<Dated>) returns (ranked: seq<Dated>)
    ensures ranked == Ranked(all)
  {
    var keys: seq<string> := [];
    var dates: map<string, int> := map[];
    for i := 0 to |all|
      invariant Dict(keys, dates) == LatestDates(all[..i])
    {
      assert all[..i + 1][..i] == all[..i];
      var url := all[i].url;
      if !StartsWith(url, "http") {
        url := Site + url;
      }
      if url !in dates || all[i].date > dates[url] {
        if url !in dates {
          keys := keys + [url];
        }
        dates := dates[url := all[i].date];
      }
    }
    assert all[..|all|] == all;
    LatestKeys(all);
    var unique := Pairs(Dict(keys, dates));
    ranked := SortByDateDesc(unique);
  }

  /** `main()`: the page loop, the final list and the lines of the output
      file. */
  method CrawlCategory(web: Web, cutoffs: nat -> int, maxPages: int) returns (urls: seq<string>, content: string, stop: Stop)
    ensures var e := CrawlFrom(PagesOf(web, cutoffs), maxPages, 1, 0);
      urls == DatedUrls(Ranked(e.articles)) && stop == e.stop
    ensures content == Lines(urls)
  {
    var articles, page, s := Crawl(web, cutoffs, PagesOf(web, cutoffs), maxPages);
    stop := s;
    var ranked := RankArticles(articles);
    urls := DatedUrls(ranked);
    content := WriteLines(urls);
  }
}
