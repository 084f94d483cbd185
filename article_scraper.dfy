/** The scraper of 1a_url_to_article.py: the mapping from an article URL to
    the name of its text file, the guard that skips a file already saved
    cleanly, the retry loop of `scrape_article`, the string work done on
    the extracted page (TechCrunch date line, paragraph filters, blank-line
    collapse) and the manifest of saved articles that `main` writes.

    The browser, the page's DOM and md5 are parameters: a `Load` is what
    one attempt obtained (an exception, or the page as the CSS selectors
    see it), and `Md5` any function to 32-character hex digests. */
module ArticleScraper {
  import opened Common
  import opened Text
  import opened Aggregate

  // ------------------------------------------------------------------
  // generate_filename_from_url
  // ------------------------------------------------------------------

  /** A `hexdigest()` of md5: 32 characters. */
  type Digest = s: string | |s| == 32 witness "00000000000000000000000000000000"

  type Md5 = string -> Digest

  /** `hexdigest()[:10]` */
  function Hash10(d: Digest): (h: string)
    ensures |h| == 10 && StartsWith(d, h)
  {
    d[..10]
  }

  /** `generate_filename_from_url(url)`: after dropping trailing slashes, a
      TechCrunch URL with more than four `/`-pieces gives the text after its
      last `/` (unique by `SuffixAfterLastChar`), a WeChat URL with `/s/` the
      last piece of splitting it at `/s/` from the left (see `SplitFirst`),
      and every other URL a site prefix followed by ten hex digits of its
      md5. */
  function FilenameFromUrl(url: string, md5: Md5): (name: string)
    ensures var u := TrimEnd(url, {'/'});
      if Contains(u, "techcrunch.com") then
        if |Split(u, "/")| > 4 then EndsWith(u, "/" + name) && '/' !in name
        else name == "techcrunch_" + Hash10(md5(u))
      else if Contains(u, "mp.weixin.qq.com") then
        if Contains(u, "/s/") then
          name == LastPiece(u, "/s/") && EndsWith(u, "/s/" + name) && !Contains(name, "/s/")
        else name == "wechat_" + Hash10(md5(u))
      else name == "article_" + Hash10(md5(u))
  {
    var u := TrimEnd(url, {'/'});
    if Contains(u, "techcrunch.com") then
      var parts := Split(u, "/");
      if |parts| > 4 then
        JoinEndsWithSepLast(parts, "/");
        ContainsChar(parts[|parts| - 1], '/');
        parts[|parts| - 1]
      else "techcrunch_" + Hash10(md5(u))
    else if Contains(u, "mp.weixin.qq.com") then
      if Contains(u, "/s/") then LastPiece(u, "/s/")
      else "wechat_" + Hash10(md5(u))
    else "article_" + Hash10(md5(u))
  }

  /** Round trip with TechCrunch's article addresses: the file name of
      `https://techcrunch.com/{y}/{m}/{d}/{slug}/` is the slug. */
  lemma TechCrunchFilenameRoundTrip(y: string, m: string, d: string, slug: string, md5: Md5)
    requires '/' !in y && '/' !in m && '/' !in d && '/' !in slug && |slug| > 0
    ensures FilenameFromUrl("https://techcrunch.com/" + y + "/" + m + "/" + d + "/" + slug + "/", md5) == slug
  {
    var u := "https://techcrunch.com/" + y + "/" + m + "/" + d + "/" + slug;
    TechCrunchTrim(y, m, d, slug);
    TechCrunchUrlHost(y, m, d, slug);
    TechCrunchSplit(y, m, d, slug);
    var name := FilenameFromUrl(u + "/", md5);
    SuffixAfterLastChar(u, '/', name, slug);
  }

  /** `rstrip('/')` removes just the final slash of an article address. */
  lemma TechCrunchTrim(y: string, m: string, d: string, slug: string)
    requires |slug| > 0 && '/' !in slug
    ensures var u := "https://techcrunch.com/" + y + "/" + m + "/" + d + "/" + slug;
      TrimEnd(u + "/", {'/'}) == u
  {
    var u := "https://techcrunch.com/" + y + "/" + m + "/" + d + "/" + slug;
    assert (u + "/")[..|u + "/"| - 1] == u;
    TrimEndKeepsSuffix("https://techcrunch.com/" + y + "/" + m + "/" + d + "/", slug, {'/'});
  }

  lemma TechCrunchUrlHost(y: string, m: string, d: string, slug: string)
    ensures Contains("https://techcrunch.com/" + y + "/" + m + "/" + d + "/" + slug, "techcrunch.com")
  {
    var rest := "/" + y + "/" + m + "/" + d + "/" + slug;
    assert "https://techcrunch.com/" + y + "/" + m + "/" + d + "/" + slug == "https://" + "techcrunch.com" + rest;
    ContainsMiddle("https://", "techcrunch.com", rest);
  }

  /** An article address splits at `/` into seven pieces, the slug last. */
  lemma TechCrunchSplit(y: string, m: string, d: string, slug: string)
    requires '/' !in y && '/' !in m && '/' !in d && '/' !in slug
    ensures var u := "https://techcrunch.com/" + y + "/" + m + "/" + d + "/" + slug;
      |Split(u, "/")| == 7 && EndsWith(u, "/" + slug)
  {
    var parts := ["https:", "", "techcrunch.com", y, m, d, slug];
    TechCrunchJoin(y, m, d, slug);
    assert '/' !in "https:" && '/' !in "techcrunch.com";
    SplitJoinChar(parts, '/');
    JoinEndsWithSepLast(parts, "/");
  }

  /** The pieces of a TechCrunch article address, joined with `/`. */
  lemma TechCrunchJoin(y: string, m: string, d: string, slug: string)
    ensures Join(["https:", "", "techcrunch.com", y, m, d, slug], "/")
      == "https://techcrunch.com/" + y + "/" + m + "/" + d + "/" + slug
  {
    var core := y + "/" + m + "/" + d + "/" + slug;
    JoinFour(y, m, d, slug);
    JoinThreeBefore("https:", "", "techcrunch.com", [y, m, d, slug], "/");
    assert ["https:", "", "techcrunch.com"] + [y, m, d, slug] == ["https:", "", "techcrunch.com", y, m, d, slug];
    assert "https:" + "/" + ("" + "/" + ("techcrunch.com" + "/" + core)) == "https://techcrunch.com/" + core;
  }

  lemma JoinThreeBefore(a: string, b: string, c: string, rest: seq<string>, sep: string)
    requires |rest| > 0
    ensures Join([a, b, c] + rest, sep) == a + sep + (b + sep + (c + sep + Join(rest, sep)))
  {
    JoinCons(c, rest, sep);
    JoinCons(b, [c] + rest, sep);
    JoinCons(a, [b] + ([c] + rest), sep);
    assert [a, b, c] + rest == [a] + ([b] + ([c] + rest));
  }

  /** The address form of a WeChat article, as the WeChat URL exporter
      builds it. */
  const WeChatBase := "https://mp.weixin.qq.com/s/"

  /** `"https://mp.weixin.qq.com/s"` has no `/s/` of its own: the first
      `/s/` of a WeChat address is the one before the article id. */
  lemma WeChatHostHasNoMarker()
    ensures !Contains("https://mp.weixin.qq.com/s", "/s/")
  {
    MissingChar("https", "/s/", '/');
    MissingChar("//mp.weixin.qq.co", "/s/", 's');
    NotAcrossTwo("https", ':', "//mp.weixin.qq.co", 'm', "/s", "/s/");
    WeChatHostPieces();
  }

  lemma WeChatHostPieces()
    ensures "https" + [':'] + "//mp.weixin.qq.co" + ['m'] + "/s" == "https://mp.weixin.qq.com/s"
  {
  }

  lemma WeChatBaseSlash()
    ensures WeChatBase == "https://mp.weixin.qq.com/s" + ['/']
  {
  }

  lemma WeChatBaseHost()
    ensures WeChatBase == "https://" + "mp.weixin.qq.com" + "/s/"
  {
  }

  lemma WeChatBaseMarker()
    ensures WeChatBase == "https://mp.weixin.qq.com" + "/s/"
  {
  }

  /** "techcrunch.com" cannot straddle the `/` before the id. */
  lemma WeChatUrlNotTechCrunch(id: string)
    requires !Contains(id, "techcrunch.com")
    ensures !Contains(WeChatBase + id, "techcrunch.com")
  {
    WeChatBaseSlash();
    assert WeChatBase + id == "https://mp.weixin.qq.com/s" + ['/'] + id;
    MissingChar("https://mp.weixin.qq.com/s", "techcrunch.com", 'r');
    if Contains(WeChatBase + id, "techcrunch.com") {
      ContainsAcross("https://mp.weixin.qq.com/s", '/', id, "techcrunch.com");
    }
  }

  lemma WeChatUrlHost(id: string)
    ensures Contains(WeChatBase + id, "mp.weixin.qq.com")
  {
    WeChatBaseHost();
    assert WeChatBase + id == "https://" + "mp.weixin.qq.com" + ("/s/" + id);
    ContainsMiddle("https://", "mp.weixin.qq.com", "/s/" + id);
  }

  /** The first `/s/` is the one after the host, so the last piece is the
      id when the id has no `/s/`. */
  lemma WeChatUrlSplit(id: string)
    requires !Contains(id, "/s/")
    ensures Contains(WeChatBase + id, "/s/") && LastPiece(WeChatBase + id, "/s/") == id
  {
    var host := "https://mp.weixin.qq.com";
    WeChatBaseMarker();
    assert WeChatBase + id == host + "/s/" + id;
    WeChatHostHasNoMarker();
    assert host + "/s/"[..2] == "https://mp.weixin.qq.com/s";
    FirstAfterFreePrefix(host, "/s/", id);
    FindSpec(WeChatBase + id, "/s/");
    SplitAt(host, "/s/", id);
    SplitNone(id, "/s/");
  }

  /** Round trip with the WeChat exporter: the file name of
      `"https://mp.weixin.qq.com/s/" + id` is `id`, for an id without a
      trailing slash, without `/s/` and without "techcrunch.com". */
  lemma WeChatFilenameRoundTrip(id: string, md5: Md5)
    requires |id| > 0 && id[|id| - 1] != '/'
    requires !Contains(id, "/s/") && !Contains(id, "techcrunch.com")
    ensures FilenameFromUrl(WeChatBase + id, md5) == id
  {
    TrimEndKeepsSuffix(WeChatBase, id, {'/'});
    WeChatUrlNotTechCrunch(id);
    WeChatUrlHost(id);
    WeChatUrlSplit(id);
  }

  // ------------------------------------------------------------------
  // The skip guard of scrape_article
  // ------------------------------------------------------------------

  /** The two phrases of WeChat's "unusual environment, verify to continue"
      page. */
  const EnvironmentAlert := "环境异常"
  const VerifyPrompt := "完成验证后即可继续访问"

  /** What opening the output file finds. */
  datatype FileState = Absent | Unreadable(message: string) | Present(content: string)

  /** `f.read(1000)` */
  function Head(content: string): (h: string)
    ensures |h| == Min(1000, |content|) && StartsWith(content, h)
    ensures |content| <= 1000 ==> h == content
  {
    content[..Min(1000, |content|)]
  }

  /** The file is there and its first 1000 characters carry neither phrase:
      `scrape_article` returns True without loading anything. */
  predicate SavedCleanly(file: FileState) {
    file.Present? &&
    !(Contains(Head(file.content), EnvironmentAlert) || Contains(Head(file.content), VerifyPrompt))
  }

  // ------------------------------------------------------------------
  // Text extraction
  // ------------------------------------------------------------------

  /** A `p` or `section` element: its text and whether it holds an `img`. */
  datatype Paragraph = Paragraph(text: string, hasImage: bool)

  /** The page as the selectors of `scrape_article` see it: the title,
      author and date elements (None when the selector finds nothing), the
      paragraphs of the article body, the whole page text
      (`soup.get_text()`) and the WeChat fallback text taken straight from
      the page source (None when the regular expression does not match). */
  datatype Page = Page(title: Option<string>, author: Option<string>, date: Option<string>,
                       paragraphs: seq<Paragraph>, text: string, backup: Option<string>)

  /** `article_text += p_text + "\n\n"` over the kept texts, in order. */
  function Blocks(ts: seq<string>): string
    decreases |ts|
  {
    if |ts| == 0 then "" else Blocks(ts[..|ts| - 1]) + ts[|ts| - 1] + "\n\n"
  }

  function TitleLine(title: Option<string>): string {
    if title.Some? then StripSpace(title.value) + "\n\n" else ""
  }

  /** The TechCrunch date line: `日期：{y}年{m}月{d}日` followed by a blank
      line when the first three `/`-pieces of the path after the first
      `.com/` are digit strings, a lone newline otherwise. */
  function DateLine(url: string): string {
    var parts := Split(url, ".com/");
    if |parts| > 1 then
      var path := Split(Strip(parts[1], {'/'}), "/");
      if |path| >= 3 && IsDigits(path[0]) && IsDigits(path[1]) && IsDigits(path[2]) then
        "日期：" + path[0] + "年" + path[1] + "月" + path[2] + "日\n\n"
      else "\n"
    else "\n"
  }

  /** A URL without `.com/` gets the lone newline. */
  lemma DateLineWithoutPath(url: string)
    requires !Contains(url, ".com/")
    ensures DateLine(url) == "\n"
  {
    SplitNone(url, ".com/");
  }

  /** The TechCrunch host has no `.com/` before the one ending it. */
  lemma TechCrunchHostHasNoMarker()
    ensures !Contains("https://techcrunch.com", ".com/")
  {
    var t := ".com/";
    TechCrunchHostPieces();
    MissingChar("https://tec", t, '.');
    MissingChar("crunch.com", t, '/');
    if Contains("https://techcrunch.com", t) {
      ContainsAcross("https://tec", 'h', "crunch.com", t);
    }
  }

  lemma TechCrunchHostPieces()
    ensures "https://tec" + ['h'] + "crunch.com" == "https://techcrunch.com"
    ensures "https://techcrunch" + ".com/"[..4] == "https://techcrunch.com"
  {
  }

  /** The first `.com/` of a TechCrunch address ends the host. */
  lemma TechCrunchUrlSplit(rest: string)
    requires '.' !in rest
    ensures Split("https://techcrunch.com/" + rest, ".com/") == ["https://techcrunch", rest]
  {
    var host := "https://techcrunch";
    assert "https://techcrunch.com/" + rest == host + ".com/" + rest;
    TechCrunchHostHasNoMarker();
    TechCrunchHostPieces();
    FirstAfterFreePrefix(host, ".com/", rest);
    SplitAt(host, ".com/", rest);
    MissingChar(rest, ".com/", '.');
    SplitNone(rest, ".com/");
  }

  lemma StripTrailingSlash(core: string)
    requires |core| > 0 && core[0] != '/' && core[|core| - 1] != '/'
    ensures Strip(core + "/", {'/'}) == core
  {
    var rest := core + "/";
    assert rest[0] == core[0] && rest[|rest| - 1] == '/';
    assert TrimStart(rest, {'/'}) == rest;
    assert rest[..|rest| - 1] == core;
    assert TrimEnd(rest, {'/'}) == TrimEnd(core, {'/'});
    assert TrimEnd(core, {'/'}) == core;
  }

  lemma JoinFour(y: string, m: string, d: string, slug: string)
    ensures Join([y, m, d, slug], "/") == y + "/" + m + "/" + d + "/" + slug
  {
    JoinCons(y, [m, d, slug], "/");
    JoinCons(m, [d, slug], "/");
    JoinCons(d, [slug], "/");
    assert [y] + [m, d, slug] == [y, m, d, slug] && [m] + [d, slug] == [m, d, slug] && [d] + [slug] == [d, slug];
  }

  lemma DatePieces(y: string, m: string, d: string, slug: string)
    requires '/' !in y && '/' !in m && '/' !in d && '/' !in slug
    ensures Split(y + "/" + m + "/" + d + "/" + slug, "/") == [y, m, d, slug]
  {
    JoinFour(y, m, d, slug);
    SplitJoinChar([y, m, d, slug], '/');
  }

  /** Round trip with the TechCrunch address form `/YYYY/MM/DD/slug/`: the
      date line carries exactly the three date pieces of the address. */
  lemma DateLineRoundTrip(y: string, m: string, d: string, slug: string)
    requires IsDigits(y) && IsDigits(m) && IsDigits(d)
    requires |slug| > 0 && '/' !in slug && '.' !in slug
    ensures DateLine("https://techcrunch.com/" + y + "/" + m + "/" + d + "/" + slug + "/")
            == "日期：" + y + "年" + m + "月" + d + "日\n\n"
  {
    var url := "https://techcrunch.com/" + y + "/" + m + "/" + d + "/" + slug + "/";
    var core := y + "/" + m + "/" + d + "/" + slug;
    DateUrlSplit(y, m, d, slug);
    CorePieces(y, m, d, slug);
    DateLineOf(url, "https://techcrunch", core + "/", [y, m, d, slug]);
  }

  lemma DateUrlSplit(y: string, m: string, d: string, slug: string)
    requires '.' !in y && '.' !in m && '.' !in d && '.' !in slug
    requires '/' !in y && '/' !in m && '/' !in d
    ensures Split("https://techcrunch.com/" + y + "/" + m + "/" + d + "/" + slug + "/", ".com/")
            == ["https://techcrunch", y + "/" + m + "/" + d + "/" + slug + "/"]
  {
    Regroup("https://techcrunch.com/", y, m, d, slug);
    TechCrunchUrlSplit(y + "/" + m + "/" + d + "/" + slug + "/");
  }

  lemma CorePieces(y: string, m: string, d: string, slug: string)
    requires |y| > 0 && |slug| > 0
    requires y[0] != '/' && slug[|slug| - 1] != '/'
    requires '/' !in y && '/' !in m && '/' !in d && '/' !in slug
    ensures Split(Strip(y + "/" + m + "/" + d + "/" + slug + "/", {'/'}), "/") == [y, m, d, slug]
  {
    var core := y + "/" + m + "/" + d + "/" + slug;
    assert core[0] == y[0] && core[|core| - 1] == slug[|slug| - 1];
    StripTrailingSlash(core);
    DatePieces(y, m, d, slug);
  }

  /** The date line of an address given its `.com/` split and the pieces of
      its path. */
  lemma DateLineOf(url: string, host: string, rest: string, pieces: seq<string>)
    requires Split(url, ".com/") == [host, rest]
    requires Split(Strip(rest, {'/'}), "/") == pieces
    requires |pieces| >= 3 && IsDigits(pieces[0]) && IsDigits(pieces[1]) && IsDigits(pieces[2])
    ensures DateLine(url) == "日期：" + pieces[0] + "年" + pieces[1] + "月" + pieces[2] + "日\n\n"
  {
  }

  lemma Regroup(base: string, y: string, m: string, d: string, slug: string)
    ensures base + y + "/" + m + "/" + d + "/" + slug + "/" == base + ((y + "/" + m + "/" + d + "/" + slug) + "/")
  {
  }

  /** The texts of the TechCrunch paragraphs that are longer than five
      characters once stripped, in page order. */
  function LongTexts(ps: seq<Paragraph>): seq<string>
    decreases |ps|
  {
    if |ps| == 0 then []
    else
      var t := StripSpace(ps[|ps| - 1].text);
      var rest := LongTexts(ps[..|ps| - 1]);
      if t != "" && |t| > 5 then rest + [t] else rest
  }

  /** Every kept text is a stripped paragraph text of more than five
      characters, and every such text is kept. */
  lemma LongTextsSpec(ps: seq<Paragraph>)
    ensures var ts := LongTexts(ps);
      |ts| <= |ps|
      && (forall t :: t in ts ==> |t| > 5 && exists p :: p in ps && StripSpace(p.text) == t)
      && (forall p :: p in ps && |StripSpace(p.text)| > 5 ==> StripSpace(p.text) in ts)
  {
    LongTextsSound(ps);
    LongTextsComplete(ps);
  }

  /** At most one text per paragraph, each a long stripped paragraph text. */
  lemma {:induction false} LongTextsSound(ps: seq<Paragraph>)
    ensures var ts := LongTexts(ps);
      |ts| <= |ps| && forall t :: t in ts ==> |t| > 5 && exists p :: p in ps && StripSpace(p.text) == t
    decreases |ps|
  {
    if |ps| > 0 {
      var init, last := ps[..|ps| - 1], ps[|ps| - 1];
      LongTextsSound(init);
      var rest, t := LongTexts(init), StripSpace(last.text);
      InAppend(rest, t);
      assert last in ps;
      assert forall p :: p in init ==> p in ps;
    }
  }

  /** Every long stripped paragraph text is kept. */
  lemma {:induction false} LongTextsComplete(ps: seq<Paragraph>)
    ensures forall p :: p in ps && |StripSpace(p.text)| > 5 ==> StripSpace(p.text) in LongTexts(ps)
    decreases |ps|
  {
    if |ps| > 0 {
      var init, last := ps[..|ps| - 1], ps[|ps| - 1];
      assert ps == init + [last];
      InAppend(init, last);
      LongTextsComplete(init);
    }
  }

  /** The loop goes through the paragraphs in page order: the texts of
      `a + b` are those of `a` followed by those of `b`, ... */
  lemma {:induction false} LongTextsConcat(a: seq<Paragraph>, b: seq<Paragraph>)
    ensures LongTexts(a + b) == LongTexts(a) + LongTexts(b)
    decreases |b|
  {
    if |b| == 0 {
      assert a + b == a;
    } else {
      assert (a + b)[..|a + b| - 1] == a + b[..|b| - 1];
      assert (a + b)[|a + b| - 1] == b[|b| - 1];
      LongTextsConcat(a, b[..|b| - 1]);
    }
  }

  /** ... and one paragraph gives its stripped text when that is longer
      than five characters. So repeated paragraphs are all kept, in page
      order. */
  lemma LongTextsOne(p: Paragraph)
    ensures LongTexts([p]) == if |StripSpace(p.text)| > 5 then [StripSpace(p.text)] else []
  {
    assert [p][..0] == [];
  }

  /** The TechCrunch paragraph loop of `scrape_article`. */
  method TechCrunchBody(ps: seq<Paragraph>) returns (body: string)
    ensures body == Blocks(LongTexts(ps))
  {
    body := "";
    var i := 0;
    while i < |ps|
      invariant 0 <= i <= |ps|
      invariant body == Blocks(LongTexts(ps[..i]))
    {
      var t := StripSpace(ps[i].text);
      assert ps[..i + 1][..i] == ps[..i];
      if t != "" && |t| > 5 {
        body := body + t + "\n\n";
      }
      i := i + 1;
    }
    assert ps[..|ps|] == ps;
  }

  /** The texts the WeChat paragraph loop keeps: a non-image paragraph's
      stripped text longer than five characters, the first time it is
      seen. */
  function WeChatTexts(ps: seq<Paragraph>): (ts: seq<string>)
    ensures forall i, j :: 0 <= i < j < |ts| ==> ts[i] != ts[j]
    ensures forall t :: t in ts ==> |t| > 5 && exists p :: p in ps && StripSpace(p.text) == t
    ensures forall p :: p in ps && |StripSpace(p.text)| > 5 ==> StripSpace(p.text) in ts
    decreases |ps|
  {
    if |ps| == 0 then []
    else
      var init := ps[..|ps| - 1];
      assert ps == init + [ps[|ps| - 1]];
      var rest := WeChatTexts(init);
      var p := ps[|ps| - 1];
      var t := StripSpace(p.text);
      if p.hasImage && |t| < 5 then rest
      else if t != "" && |t| > 5 && t !in rest then rest + [t]
      else rest
  }

  /** Texts enter in the order they are first seen: the texts kept from a
      prefix of the paragraphs are a prefix of those kept from all. */
  lemma {:induction false} WeChatTextsPrefix(ps: seq<Paragraph>, k: nat)
    requires k <= |ps|
    ensures WeChatTexts(ps[..k]) <= WeChatTexts(ps)
    decreases |ps|
  {
    if k < |ps| {
      var init := ps[..|ps| - 1];
      assert init[..k] == ps[..k];
      WeChatTextsPrefix(init, k);
    } else {
      assert ps[..k] == ps;
    }
  }

  function WithoutImages(ps: seq<Paragraph>): (qs: seq<Paragraph>)
    ensures |qs| == |ps|
    ensures forall i :: 0 <= i < |ps| ==> qs[i] == Paragraph(ps[i].text, false)
  {
    seq(|ps|, i requires 0 <= i < |ps| => Paragraph(ps[i].text, false))
  }

  /** The image test never changes what is kept: an image paragraph under
      five characters would fail the length test anyway. */
  lemma {:induction false} ImageTestRedundant(ps: seq<Paragraph>)
    ensures WeChatTexts(ps) == WeChatTexts(WithoutImages(ps))
    decreases |ps|
  {
    if |ps| > 0 {
      var init := ps[..|ps| - 1];
      assert WithoutImages(ps)[..|ps| - 1] == WithoutImages(init);
      ImageTestRedundant(init);
    }
  }

  /** The WeChat paragraph loop of `scrape_article`, with its
      `added_content` set. */
  method WeChatBody(ps: seq<Paragraph>) returns (body: string)
    ensures body == Blocks(WeChatTexts(ps))
  {
    body := "";
    var added: set<string> := {};
    var i := 0;
    while i < |ps|
      invariant 0 <= i <= |ps|
      invariant body == Blocks(WeChatTexts(ps[..i]))
      invariant forall t :: t in added <==> t in WeChatTexts(ps[..i])
    {
      var p := ps[i];
      var t := StripSpace(p.text);
      assert ps[..i + 1][..i] == ps[..i];
      if p.hasImage && |t| < 5 {
      } else if t != "" && |t| > 5 && t !in added {
        body := body + t + "\n\n";
        added := added + {t};
      }
      i := i + 1;
    }
    assert ps[..|ps|] == ps;
  }

  function AuthorLine(author: Option<string>): string {
    if author.Some? then "作者: " + StripSpace(author.value) + "\n" else ""
  }

  function WeChatDateLine(date: Option<string>): string {
    if date.Some? && StripSpace(date.value) != "" then "日期: " + StripSpace(date.value) + "\n\n" else ""
  }

  /** A text under 200 characters is replaced by a longer fallback. */
  function WithBackup(text: string, backup: Option<string>): (r: string)
    ensures r == text || (|text| < 200 && backup == Some(r) && |r| > |text|)
    ensures |text| < 200 && backup.Some? && |backup.value| > |text| ==> r == backup.value
  {
    if |text| < 200 && backup.Some? && |backup.value| > |text| then backup.value else text
  }

  // re.sub(r'\n{3,}', '\n\n', text)

  /** The number of newlines that `s` starts with. */
  function NewlineRun(s: string): (n: nat)
    ensures n <= |s|
    ensures forall i :: 0 <= i < n ==> s[i] == '\n'
    ensures n < |s| ==> s[n] != '\n'
    ensures |s| > 0 && s[0] == '\n' ==> n >= 1
    decreases |s|
  {
    if |s| > 0 && s[0] == '\n' then 1 + NewlineRun(s[1..]) else 0
  }

  /** Every run of three or more newlines becomes two; everything else
      stays. */
  function Collapse(s: string): string
    decreases |s|
  {
    if |s| == 0 then ""
    else if s[0] != '\n' then [s[0]] + Collapse(s[1..])
    else
      var n := NewlineRun(s);
      (if n >= 3 then "\n\n" else s[..n]) + Collapse(s[n..])
  }

  /** No three newlines in a row. */
  predicate NoTripleNewline(r: string) {
    forall i :: 0 <= i && i + 2 < |r| ==> !(r[i] == '\n' && r[i + 1] == '\n' && r[i + 2] == '\n')
  }

  lemma NoTripleMeansNoMatch(r: string)
    ensures NoTripleNewline(r) <==> !Contains(r, "\n\n\n")
  {
    if !NoTripleNewline(r) {
      var i :| 0 <= i && i + 2 < |r| && r[i] == '\n' && r[i + 1] == '\n' && r[i + 2] == '\n';
      assert r[i..i + 3] == "\n\n\n";
      assert OccursAt(r, "\n\n\n", i);
    }
    if Contains(r, "\n\n\n") {
      var i :| 0 <= i <= |r| - 3 && OccursAt(r, "\n\n\n", i);
      assert r[i] == r[i..i + 3][0] && r[i + 1] == r[i..i + 3][1] && r[i + 2] == r[i..i + 3][2];
    }
  }

  /** Collapsing keeps the character a string starts with when it is not a
      newline. */
  lemma CollapseHead(s: string)
    requires |s| > 0 && s[0] != '\n'
    ensures |Collapse(s)| > 0 && Collapse(s)[0] == s[0]
  {
  }

  /** After collapsing no three newlines remain. */
  lemma {:induction false} CollapseNoTriple(s: string)
    ensures NoTripleNewline(Collapse(s))
    decreases |s|
  {
    if |s| == 0 {
    } else if s[0] != '\n' {
      CollapseNoTriple(s[1..]);
      var r := Collapse(s[1..]);
      assert forall i :: 1 <= i < |r| + 1 ==> ([s[0]] + r)[i] == r[i - 1];
    } else {
      var n := NewlineRun(s);
      var p := if n >= 3 then "\n\n" else s[..n];
      var r := Collapse(s[n..]);
      CollapseNoTriple(s[n..]);
      if n < |s| {
        CollapseHead(s[n..]);
      }
      var c := p + r;
      assert |p| <= 2;
      forall i | 0 <= i && i + 2 < |c| ensures !(c[i] == '\n' && c[i + 1] == '\n' && c[i + 2] == '\n') {
        if i < |p| {
          assert c[|p|] == r[0];
        } else {
          assert c[i] == r[i - |p|] && c[i + 1] == r[i + 1 - |p|] && c[i + 2] == r[i + 2 - |p|];
        }
      }
    }
  }

  /** A string without three newlines in a row is left as it is. */
  lemma {:induction false} CollapseKeepsShortRuns(s: string)
    requires NoTripleNewline(s)
    ensures Collapse(s) == s
    decreases |s|
  {
    if |s| == 0 {
    } else if s[0] != '\n' {
      assert NoTripleNewline(s[1..]) by {
        assert forall i :: 0 <= i < |s| - 1 ==> s[1..][i] == s[i + 1];
      }
      CollapseKeepsShortRuns(s[1..]);
      assert s == [s[0]] + s[1..];
    } else {
      var n := NewlineRun(s);
      if |s| >= 3 {
        assert !(s[0] == '\n' && s[1] == '\n' && s[2] == '\n');
      }
      assert n < 3;
      assert NoTripleNewline(s[n..]) by {
        assert forall i :: 0 <= i < |s| - n ==> s[n..][i] == s[i + n];
      }
      CollapseKeepsShortRuns(s[n..]);
      assert s == s[..n] + s[n..];
    }
  }

  /** `re.sub` applied twice changes nothing more. */
  lemma CollapseIdempotent(s: string)
    ensures Collapse(Collapse(s)) == Collapse(s)
  {
    CollapseNoTriple(s);
    CollapseKeepsShortRuns(Collapse(s));
  }

  /** The characters of `s` other than newlines. */
  function Unlined(s: string): string
    decreases |s|
  {
    if |s| == 0 then "" else (if s[0] == '\n' then "" else [s[0]]) + Unlined(s[1..])
  }

  lemma {:induction false} UnlinedConcat(a: string, b: string)
    ensures Unlined(a + b) == Unlined(a) + Unlined(b)
    decreases |a|
  {
    if |a| > 0 {
      assert (a + b)[1..] == a[1..] + b;
      UnlinedConcat(a[1..], b);
    } else {
      assert a + b == b;
    }
  }

  lemma {:induction false} UnlinedNewlines(s: string)
    requires forall i :: 0 <= i < |s| ==> s[i] == '\n'
    ensures Unlined(s) == ""
    decreases |s|
  {
    if |s| > 0 {
      UnlinedNewlines(s[1..]);
    }
  }

  /** Collapsing removes newlines only: every other character stays, in
      order. */
  lemma {:induction false} CollapseKeepsText(s: string)
    ensures Unlined(Collapse(s)) == Unlined(s)
    decreases |s|
  {
    if |s| == 0 {
    } else if s[0] != '\n' {
      CollapseKeepsText(s[1..]);
      UnlinedConcat([s[0]], Collapse(s[1..]));
      assert Unlined([s[0]]) == [s[0]];
    } else {
      var n := NewlineRun(s);
      var p := if n >= 3 then "\n\n" else s[..n];
      CollapseKeepsText(s[n..]);
      UnlinedConcat(p, Collapse(s[n..]));
      UnlinedNewlines(p);
      assert s == s[..n] + s[n..];
      UnlinedConcat(s[..n], s[n..]);
      UnlinedNewlines(s[..n]);
    }
  }

  /** The text one attempt extracts from a loaded page, by site. */
  function TechCrunchText(url: string, page: Page): string {
    StripSpace(TitleLine(page.title) + "作者：TechCrunch\n" + DateLine(url) + Blocks(LongTexts(page.paragraphs)))
  }

  function WeChatText(page: Page): string {
    WithBackup(StripSpace(TitleLine(page.title) + AuthorLine(page.author) + WeChatDateLine(page.date)
                          + Blocks(WeChatTexts(page.paragraphs))), page.backup)
  }

  predicate IsTechCrunch(url: string) {
    Contains(url, "techcrunch.com")
  }

  predicate IsWeChat(url: string) {
    Contains(url, "mp.weixin.qq.com") || Contains(url, "weixin.qq.com")
  }

  function ExtractText(url: string, page: Page): string {
    if IsTechCrunch(url) then TechCrunchText(url, page)
    else if IsWeChat(url) then WeChatText(page)
    else Collapse(page.text)
  }

  /** The extraction step of one attempt, with its paragraph loops. */
  method Extract(url: string, page: Page) returns (text: string)
    ensures text == ExtractText(url, page)
  {
    if IsTechCrunch(url) {
      var body := TechCrunchBody(page.paragraphs);
      text := StripSpace(TitleLine(page.title) + "作者：TechCrunch\n" + DateLine(url) + body);
    } else if IsWeChat(url) {
      var body := WeChatBody(page.paragraphs);
      text := StripSpace(TitleLine(page.title) + AuthorLine(page.author) + WeChatDateLine(page.date) + body);
      text := WithBackup(text, page.backup);
    } else {
      text := Collapse(page.text);
    }
  }

  // ------------------------------------------------------------------
  // The retry loop of scrape_article
  // ------------------------------------------------------------------

  const MaxRetries := 3

  /** `time.sleep(3 * retry_count)`, in milliseconds per failed attempt. */
  const BackoffUnit := 3000

  /** What attempt `k` on a URL obtained. */
  datatype Load = Raised(message: string) | Loaded(page: Page)

  type Browser = (string, nat) -> Load

  /** The text attempt `k` extracts, None when it raised before. */
  function Attempts(url: string, browser: Browser): nat -> Option<string> {
    (k: nat) => if browser(url, k).Raised? then None else Some(ExtractText(url, browser(url, k).page))
  }

  /** Extracted text still showing the verification page: both phrases. */
  predicate Blocked(text: string) {
    Contains(text, EnvironmentAlert) && Contains(text, VerifyPrompt)
  }

  /** The attempt extracted a text that is saved. */
  predicate Saves(try: Option<string>) {
    try.Some? && !Blocked(try.value)
  }

  /** The file content written for an extracted text. */
  function SavedContent(url: string, text: string): string {
    url + "\n\n" + text
  }

  /** Attempts `lo` to `hi - 1` all failed. */
  predicate FailedBetween(tries: nat -> Option<string>, lo: nat, hi: nat)
    decreases hi
  {
    lo < hi ==> FailedBetween(tries, lo, hi - 1) && !Saves(tries(hi - 1))
  }

  lemma {:induction false} FailedMeans(tries: nat -> Option<string>, lo: nat, hi: nat)
    ensures FailedBetween(tries, lo, hi) <==> forall j :: lo <= j < hi ==> !Saves(tries(j))
    decreases hi
  {
    if lo < hi {
      FailedMeans(tries, lo, hi - 1);
    }
  }

  lemma {:induction false} FailedCons(tries: nat -> Option<string>, lo: nat, hi: nat)
    requires lo < hi
    requires !Saves(tries(lo)) && FailedBetween(tries, lo + 1, hi)
    ensures FailedBetween(tries, lo, hi)
    decreases hi
  {
    if lo + 1 < hi {
      FailedCons(tries, lo, hi - 1);
    }
  }

  /** The result of `scrape_article`: whether it returned True, the content
      written (None when nothing was), the attempts made and the
      milliseconds slept. */
  datatype ScrapeRun = ScrapeRun(success: bool, written: Option<string>, attempts: nat, slept: nat)

  /** The loop from attempt `k` on, for the texts the attempts extract. */
  function ScrapeFrom(url: string, tries: nat -> Option<string>, k: nat): (run: ScrapeRun)
    requires k < MaxRetries
    ensures 1 <= run.attempts <= MaxRetries - k
    ensures run.success <==> run.written.Some?
    decreases MaxRetries - k
  {
    if Saves(tries(k)) then ScrapeRun(true, Some(SavedContent(url, tries(k).value)), 1, 0)
    else if k + 1 < MaxRetries then
      var rest := ScrapeFrom(url, tries, k + 1);
      ScrapeRun(rest.success, rest.written, rest.attempts + 1, rest.slept + BackoffUnit * (k + 1))
    else ScrapeRun(false, None, 1, 0)
  }

  /** `scrape_article(url, output_path)` for the file found at
      `output_path` and the texts the attempts would extract. */
  function Scrape(url: string, file: FileState, tries: nat -> Option<string>): ScrapeRun {
    if SavedCleanly(file) then ScrapeRun(true, None, 0, 0) else ScrapeFrom(url, tries, 0)
  }

  /** The milliseconds slept after `n` failed attempts, none of them the
      last: 3 s after the first, 6 s after the second. */
  function Backoff(n: nat): nat {
    if n == 0 then 0 else Backoff(n - 1) + BackoffUnit * n
  }

  /** The loop stops at the first attempt that saves, and what it writes is
      the URL, a blank line and that attempt's text. */
  lemma {:induction false} ScrapeStopsAtFirstSave(url: string, tries: nat -> Option<string>, k: nat)
    requires k < MaxRetries
    ensures var run := ScrapeFrom(url, tries, k);
      var last := tries(k + run.attempts - 1);
      FailedBetween(tries, k, k + run.attempts - 1)
      && (run.success <==> Saves(last))
      && (run.success ==> run.written == Some(SavedContent(url, last.value)))
      && (!run.success ==> k + run.attempts == MaxRetries)
      && run.slept == Backoff(k + run.attempts - 1) - Backoff(k)
    decreases MaxRetries - k
  {
    if !Saves(tries(k)) && k + 1 < MaxRetries {
      ScrapeStopsAtFirstSave(url, tries, k + 1);
      var rest := ScrapeFrom(url, tries, k + 1);
      FailedCons(tries, k, k + 1 + rest.attempts - 1);
    }
  }

  /** After `k` failed attempts the run from the start is the run from `k`,
      `k` attempts and `Backoff(k)` milliseconds later. */
  lemma {:induction false} ScrapeAfter(url: string, tries: nat -> Option<string>, k: nat)
    requires k < MaxRetries && FailedBetween(tries, 0, k)
    ensures var run := ScrapeFrom(url, tries, 0);
      var rest := ScrapeFrom(url, tries, k);
      run.success == rest.success && run.written == rest.written
      && run.attempts == k + rest.attempts && run.slept == Backoff(k) + rest.slept
    decreases k
  {
    if k > 0 {
      ScrapeAfter(url, tries, k - 1);
    }
  }

  /** The guard skips the scrape exactly when the file was saved cleanly;
      otherwise at most three attempts run, with 3 s and then 6 s of sleep
      between them and none after the last. */
  lemma ScrapeAttempts(url: string, file: FileState, tries: nat -> Option<string>)
    ensures var run := Scrape(url, file, tries);
      (run.attempts == 0 <==> SavedCleanly(file))
      && (SavedCleanly(file) ==> run.success && run.written.None? && run.slept == 0)
      && run.attempts <= MaxRetries
      && (run.attempts > 0 ==> run.slept == Backoff(run.attempts - 1))
      && (!run.success ==> run.attempts == MaxRetries && run.slept == 3000 + 6000)
  {
    if !SavedCleanly(file) {
      ScrapeStopsAtFirstSave(url, tries, 0);
    }
  }

  /** A scrape succeeds exactly when the file was saved cleanly or one of
      the three attempts extracts a text that is not blocked; what it then
      writes is the URL, a blank line and the first such text. */
  lemma ScrapeSucceedsIff(url: string, file: FileState, tries: nat -> Option<string>)
    ensures Scrape(url, file, tries).success <==>
      SavedCleanly(file) || exists j | 0 <= j < MaxRetries :: Saves(tries(j))
  {
    if !SavedCleanly(file) {
      var run := ScrapeFrom(url, tries, 0);
      ScrapeStopsAtFirstSave(url, tries, 0);
      var n := run.attempts - 1;
      if run.success {
        assert Saves(tries(n));
      } else {
        FailedMeans(tries, 0, n);
        assert forall j | 0 <= j < MaxRetries :: !Saves(tries(j));
      }
    }
  }

  /** The guard checks for either phrase, the loop rejects only a text with
      both: a short page with the alert phrase alone is saved, and the next
      run finds the saved file unclean and scrapes it again. */
  lemma GuardStricterThanLoop(url: string, text: string)
    requires Contains(text, EnvironmentAlert) && !Contains(text, VerifyPrompt)
    requires |SavedContent(url, text)| <= 1000
    ensures !Blocked(text)
    ensures !SavedCleanly(Present(SavedContent(url, text)))
  {
    ContainsConcat(url + "\n\n", text, EnvironmentAlert);
  }

  /** One attempt: load the page, extract its text, test for the
      verification page. */
  method TryOnce(url: string, browser: Browser, k: nat) returns (text: string, saved: bool)
    ensures var try := Attempts(url, browser)(k);
      (saved <==> Saves(try)) && (saved ==> text == try.value)
  {
    match browser(url, k)
    case Raised(_) =>
      text, saved := "", false;
    case Loaded(page) =>
      text := Extract(url, page);
      saved := !(Contains(text, EnvironmentAlert) && Contains(text, VerifyPrompt));
  }

  /** `scrape_article(url, output_path)`, starting at `clock`: returns what
      the function returns, the content written to the file and the time
      after the sleeps. */
  method ScrapeArticle(url: string, file: FileState, browser: Browser, clock: int)
    returns (success: bool, written: Option<string>, after: int)
    ensures var run := Scrape(url, file, Attempts(url, browser));
      success == run.success && written == run.written && after == clock + run.slept
  {
    if file.Present? {
      var head := Head(file.content);
      if !(Contains(head, EnvironmentAlert) || Contains(head, VerifyPrompt)) {
        return true, None, clock;
      }
    }
    ghost var tries := Attempts(url, browser);
    var retryCount := 0;
    success, written, after := false, None, clock;
    while retryCount < MaxRetries
      invariant 0 <= retryCount < MaxRetries
      invariant FailedBetween(tries, 0, retryCount)
      invariant after == clock + Backoff(retryCount)
    {
      var text, saved := TryOnce(url, browser, retryCount);
      ScrapeAfter(url, tries, retryCount);
      retryCount := retryCount + 1;
      if saved {
        success, written := true, Some(SavedContent(url, text));
        break;
      } else if retryCount >= MaxRetries {
        break;
      }
      after := after + BackoffUnit * retryCount;
    }
  }

  // ------------------------------------------------------------------
  // main
  // ------------------------------------------------------------------

  /** `max_workers = 2`, used as the batch size. */
  const BatchSize := 2

  /** `os.path.join(a, b)`: an absolute `b` replaces `a`; otherwise a `/`
      separates them unless `a` is empty or already ends with one. */
  function PathJoin(a: string, b: string): (p: string)
    ensures EndsWith(p, b)
    ensures StartsWith(b, "/") ==> p == b
    ensures !StartsWith(b, "/") ==> StartsWith(p, a)
  {
    if StartsWith(b, "/") then b
    else if a == "" || EndsWith(a, "/") then
      assert (a + b)[|a + b| - |b|..] == b;
      a + b
    else
      assert (a + "/" + b)[|a + "/" + b| - |b|..] == b;
      a + "/" + b
  }

  function ArticlePath(outputDir: string, url: string, md5: Md5): string {
    PathJoin(outputDir, FilenameFromUrl(url, md5) + ".txt")
  }

  /** One submitted task: the path it saves to and what it returned. */
  datatype ScrapeTask = ScrapeTask(path: string, success: bool)

  /** The tasks of `main`, in input order: each URL scraped into its path,
      `files` giving what each path held before the run. */
  function UrlTasks(urls: seq<string>, outputDir: string, md5: Md5, files: string -> FileState,
                    browser: Browser): (tasks: seq<ScrapeTask>)
    ensures |tasks| == |urls|
    ensures forall i :: 0 <= i < |urls| ==>
      tasks[i].path == ArticlePath(outputDir, urls[i], md5)
      && (tasks[i].success <==> Scrape(urls[i], files(tasks[i].path), Attempts(urls[i], browser)).success)
  {
    seq(|urls|, i requires 0 <= i < |urls| =>
      var path := ArticlePath(outputDir, urls[i], md5);
      ScrapeTask(path, Scrape(urls[i], files(path), Attempts(urls[i], browser)).success))
  }

  /** `if success: successful_articles.append(article_path)` */
  function Manifested(t: ScrapeTask): seq<string> {
    if t.success then [t.path] else []
  }

  /** A path is in the manifest exactly when some task saving to it
      returned True. */
  lemma {:induction false} ManifestMembers(tasks: seq<ScrapeTask>, p: string)
    ensures p in FlatMap(Manifested, tasks) <==> exists i | 0 <= i < |tasks| :: tasks[i].success && tasks[i].path == p
    decreases |tasks|
  {
    if |tasks| > 0 {
      var init := tasks[..|tasks| - 1];
      ManifestMembers(init, p);
      assert forall i | 0 <= i < |init| :: init[i] == tasks[i];
      var last := tasks[|tasks| - 1];
      if last.success && last.path == p {
        assert p in FlatMap(Manifested, tasks);
      }
    }
  }

  datatype ScrapeEnd = NoInput | Manifest(paths: seq<string>, content: string)

  function MainTasks(lines: seq<string>, outputDir: string, md5: Md5, files: string -> FileState,
                     browser: Browser): seq<ScrapeTask>
  {
    UrlTasks(NonBlankLines(lines), outputDir, md5, files, browser)
  }

  /** `main(input_txt, output_dir)`, with `input` the lines of the URL file
      (None when it does not exist) and `arrivals` the completion order of
      each batch of two. The manifest lists the path of every task that
      returned True, batch after batch, each batch in completion order. */
  method Run(input: Option<seq<string>>, outputDir: string, md5: Md5, files: string -> FileState,
             browser: Browser, arrivals: seq<seq<ScrapeTask>>)
    returns (end: ScrapeEnd)
    requires input.Some? ==>
      IsCompletionOrder(MainTasks(input.value, outputDir, md5, files, browser), BatchSize, arrivals)
    ensures input.None? <==> end == NoInput
    ensures input.Some? ==>
      var tasks := MainTasks(input.value, outputDir, md5, files, browser);
      end.Manifest? && end.paths == FlatMap(Manifested, Flatten(arrivals))
      && multiset(end.paths) == multiset(FlatMap(Manifested, tasks))
      && end.content == Lines(end.paths)
  {
    if input.None? {
      return NoInput;
    }
    var urls := NonBlankLines(input.value);
    var tasks := UrlTasks(urls, outputDir, md5, files, browser);
    var successful := Collect(tasks, BatchSize, arrivals, Manifested);
    var content := WriteLines(successful);
    return Manifest(successful, content);
  }
}
