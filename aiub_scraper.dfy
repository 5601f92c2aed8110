/** The crawling and filtering logic of the AIUB news-and-events scraper
    (teacher_utility/aiub_cs_scraper/aiub_cs_scraper.py): which listing
    links are followed, how the listing is paged, which image URLs a post
    yields and which posts are kept. HTTP, HTML parsing, the regex engine
    and `urljoin` are inputs: `search(pattern, text)` stands for
    `re.search(pattern, text, re.IGNORECASE)` succeeding and
    `urljoin(base, ref)` for `urllib.parse.urljoin`. */
module AiubScraper {
  import opened PyStr
  import opened Opt
  import opened Dedup
  import opened SeqUtil
  import opened PyPath
  import opened AiubNames

  const Base := "https://www.aiub.edu"

  const OrganizerPatterns: seq<string> := [
    "\\bDepartment of Computer Science\\b",
    "\\bComputer\\s*Science\\b",
    "\\bFaculty of Engineering\\b",
    "\\bDepartment of EEE\\b",
    "\\bEEE\\b",
    "\\bIEEE\\s+AIUB\\b",
    "\\bAIUB Journal of Science and Engineering\\b",
    "\\bAJSE\\b",
    "\\bICCA\\b",
    "\\bInternational Conference on Computing Advancements\\b",
    "\\bICCIT\\b",
    "\\bInternational Conference on Computer and Information Technology\\b"
  ]

  const TextPatterns: seq<string> := [
    "\\bICCA\\b",
    "\\bInternational Conference on Computing Advancements\\b",
    "\\bICCIT\\b",
    "\\bInternational Conference on Computer and Information Technology\\b",
    "\\bAJSE\\b",
    "\\bAIUB Journal of Science and Engineering\\b",
    "\\bjournal\\b",
    "\\bcall for papers\\b",
    "\\bspecial issue\\b",
    "\\bconference\\b",
    "\\bsymposium\\b",
    "\\bworkshop\\b",
    "\\bCSE\\b",
    "\\bComputer\\s*Science\\b",
    "\\bEngineering\\b"
  ]

  /** `any_match(patterns, text)`: an empty text matches nothing; otherwise
      the patterns are tried in order until one matches. */
  function AnyMatch(patterns: seq<string>, text: string, search: (string, string) -> bool): (r: bool)
    ensures r <==> text != "" && exists i :: 0 <= i < |patterns| && search(patterns[i], text)
  {
    if text == "" then false
    else if |patterns| == 0 then false
    else if search(patterns[0], text) then true
    else
      var r := AnyMatch(patterns[1..], text, search);
      assert forall i :: 1 <= i < |patterns| ==> patterns[i] == patterns[1..][i - 1];
      r
  }

  // ---------------------------------------------------------------------
  // Listing pages

  /** The hrefs a listing page must not be followed into. */
  const SkipParts: seq<string> := ["/category/", "/faculties/", "/notice", "/notices", "/newsletter"]

  /** The link filter of `iter_listing_pages`: a stripped href is followed
      when it is a top-level path `/slug` of more than two characters that
      contains none of the skip parts. */
  predicate KeepHref(href: string) {
    StartsWith(href, "/") && Count(href, '/') == 1 && |href| > 2
    && !(exists k :: 0 <= k < |SkipParts| && Contains(href, SkipParts[k]))
  }

  /** The links of one listing page, in page order. */
  function PageLinks(hrefs: seq<string>, urljoin: (string, string) -> string): seq<string> {
    if |hrefs| == 0 then []
    else
      var h := Strip(hrefs[|hrefs| - 1]);
      PageLinks(hrefs[..|hrefs| - 1], urljoin) + (if KeepHref(h) then [urljoin(Base, h)] else [])
  }

  function Id(u: string): string { u }

  /** The links of one page with repeats dropped, first occurrence kept. */
  function PageUnique(hrefs: seq<string>, urljoin: (string, string) -> string): seq<string> {
    KeepFirst(PageLinks(hrefs, urljoin), Id)
  }

  /** The lists the generator yields from page `n` on (page numbers start
      at 1, so this is `pageNo == n + 1`): each page's unique links, up to
      the first page without any. Pages past the end of `listing` have no
      links. */
  function Yielded(listing: seq<seq<string>>, urljoin: (string, string) -> string, n: nat): seq<seq<string>> {
    TakePages(listing, UniqueOf(urljoin), n)
  }

  function UniqueOf(urljoin: (string, string) -> string): seq<string> -> seq<string> {
    hrefs => PageUnique(hrefs, urljoin)
  }

  /** What each page gives by `unique`, from page `n` up to the first page
      that gives nothing. */
  function TakePages(listing: seq<seq<string>>, unique: seq<string> -> seq<string>, n: nat): seq<seq<string>>
    decreases |listing| - n
  {
    if n >= |listing| || unique(listing[n]) == [] then []
    else [unique(listing[n])] + TakePages(listing, unique, n + 1)
  }

  /** The loop over the anchors of one page. */
  method ScanLinks(hrefs: seq<string>, urljoin: (string, string) -> string) returns (links: seq<string>)
    ensures links == PageLinks(hrefs, urljoin)
  {
    links := [];
    for k := 0 to |hrefs|
      invariant links == PageLinks(hrefs[..k], urljoin)
    {
      assert hrefs[..k + 1][..k] == hrefs[..k];
      var href := Strip(hrefs[k]);
      if StartsWith(href, "/") && Count(href, '/') == 1 && |href| > 2 {
        if exists i :: 0 <= i < |SkipParts| && Contains(href, SkipParts[i]) {
          continue;
        }
        links := links + [urljoin(Base, href)];
      }
    }
    assert hrefs[..|hrefs|] == hrefs;
  }

  /** `iter_listing_pages`, run to the end: the pages of `listing` are
      fetched in order until one has no link to follow. */
  method IterListingPages(listing: seq<seq<string>>, urljoin: (string, string) -> string)
    returns (pages: seq<seq<string>>)
    ensures pages == Yielded(listing, urljoin, 0)
  {
    var pageNo := 1;
    pages := [];
    while true
      invariant 1 <= pageNo <= |listing| + 1
      invariant pages + Yielded(listing, urljoin, pageNo - 1) == Yielded(listing, urljoin, 0)
      decreases |listing| + 1 - pageNo
    {
      var hrefs := if pageNo - 1 < |listing| then listing[pageNo - 1] else [];
      var links := ScanLinks(hrefs, urljoin);
      var uniqueLinks := DedupByKey(links, Id);
      if uniqueLinks == [] {
        break;
      }
      ghost var rest := Yielded(listing, urljoin, pageNo);
      assert Yielded(listing, urljoin, pageNo - 1) == [uniqueLinks] + rest;
      AppendAssoc(pages, [uniqueLinks], rest);
      pages := pages + [uniqueLinks];
      pageNo := pageNo + 1;
    }
    assert pages + [] == pages;
  }

  // ---------------------------------------------------------------------
  // Properties of the link filter and of paging

  /** A string contains each character of a piece of it at least as often. */
  lemma {:induction false} ContainsCount(s: string, t: string, c: char)
    requires Contains(s, t)
    ensures Count(s, c) >= Count(t, c)
  {
    if t <= s {
      assert s == t + s[|t|..];
      assert multiset(s) == multiset(t) + multiset(s[|t|..]);
    } else {
      ContainsCount(s[1..], t, c);
      assert s == [s[0]] + s[1..];
      assert multiset(s) == multiset([s[0]]) + multiset(s[1..]);
    }
  }

  /** A string containing `t` contains every prefix of `t`. */
  lemma {:induction false} ContainsPrefixOf(s: string, t: string, u: string)
    requires Contains(s, t) && u <= t
    ensures Contains(s, u)
  {
    if !(t <= s) {
      ContainsPrefixOf(s[1..], t, u);
    }
  }

  /** The only `/` of a string that starts with one is its first character. */
  lemma OneSlash(h: string)
    requires |h| > 0 && h[0] == '/'
    ensures Count(h, '/') == 1 <==> '/' !in h[1..]
  {
    assert h == [h[0]] + h[1..];
    assert multiset(h) == multiset([h[0]]) + multiset(h[1..]);
  }

  /** A piece that begins and ends with `/` holds two of them. */
  lemma TwoSlashes(t: string)
    requires |t| >= 2 && t[0] == '/' && t[|t| - 1] == '/'
    ensures Count(t, '/') >= 2
  {
    assert t == [t[0]] + t[1..|t| - 1] + [t[|t| - 1]];
    assert multiset(t) == multiset([t[0]]) + multiset(t[1..|t| - 1]) + multiset([t[|t| - 1]]);
  }

  /** A one-slash string contains no piece that begins and ends with `/`. */
  lemma NoTwoSlashPiece(h: string, t: string)
    requires Count(h, '/') == 1
    requires |t| >= 2 && t[0] == '/' && t[|t| - 1] == '/'
    ensures !Contains(h, t)
  {
    TwoSlashes(t);
    if Contains(h, t) {
      ContainsCount(h, t, '/');
    }
  }

  /** The skip test, one part at a time. */
  lemma SkipParts5(h: string)
    ensures (exists k :: 0 <= k < |SkipParts| && Contains(h, SkipParts[k]))
      <==> (Contains(h, "/category/") || Contains(h, "/faculties/") || Contains(h, "/notice")
            || Contains(h, "/notices") || Contains(h, "/newsletter"))
  {
    assert SkipParts[0] == "/category/" && SkipParts[1] == "/faculties/" && SkipParts[2] == "/notice";
    assert SkipParts[3] == "/notices" && SkipParts[4] == "/newsletter";
  }

  /** Under the one-slash test, only `/notice` and `/newsletter` of the
      skip parts can still match. */
  lemma SkipOneSlash(h: string)
    requires Count(h, '/') == 1
    ensures (exists k :: 0 <= k < |SkipParts| && Contains(h, SkipParts[k]))
      <==> (Contains(h, "/notice") || Contains(h, "/newsletter"))
  {
    SkipParts5(h);
    NoTwoSlashPiece(h, "/category/");
    NoTwoSlashPiece(h, "/faculties/");
    if Contains(h, "/notices") {
      ContainsPrefixOf(h, "/notices", "/notice");
    }
  }

  /** The filter, simplified: a kept href is `/` followed by at least two
      characters none of which is `/`, and it contains neither `/notice` nor
      `/newsletter`. The skip parts `/category/` and `/faculties/` hold two
      slashes and can never match a one-slash href, and `/notices` is
      already covered by `/notice`. */
  lemma KeepHrefSimplified(h: string)
    ensures KeepHref(h) <==>
      (|h| > 2 && h[0] == '/' && '/' !in h[1..]
       && !Contains(h, "/notice") && !Contains(h, "/newsletter"))
  {
    if |h| > 0 && h[0] == '/' {
      OneSlash(h);
      assert StartsWith(h, "/");
      if Count(h, '/') == 1 {
        SkipOneSlash(h);
      }
    }
  }

  /** The links of a page are exactly the joined hrefs that pass the filter. */
  lemma {:induction false} PageLinksMembers(hrefs: seq<string>, urljoin: (string, string) -> string, u: string)
    ensures u in PageLinks(hrefs, urljoin) <==>
      exists k :: 0 <= k < |hrefs| && KeepHref(Strip(hrefs[k])) && u == urljoin(Base, Strip(hrefs[k]))
  {
    if |hrefs| > 0 {
      var p := hrefs[..|hrefs| - 1];
      PageLinksMembers(p, urljoin, u);
      assert forall k :: 0 <= k < |p| ==> p[k] == hrefs[k];
    }
  }

  /** Each yielded list is the page's unique links: non-empty, free of
      repeats, and in first-occurrence order. */
  lemma YieldedPages(listing: seq<seq<string>>, urljoin: (string, string) -> string, n: nat, i: nat)
    requires i < |Yielded(listing, urljoin, n)|
    ensures n + i < |listing|
    ensures Yielded(listing, urljoin, n)[i] == PageUnique(listing[n + i], urljoin)
    ensures PageUnique(listing[n + i], urljoin) != []
    ensures DistinctKeys(PageUnique(listing[n + i], urljoin), Id)
    ensures PageUnique(listing[n + i], urljoin) == FirstOccurrences(PageLinks(listing[n + i], urljoin), Id)
  {
    YieldedAt(listing, urljoin, n, i);
    KeepFirstDistinct(PageLinks(listing[n + i], urljoin), Id);
    KeepFirstIsFirstOccurrences(PageLinks(listing[n + i], urljoin), Id);
  }

  /** The `i`-th list yielded from page `n` on is page `n + i`'s. */
  lemma YieldedAt(listing: seq<seq<string>>, urljoin: (string, string) -> string, n: nat, i: nat)
    requires i < |Yielded(listing, urljoin, n)|
    ensures n + i < |listing|
    ensures Yielded(listing, urljoin, n)[i] == PageUnique(listing[n + i], urljoin)
    ensures PageUnique(listing[n + i], urljoin) != []
  {
    TakeAt(listing, UniqueOf(urljoin), n, i);
  }

  lemma {:induction false} TakeAt(listing: seq<seq<string>>, unique: seq<string> -> seq<string>, n: nat, i: nat)
    requires i < |TakePages(listing, unique, n)|
    ensures n + i < |listing|
    ensures TakePages(listing, unique, n)[i] == unique(listing[n + i]) != []
    decreases i
  {
    if i > 0 {
      TakeAt(listing, unique, n + 1, i - 1);
    }
  }

  /** De-duplication keeps a page empty exactly when it had no link. */
  lemma UniqueEmpty(links: seq<string>)
    ensures KeepFirst(links, Id) == [] <==> links == []
  {
    KeepFirstKeys(links, Id);
    if links != [] {
      assert Id(links[0]) in KeySet(links, Id);
    }
  }

  /** Paging stops at the first page without a unique link (by
      `UniqueEmpty`, the first page without a kept link): every page before
      it has one, and the page after the last yielded one has none, or the
      listing has ended. */
  lemma PagingStops(listing: seq<seq<string>>, urljoin: (string, string) -> string, n: nat)
    ensures n + |Yielded(listing, urljoin, n)| <= |listing| || Yielded(listing, urljoin, n) == []
    ensures forall i :: n <= i < n + |Yielded(listing, urljoin, n)| ==> PageUnique(listing[i], urljoin) != []
    ensures n + |Yielded(listing, urljoin, n)| >= |listing|
      || PageUnique(listing[n + |Yielded(listing, urljoin, n)|], urljoin) == []
  {
    var u := UniqueOf(urljoin);
    TakeStops(listing, u, n);
    forall i | n <= i < |listing|
      ensures u(listing[i]) == PageUnique(listing[i], urljoin)
    {
    }
  }

  lemma {:induction false} TakeStops(listing: seq<seq<string>>, unique: seq<string> -> seq<string>, n: nat)
    ensures n + |TakePages(listing, unique, n)| <= |listing| || TakePages(listing, unique, n) == []
    ensures forall i :: n <= i < n + |TakePages(listing, unique, n)| ==> unique(listing[i]) != []
    ensures n + |TakePages(listing, unique, n)| >= |listing|
      || unique(listing[n + |TakePages(listing, unique, n)|]) == []
    decreases |listing| - n
  {
    if n < |listing| && unique(listing[n]) != [] {
      TakeStops(listing, unique, n + 1);
    }
  }

  // ---------------------------------------------------------------------
  // The images of a post

  /** The `src`, `data-src` and `data-original` attributes of an `<img>`. */
  datatype ImgAttrs = ImgAttrs(src: Option<string>, dataSrc: Option<string>, dataOriginal: Option<string>)

  /** An attribute Python treats as true: present and not empty. */
  predicate Truthy(a: Option<string>) { a.Some? && a.value != "" }

  /** `img.get("src") or img.get("data-src") or img.get("data-original")`. */
  function FirstSource(img: ImgAttrs): (r: Option<string>)
    ensures Truthy(r) <==> Truthy(img.src) || Truthy(img.dataSrc) || Truthy(img.dataOriginal)
  {
    if Truthy(img.src) then img.src
    else if Truthy(img.dataSrc) then img.dataSrc
    else img.dataOriginal
  }

  /** `normalize_url`: no URL for a missing or empty source, otherwise the
      stripped source resolved against the site. */
  function NormalizeUrl(src: Option<string>, urljoin: (string, string) -> string): (r: Option<string>)
    ensures r.Some? <==> Truthy(src)
  {
    if !Truthy(src) then None else Some(urljoin(Base, Strip(src.value)))
  }

  const ImageExts: seq<string> := [".png", ".jpg", ".jpeg", ".webp", ".gif"]

  /** `u.lower().endswith((".png", ".jpg", ".jpeg", ".webp", ".gif"))`. */
  predicate HasImageExt(u: string) {
    exists k :: 0 <= k < |ImageExts| && EndsWith(Lower(u), ImageExts[k])
  }

  /** The image URL one `<img>` contributes, if any. */
  function ImageUrl(img: ImgAttrs, urljoin: (string, string) -> string): Option<string> {
    var urlAbs := NormalizeUrl(FirstSource(img), urljoin);
    if urlAbs.Some? && urlAbs.value != "" && HasImageExt(urlAbs.value) then urlAbs else None
  }

  /** The set `img_urls` after the loop over `imgs`. */
  function ImageSet(imgs: seq<ImgAttrs>, urljoin: (string, string) -> string): set<string> {
    if imgs == [] then {}
    else
      var u := ImageUrl(imgs[|imgs| - 1], urljoin);
      ImageSet(imgs[..|imgs| - 1], urljoin) + (if u.Some? then {u.value} else {})
  }

  /** Python's `<` on strings: code point by code point, a proper prefix
      first. */
  predicate LexLess(a: string, b: string) {
    if a == [] then b != []
    else if b == [] then false
    else if a[0] != b[0] then a[0] < b[0]
    else LexLess(a[1..], b[1..])
  }

  /** Every element after the first of `s` is above it: sorted with no
      repeats. */
  predicate StrictlySorted(s: seq<string>) {
    forall i, j :: 0 <= i < j < |s| ==> LexLess(s[i], s[j])
  }

  /** `m` is the least element of `s`. */
  predicate IsMin(m: string, s: set<string>) {
    m in s && forall y :: y in s && y != m ==> LexLess(m, y)
  }

  /** `sorted(s)` for a set of strings: its least element, then the rest. */
  function SortedOf(s: set<string>): (r: seq<string>)
    ensures forall x :: x in r <==> x in s
    ensures |r| == |s|
    ensures StrictlySorted(r)
    decreases |s|
  {
    if s == {} then []
    else
      MinExists(s);
      MinUnique(s);
      var m :| IsMin(m, s);
      var rest := SortedOf(s - {m});
      var r := [m] + rest;
      assert forall j :: 0 < j < |r| ==> r[j] == rest[j - 1];
      r
  }

  /** `parse_post`'s image loop and `sorted(img_urls)`. */
  method CollectImages(imgs: seq<ImgAttrs>, urljoin: (string, string) -> string) returns (images: seq<string>)
    ensures images == SortedOf(ImageSet(imgs, urljoin))
  {
    var imgUrls: set<string> := {};
    for k := 0 to |imgs|
      invariant imgUrls == ImageSet(imgs[..k], urljoin)
    {
      assert imgs[..k + 1][..k] == imgs[..k];
      var src := FirstSource(imgs[k]);
      var urlAbs := NormalizeUrl(src, urljoin);
      if urlAbs.Some? && urlAbs.value != "" && HasImageExt(urlAbs.value) {
        imgUrls := imgUrls + {urlAbs.value};
      }
    }
    assert imgs[..|imgs|] == imgs;
    images := SortedOf(imgUrls);
  }

  // ---------------------------------------------------------------------
  // Properties of the string order and of the image list

  lemma {:induction false} LexIrreflexive(a: string)
    ensures !LexLess(a, a)
  {
    if a != [] {
      LexIrreflexive(a[1..]);
    }
  }

  lemma {:induction false} LexTransitive(a: string, b: string, c: string)
    requires LexLess(a, b) && LexLess(b, c)
    ensures LexLess(a, c)
  {
    if a != [] && b != [] && c != [] && a[0] == b[0] && b[0] == c[0] {
      LexTransitive(a[1..], b[1..], c[1..]);
    }
  }

  lemma {:induction false} LexTotal(a: string, b: string)
    ensures a == b || LexLess(a, b) || LexLess(b, a)
  {
    if a != [] && b != [] && a[0] == b[0] {
      LexTotal(a[1..], b[1..]);
      if a[1..] == b[1..] {
        assert a == [a[0]] + a[1..] && b == [b[0]] + b[1..];
      }
    }
  }

  /** A non-empty finite set of strings has a least element. */
  lemma {:induction false} MinExists(s: set<string>)
    requires s != {}
    ensures exists m :: IsMin(m, s)
    decreases |s|
  {
    var x :| x in s;
    var rest := s - {x};
    if rest == {} {
      assert forall y :: y in s && y != x ==> y in rest;
      assert IsMin(x, s);
    } else {
      MinExists(rest);
      var m :| IsMin(m, rest);
      LexTotal(x, m);
      if LexLess(x, m) {
        forall y | y in s && y != x
          ensures LexLess(x, y)
        {
          if y != m {
            LexTransitive(x, m, y);
          }
        }
        assert IsMin(x, s);
      } else {
        assert IsMin(m, s);
      }
    }
  }

  /** The least element is unique. */
  lemma MinUnique(s: set<string>)
    ensures forall a, b :: IsMin(a, s) && IsMin(b, s) ==> a == b
  {
    forall a, b | IsMin(a, s) && IsMin(b, s)
      ensures a == b
    {
      if a != b {
        LexTransitive(a, b, a);
        LexIrreflexive(a);
      }
    }
  }

  /** The image set holds exactly the URLs some `<img>` contributes. */
  lemma {:induction false} ImageSetMembers(imgs: seq<ImgAttrs>, urljoin: (string, string) -> string, u: string)
    ensures u in ImageSet(imgs, urljoin) <==>
      exists k :: 0 <= k < |imgs| && ImageUrl(imgs[k], urljoin) == Some(u)
  {
    if imgs != [] {
      var p := imgs[..|imgs| - 1];
      ImageSetMembers(p, urljoin, u);
      assert forall k :: 0 <= k < |p| ==> p[k] == imgs[k];
    }
  }

  /** An `<img>` contributes a URL only when it has a non-empty source, and
      then the URL is non-empty and ends, in lower case, with one of the five
      image extensions. */
  lemma ImageUrlKept(img: ImgAttrs, urljoin: (string, string) -> string)
    ensures ImageUrl(img, urljoin).Some? ==>
      Truthy(FirstSource(img)) && ImageUrl(img, urljoin).value != "" && HasImageExt(ImageUrl(img, urljoin).value)
    ensures Truthy(FirstSource(img)) && urljoin(Base, Strip(FirstSource(img).value)) != ""
      && HasImageExt(urljoin(Base, Strip(FirstSource(img).value)))
      ==> ImageUrl(img, urljoin) == Some(urljoin(Base, Strip(FirstSource(img).value)))
  {
  }

  /** The extension test ignores case: a URL and its lower-case form pass or
      fail it together. */
  lemma ImageExtIgnoresCase(u: string)
    ensures HasImageExt(u) <==> HasImageExt(Lower(u))
  {
    assert Lower(Lower(u)) == Lower(u) by {
      forall k | 0 <= k < |u| ensures LowerChar(LowerChar(u[k])) == LowerChar(u[k]) {}
    }
  }

  /** The post's image list: sorted, without repeats, and holding exactly
      the URLs its `<img>` elements contribute. */
  lemma PostImages(imgs: seq<ImgAttrs>, urljoin: (string, string) -> string, u: string)
    ensures StrictlySorted(SortedOf(ImageSet(imgs, urljoin)))
    ensures u in SortedOf(ImageSet(imgs, urljoin)) <==>
      exists k :: 0 <= k < |imgs| && ImageUrl(imgs[k], urljoin) == Some(u)
    ensures forall i, j :: 0 <= i < j < |SortedOf(ImageSet(imgs, urljoin))| ==>
      SortedOf(ImageSet(imgs, urljoin))[i] != SortedOf(ImageSet(imgs, urljoin))[j]
  {
    ImageSetMembers(imgs, urljoin, u);
    var r := SortedOf(ImageSet(imgs, urljoin));
    forall i, j | 0 <= i < j < |r| ensures r[i] != r[j] {
      LexIrreflexive(r[i]);
    }
  }

  // ---------------------------------------------------------------------
  // The filter decision and the metadata rows of `main`

  /** What `parse_post` reads from a post page. */
  datatype PostPage = PostPage(title: string, organizedBy: string, eventDt: Option<DateTime>,
                               pageText: string, imgs: seq<ImgAttrs>)

  /** `a < b` on datetimes. */
  predicate Before(a: DateTime, b: DateTime) {
    a.year < b.year
    || (a.year == b.year && a.month < b.month)
    || (a.year == b.year && a.month == b.month && a.day < b.day)
    || (a.year == b.year && a.month == b.month && a.day == b.day && a.micros < b.micros)
  }

  /** The broadened relevance filter. */
  predicate Relevant(page: PostPage, search: (string, string) -> bool) {
    AnyMatch(OrganizerPatterns, page.organizedBy, search) || AnyMatch(TextPatterns, page.pageText, search)
  }

  /** Whether `main` goes on to download a parsed post: it is not dated
      before the cutoff (an undated post passes) and it is relevant. */
  function Selected(page: PostPage, cutoff: DateTime, search: (string, string) -> bool): (keep: bool)
    ensures keep <==>
      (page.eventDt.None? || !Before(page.eventDt.value, cutoff))
      && ((page.organizedBy != "" && exists i :: 0 <= i < |OrganizerPatterns| && search(OrganizerPatterns[i], page.organizedBy))
          || (page.pageText != "" && exists i :: 0 <= i < |TextPatterns| && search(TextPatterns[i], page.pageText)))
  {
    !(page.eventDt.Some? && Before(page.eventDt.value, cutoff)) && Relevant(page, search)
  }

  /** One row of `metadata.csv`, whose columns are `title`, `url`,
      `organized_by`, `event_date_iso` and `image_path`. */
  datatype MetaRow = MetaRow(title: string, url: string, organizedBy: string, eventDate: string, imagePath: string)

  /** The outside world of a run: `urljoin`, `re.search`, the SHA-1 hex
      digest, `urlparse(...).path`, fetching and parsing a post (`None`
      when `parse_post` raises), whether an image download succeeds, and
      the cutoff date. */
  datatype Env = Env(urljoin: (string, string) -> string, search: (string, string) -> bool,
                     digest: string -> string, urlPath: string -> string,
                     parse: string -> Option<PostPage>, fetched: string -> bool, cutoff: DateTime)

  /** The row written for one downloaded image of a post: the file lies in
      the event folder under its unique name. */
  function RowFor(page: PostPage, url: string, img: string, env: Env): MetaRow {
    var eventDir := EventFolder(page.title, url, page.eventDt, env.digest);
    MetaRow(page.title, url, page.organizedBy,
            if page.eventDt.Some? then IsoDate(page.eventDt.value) else "",
            Join(eventDir, UniqueName(img, env.digest, env.urlPath)))
  }

  /** The row for one image of a post, none when its download fails. */
  function DownloadRow(page: PostPage, url: string, env: Env): string -> seq<MetaRow> {
    img => if env.fetched(img) then [RowFor(page, url, img, env)] else []
  }

  /** The rows for one post link: the rows of its sorted images when it
      parses and is selected. */
  function PostRows(url: string, env: Env): seq<MetaRow> {
    match env.parse(url)
    case None => []
    case Some(page) =>
      if Selected(page, env.cutoff, env.search)
      then Concat(SortedOf(ImageSet(page.imgs, env.urljoin)), DownloadRow(page, url, env))
      else []
  }

  function PostRowsOf(env: Env): string -> seq<MetaRow> {
    url => PostRows(url, env)
  }

  function LinkRowsOf(env: Env): seq<string> -> seq<MetaRow> {
    ConcatOf(PostRowsOf(env))
  }

  /** The rows a whole run appends to `metadata.csv`. */
  function RunRows(listing: seq<seq<string>>, env: Env): seq<MetaRow> {
    Concat(Yielded(listing, env.urljoin, 0), LinkRowsOf(env))
  }

  /** The download loop over a selected post's images. */
  method AddImageRows(rowsIn: seq<MetaRow>, page: PostPage, url: string, images: seq<string>, env: Env)
    returns (rows: seq<MetaRow>)
    ensures rows == rowsIn + Concat(images, DownloadRow(page, url, env))
  {
    rows := rowsIn;
    var eventDir := EventFolder(page.title, url, page.eventDt, env.digest);
    for i := 0 to |images|
      invariant rows == rowsIn + Concat(images[..i], DownloadRow(page, url, env))
    {
      assert images[..i + 1][..i] == images[..i];
      var imgUrl := images[i];
      if env.fetched(imgUrl) {
        var saved := Join(eventDir, UniqueName(imgUrl, env.digest, env.urlPath));
        var dateIso := if page.eventDt.Some? then IsoDate(page.eventDt.value) else "";
        AppendAssoc(rowsIn, Concat(images[..i], DownloadRow(page, url, env)), [MetaRow(page.title, url, page.organizedBy, dateIso, saved)]);
        rows := rows + [MetaRow(page.title, url, page.organizedBy, dateIso, saved)];
      }
    }
    assert images[..|images|] == images;
  }

  /** The body of `main`'s inner loop for one post link. */
  method ProcessPost(rowsIn: seq<MetaRow>, postUrl: string, env: Env) returns (rows: seq<MetaRow>)
    ensures rows == rowsIn + PostRows(postUrl, env)
  {
    rows := rowsIn;
    var parsed := env.parse(postUrl);
    if parsed.None? {
      return;
    }
    var data := parsed.value;
    if data.eventDt.Some? && Before(data.eventDt.value, env.cutoff) {
      return;
    }
    var isRelevant := AnyMatch(OrganizerPatterns, data.organizedBy, env.search)
      || AnyMatch(TextPatterns, data.pageText, env.search);
    if !isRelevant {
      return;
    }
    var images := CollectImages(data.imgs, env.urljoin);
    rows := AddImageRows(rows, data, postUrl, images, env);
  }

  /** `main`'s inner loop over the links of one yielded page. */
  method ProcessPage(rowsIn: seq<MetaRow>, links: seq<string>, env: Env) returns (rows: seq<MetaRow>)
    ensures rows == rowsIn + Concat(links, PostRowsOf(env))
  {
    rows := rowsIn;
    for q := 0 to |links|
      invariant rows == rowsIn + Concat(links[..q], PostRowsOf(env))
    {
      ConcatStep(links, PostRowsOf(env), q);
      AppendAssoc(rowsIn, Concat(links[..q], PostRowsOf(env)), PostRows(links[q], env));
      rows := ProcessPost(rows, links[q], env);
    }
    assert links[..|links|] == links;
  }

  /** `main`: every post link of every yielded listing page, in order. */
  method Scrape(listing: seq<seq<string>>, env: Env) returns (rows: seq<MetaRow>)
    ensures rows == RunRows(listing, env)
  {
    var pages := IterListingPages(listing, env.urljoin);
    rows := [];
    for p := 0 to |pages|
      invariant rows == Concat(pages[..p], LinkRowsOf(env))
    {
      ConcatStep(pages, LinkRowsOf(env), p);
      rows := ProcessPage(rows, pages[p], env);
    }
    assert pages[..|pages|] == pages;
  }

  // ---------------------------------------------------------------------
  // Where the rows come from

  /** A link yields rows only when its post parses and is selected, and then
      one row per downloaded image of its sorted image list, each naming the
      post and a file inside the post's event folder. */
  lemma PostRowsMembers(url: string, env: Env, r: MetaRow)
    ensures r in PostRows(url, env) <==>
      (env.parse(url).Some? && Selected(env.parse(url).value, env.cutoff, env.search)
       && ImageRow(r, env.parse(url).value, url, env, SortedOf(ImageSet(env.parse(url).value.imgs, env.urljoin))))
  {
    if env.parse(url).Some? {
      var page := env.parse(url).value;
      var images := SortedOf(ImageSet(page.imgs, env.urljoin));
      ImageRowsMembers(page, url, env, images, r);
      if Selected(page, env.cutoff, env.search) {
        assert PostRows(url, env) == Concat(images, DownloadRow(page, url, env));
      } else {
        assert PostRows(url, env) == [];
      }
    }
  }

  /** `r` is the row of one of `images` whose download succeeded. */
  predicate ImageRow(r: MetaRow, page: PostPage, url: string, env: Env, images: seq<string>) {
    exists i :: 0 <= i < |images| && env.fetched(images[i]) && r == RowFor(page, url, images[i], env)
  }

  /** The rows of the download loop are one per fetched image. */
  lemma ImageRowsMembers(page: PostPage, url: string, env: Env, images: seq<string>, r: MetaRow)
    ensures r in Concat(images, DownloadRow(page, url, env)) <==> ImageRow(r, page, url, env, images)
  {
    ConcatMembers(images, DownloadRow(page, url, env), r);
    forall k | 0 <= k < |images|
      ensures (r in DownloadRow(page, url, env)(images[k])) == (env.fetched(images[k]) && r == RowFor(page, url, images[k], env))
    {
    }
  }

  /** Every row of a run belongs to a selected post behind a unique link
      of a yielded listing page: never a post dated before the cutoff, never
      an irrelevant one. */
  lemma RunRowsSelected(listing: seq<seq<string>>, env: Env, r: MetaRow)
    requires r in RunRows(listing, env)
    ensures exists n, q :: (0 <= n < |listing| && 0 <= q < |PageUnique(listing[n], env.urljoin)|
                            && RowOfPost(r, PageUnique(listing[n], env.urljoin)[q], env))
  {
    var pages := Yielded(listing, env.urljoin, 0);
    var n, q := ConcatConcatPick(pages, PostRowsOf(env), r);
    YieldedAt(listing, env.urljoin, 0, n);
    PostRowsMembers(pages[n][q], env, r);
  }

  /** `r` was written for the post at `url`: the post parsed, was selected,
      and `r` names it. */
  predicate RowOfPost(r: MetaRow, url: string, env: Env) {
    env.parse(url).Some? && Selected(env.parse(url).value, env.cutoff, env.search)
    && r.url == url && r.title == env.parse(url).value.title
  }
}
