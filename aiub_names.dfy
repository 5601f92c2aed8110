/** How the AIUB news-and-events scraper
    (teacher_utility/aiub_cs_scraper/aiub_cs_scraper.py) names what it
    saves: one file per image URL and one folder per event. SHA-1 and URL
    parsing are inputs: `digest(s)` stands for `sha1(s).hexdigest()` and
    `urlPath(u)` for `urlparse(u).path`. */
module AiubNames {
  import opened PyStr
  import opened PyPath
  import opened Opt

  const OutDir := "aiub_cs_event_images"

  /** `s[:n]`. */
  function Prefix(s: string, n: nat): (r: string)
    ensures r <= s && |r| == if |s| <= n then |s| else n
  {
    if |s| <= n then s else s[..n]
  }

  predicate AsciiAlnum(c: char) {
    'A' <= c <= 'Z' || 'a' <= c <= 'z' || '0' <= c <= '9'
  }

  /** The characters `[A-Za-z0-9._-]` kept in a file name. */
  predicate NameChar(c: char) {
    AsciiAlnum(c) || c == '.' || c == '_' || c == '-'
  }

  /** The characters `[A-Za-z0-9._ -]` kept in an event title. */
  predicate TitleChar(c: char) {
    NameChar(c) || c == ' '
  }

  /** `re.sub(r"[^...]+", "_", s)`: each maximal run of characters outside
      the class `ok` becomes a single `_`. */
  function Sanitize(s: string, ok: char -> bool): (r: string)
    ensures |r| <= |s|
    ensures forall k :: 0 <= k < |r| ==> ok(r[k]) || r[k] == '_'
    decreases |s|
  {
    if s == [] then []
    else if ok(s[0]) then [s[0]] + Sanitize(s[1..], ok)
    else "_" + Sanitize(TrimStart(s[1..], Outside(ok)), ok)
  }

  /** The characters outside the class `ok`. */
  function Outside(ok: char -> bool): char -> bool {
    c => !ok(c)
  }

  /** `unique_name_from_url`: the first 12 hex digits of the URL's hash,
      `_`, and the sanitised base name of its path (`image` when empty). */
  function UniqueName(url: string, digest: string -> string, urlPath: string -> string): string {
    var base := Basename(urlPath(url));
    Prefix(digest(url), 12) + "_" + Sanitize(if base == "" then "image" else base, NameChar)
  }

  /** A date and time of day, to the microsecond. */
  datatype DateTime = DateTime(year: nat, month: nat, day: nat, micros: nat)

  /** `dt.strftime("%Y-%m-%d")`. */
  function IsoDate(dt: DateTime): string {
    ZeroPad(dt.year, 4) + "-" + ZeroPad(dt.month, 2) + "-" + ZeroPad(dt.day, 2)
  }

  predicate TitleTrim(c: char) { c == '_' || c == ' ' }

  /** The title part of an event folder: sanitised, stripped of `_` and
      spaces, cut to 80 characters, and `event` when nothing is left. */
  function SafeTitle(title: string): string {
    var t := Prefix(StripBy(Sanitize(title, TitleChar), TitleTrim), 80);
    if t == "" then "event" else t
  }

  /** `event_subfolder_for`: `<date>_<title>_<8 hex digits of the post URL's
      hash>` under the output folder, the date `undated` when unknown. */
  function EventFolder(title: string, url: string, eventDt: Option<DateTime>,
                       digest: string -> string): string
  {
    var datePart := if eventDt.Some? then IsoDate(eventDt.value) else "undated";
    Join(OutDir, datePart + "_" + SafeTitle(title) + "_" + Prefix(digest(url), 8))
  }

  // ---------------------------------------------------------------------
  // Properties

  /** A string made only of kept characters is left as it is. */
  lemma {:induction false} SanitizeClean(s: string, ok: char -> bool)
    requires forall k :: 0 <= k < |s| ==> ok(s[k])
    ensures Sanitize(s, ok) == s
  {
    if s != [] {
      SanitizeClean(s[1..], ok);
    }
  }

  /** A kept prefix, then a maximal run of other characters: the prefix
      stays and the whole run becomes one `_`. */
  lemma {:induction false} SanitizeRun(a: string, run: string, b: string, ok: char -> bool)
    requires forall k :: 0 <= k < |a| ==> ok(a[k])
    requires run != [] && forall k :: 0 <= k < |run| ==> !ok(run[k])
    requires b == [] || ok(b[0])
    ensures Sanitize(a + run + b, ok) == a + "_" + Sanitize(b, ok)
  {
    if a == [] {
      var s := run + b;
      assert a + run + b == s && s[0] == run[0];
      assert s[1..] == run[1..] + b;
      DropRun(run[1..], b, Outside(ok));
      assert TrimStart(s[1..], Outside(ok)) == b;
    } else {
      SanitizeRun(a[1..], run, b, ok);
      assert (a + run + b)[1..] == a[1..] + run + b;
    }
  }

  /** Dropping leading characters across a run that is all dropped stops
      right after it when the next character is kept. */
  lemma {:induction false} DropRun(run: string, b: string, drop: char -> bool)
    requires forall k :: 0 <= k < |run| ==> drop(run[k])
    requires b == [] || !drop(b[0])
    ensures TrimStart(run + b, drop) == b
  {
    if run != [] {
      assert (run + b)[1..] == run[1..] + b;
      DropRun(run[1..], b, drop);
    }
  }

  /** Sanitising twice changes nothing more, as `_` is itself kept. */
  lemma SanitizeIdempotent(s: string, ok: char -> bool)
    requires ok('_')
    ensures Sanitize(Sanitize(s, ok), ok) == Sanitize(s, ok)
  {
    SanitizeClean(Sanitize(s, ok), ok);
  }

  /** An image's file name is its 12-digit hash prefix, `_`, and a
      non-empty name of kept characters without a separator; a path with an
      empty base name gives `image`. */
  lemma UniqueNameShape(url: string, digest: string -> string, urlPath: string -> string)
    requires |digest(url)| >= 12
    ensures var n := UniqueName(url, digest, urlPath);
      var tail := n[13..];
      |n| > 13 && n[..12] == digest(url)[..12] && n[12] == '_'
      && (forall k :: 0 <= k < |tail| ==> NameChar(tail[k]))
      && '/' !in tail
      && (Basename(urlPath(url)) == "" ==> tail == "image")
  {
    var base := Basename(urlPath(url));
    var b := if base == "" then "image" else base;
    assert b != [] && (NameChar(b[0]) || !NameChar(b[0]));
    var t := Sanitize(b, NameChar);
    assert t != [] by {
      if NameChar(b[0]) {
        assert t == [b[0]] + Sanitize(b[1..], NameChar);
      }
    }
    if base == "" {
      SanitizeClean("image", NameChar);
    }
    var n := UniqueName(url, digest, urlPath);
    assert n == digest(url)[..12] + "_" + t;
    assert n[13..] == t;
  }

  /** The title part of an event folder has 1 to 80 kept characters and
      starts with neither `_` nor a space; it also ends with neither when
      the stripped title fits in 80 characters. */
  lemma SafeTitleShape(title: string)
    ensures var safe := SafeTitle(title);
      1 <= |safe| <= 80
      && (forall k :: 0 <= k < |safe| ==> TitleChar(safe[k]))
      && !TitleTrim(safe[0])
      && (|StripBy(Sanitize(title, TitleChar), TitleTrim)| <= 80 ==> !TitleTrim(safe[|safe| - 1]))
  {
    var stripped := StripBy(Sanitize(title, TitleChar), TitleTrim);
    StrippedTitle(title);
    var t := Prefix(stripped, 80);
    assert forall k :: 0 <= k < |t| ==> t[k] == stripped[k];
  }

  /** The stripped, sanitised title has only kept characters, and neither
      end is `_` or a space. */
  lemma StrippedTitle(title: string)
    ensures var stripped := StripBy(Sanitize(title, TitleChar), TitleTrim);
      (forall k :: 0 <= k < |stripped| ==> TitleChar(stripped[k]))
      && (stripped == [] || (!TitleTrim(stripped[0]) && !TitleTrim(stripped[|stripped| - 1])))
  {
    var clean := Sanitize(title, TitleChar);
    StripByShape(clean, TitleTrim);
    StripByKeeps(clean, TitleTrim, TitleChar);
  }

  /** A date with a four-digit year prints as the ten characters
      `YYYY-MM-DD`. */
  lemma IsoDateShape(dt: DateTime)
    requires 1000 <= dt.year <= 9999 && dt.month < 100 && dt.day < 100
    ensures var s := IsoDate(dt);
      |s| == 10 && s[4] == '-' && s[7] == '-'
  {
    NatToStringLength(dt.year);
    NatToStringLength(dt.month);
    NatToStringLength(dt.day);
  }

  /** The number of digits of `str(n)`. */
  lemma {:induction false} NatToStringLength(n: nat)
    ensures n < 10 ==> |NatToString(n)| == 1
    ensures 10 <= n < 100 ==> |NatToString(n)| == 2
    ensures 100 <= n < 1000 ==> |NatToString(n)| == 3
    ensures 1000 <= n < 10000 ==> |NatToString(n)| == 4
  {
    if n >= 10 {
      NatToStringLength(n / 10);
    }
  }
}
