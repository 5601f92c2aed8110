/** The pieces of Python's `str` behaviour that the scripts rely on: whitespace
    classification, `strip`, `split`, `join`, `lower`, `startswith`/`endswith`,
    `in`, `count`, `str(n)` and zero padding. */
module PyStr {

  /** The characters for which Python's `str.isspace()` is true. */
  predicate IsSpace(c: char) {
    || c == ' ' || c == '\t' || c == '\n' || c == '\r' || c == '\U{B}' || c == '\U{C}'
    || ('\U{1C}' <= c <= '\U{1F}') || c == '\U{85}' || c == '\U{A0}' || c == '\U{1680}'
    || ('\U{2000}' <= c <= '\U{200A}') || c == '\U{2028}' || c == '\U{2029}'
    || c == '\U{202F}' || c == '\U{205F}' || c == '\U{3000}'
  }

  predicate IsAsciiDigit(c: char) { '0' <= c <= '9' }

  /** `s.isdigit()`, restricted to the ASCII digits: non-empty and all digits. */
  predicate IsDigits(s: string) {
    |s| > 0 && forall k :: 0 <= k < |s| ==> IsAsciiDigit(s[k])
  }

  predicate StartsWith(s: string, prefix: string) { prefix <= s }

  predicate EndsWith(s: string, suffix: string) {
    |suffix| <= |s| && s[|s| - |suffix|..] == suffix
  }

  /** `t in s` for strings: `t` occurs as a contiguous piece of `s`. */
  predicate Contains(s: string, t: string) {
    t <= s || (s != [] && Contains(s[1..], t))
  }

  /** `s.count(c)` for a single character. */
  function Count(s: string, c: char): nat { multiset(s)[c] }

  /** Drops the leading characters that satisfy `drop`. */
  function TrimStart(s: string, drop: char -> bool): (r: string)
    ensures |r| <= |s|
  {
    if s != [] && drop(s[0]) then TrimStart(s[1..], drop) else s
  }

  /** Drops the trailing characters that satisfy `drop`. */
  function TrimEnd(s: string, drop: char -> bool): (r: string)
    ensures |r| <= |s|
  {
    if s != [] && drop(s[|s| - 1]) then TrimEnd(s[..|s| - 1], drop) else s
  }

  /** `TrimStart` removes a prefix of dropped characters and stops at the
      first kept one. */
  lemma {:induction false} TrimStartShape(s: string, drop: char -> bool)
    ensures var r := TrimStart(s, drop);
      && r == s[|s| - |r|..]
      && (r == [] || !drop(r[0]))
      && forall k :: 0 <= k < |s| - |r| ==> drop(s[k])
  {
    if s != [] && drop(s[0]) {
      TrimStartShape(s[1..], drop);
    }
  }

  /** `TrimEnd` removes a suffix of dropped characters and stops at the
      last kept one. */
  lemma {:induction false} TrimEndShape(s: string, drop: char -> bool)
    ensures var r := TrimEnd(s, drop);
      && r == s[..|r|]
      && (r == [] || !drop(r[|r| - 1]))
      && forall k :: |r| <= k < |s| ==> drop(s[k])
  {
    if s != [] && drop(s[|s| - 1]) {
      TrimEndShape(s[..|s| - 1], drop);
    }
  }

  /** `s.strip(chars)`: both ends trimmed of the characters `drop` selects. */
  function StripBy(s: string, drop: char -> bool): string {
    TrimEnd(TrimStart(s, drop), drop)
  }

  /** `strip` leaves no dropped character at either end, and removes only
      dropped characters, from the two ends. */
  lemma StripByShape(s: string, drop: char -> bool)
    ensures var r := StripBy(s, drop);
      && (r == [] || (!drop(r[0]) && !drop(r[|r| - 1])))
      && exists i :: 0 <= i <= |s| - |r| && r <= s[i..]
                     && (forall k :: 0 <= k < i ==> drop(s[k]))
                     && (forall k :: i + |r| <= k < |s| ==> drop(s[k]))
  {
    var t := TrimStart(s, drop);
    var r := TrimEnd(t, drop);
    TrimStartShape(s, drop);
    TrimEndShape(t, drop);
    var i := |s| - |t|;
    assert t == s[i..];
    assert r <= s[i..];
    forall k | i + |r| <= k < |s|
      ensures drop(s[k])
    {
      assert s[k] == t[k - i];
    }
    assert forall k :: 0 <= k < i ==> drop(s[k]);
  }

  /** Every character `strip` keeps satisfies what all of `s` satisfies. */
  lemma StripByKeeps(s: string, drop: char -> bool, p: char -> bool)
    requires forall k :: 0 <= k < |s| ==> p(s[k])
    ensures var r := StripBy(s, drop);
      forall k :: 0 <= k < |r| ==> p(r[k])
  {
    var r := StripBy(s, drop);
    StripByShape(s, drop);
    var i :| 0 <= i <= |s| - |r| && r <= s[i..];
    assert forall k :: 0 <= k < |r| ==> r[k] == s[i + k];
  }

  /** `s.strip()`. */
  function Strip(s: string): string { StripBy(s, IsSpace) }

  function LowerChar(c: char): char {
    if 'A' <= c <= 'Z' then (c as int + 32) as char else c
  }

  /** `s.lower()` on ASCII letters; every other character is kept. */
  function Lower(s: string): (r: string)
    ensures |r| == |s|
    ensures forall k :: 0 <= k < |s| ==> r[k] == LowerChar(s[k])
  {
    seq(|s|, k requires 0 <= k < |s| => LowerChar(s[k]))
  }

  /** Length of the run of non-whitespace characters at the front of `s`. */
  function WordLen(s: string): (n: nat)
    ensures n <= |s|
    ensures forall k :: 0 <= k < n ==> !IsSpace(s[k])
    ensures n == |s| || IsSpace(s[n])
  {
    if s == [] || IsSpace(s[0]) then 0 else 1 + WordLen(s[1..])
  }

  predicate NoSpace(w: string) { forall k :: 0 <= k < |w| ==> !IsSpace(w[k]) }

  /** `s.split()` with no separator: the maximal runs of non-whitespace. */
  function Words(s: string): (ws: seq<string>)
    ensures forall k :: 0 <= k < |ws| ==> ws[k] != [] && NoSpace(ws[k])
    decreases |s|
  {
    if s == [] then []
    else if IsSpace(s[0]) then Words(s[1..])
    else
      var n := WordLen(s);
      [s[..n]] + Words(s[n..])
  }

  /** `sep.join(ws)`. */
  function JoinWith(ws: seq<string>, sep: string): string {
    if ws == [] then ""
    else if |ws| == 1 then ws[0]
    else ws[0] + sep + JoinWith(ws[1..], sep)
  }

  /** Index of the first `c` in `s`. */
  function IndexOf(s: string, c: char): (i: nat)
    requires c in s
    ensures i < |s| && s[i] == c && c !in s[..i]
  {
    if s[0] == c then 0 else 1 + IndexOf(s[1..], c)
  }

  /** `s.split(c)` with a one-character separator; empty pieces are kept. */
  function SplitOn(s: string, c: char): (parts: seq<string>)
    ensures |parts| >= 1
    ensures forall k :: 0 <= k < |parts| ==> c !in parts[k]
    decreases |s|
  {
    if c !in s then [s]
    else
      var i := IndexOf(s, c);
      [s[..i]] + SplitOn(s[i + 1..], c)
  }

  function DigitChar(d: int): char
    requires 0 <= d < 10
  {
    (d + '0' as int) as char
  }

  /** `str(n)` for a natural number: its decimal digits without leading zeros. */
  function NatToString(n: nat): (r: string)
    ensures |r| >= 1 && IsDigits(r)
    ensures r[0] == '0' ==> n == 0
  {
    if n < 10 then [DigitChar(n)] else NatToString(n / 10) + [DigitChar(n % 10)]
  }

  /** The value of a string of ASCII digits. */
  function DigitsValue(s: string): nat
    requires forall k :: 0 <= k < |s| ==> IsAsciiDigit(s[k])
  {
    if s == [] then 0
    else DigitsValue(s[..|s| - 1]) * 10 + DigitValue(s[|s| - 1])
  }

  function DigitValue(c: char): nat
    requires IsAsciiDigit(c)
  {
    c as int - '0' as int
  }

  /** `f"{n:0{width}d}"` for a natural number: `str(n)` left-padded with zeros. */
  function ZeroPad(n: nat, width: nat): (r: string)
    ensures IsDigits(r)
    ensures |r| == if |NatToString(n)| >= width then |NatToString(n)| else width
    ensures DigitsValue(r) == n
  {
    var s := NatToString(n);
    NatToStringValue(n);
    if |s| >= width then s
    else
      LeadingZerosValue(width - |s|, s);
      seq(width - |s|, _ => '0') + s
  }

  // ---------------------------------------------------------------------
  // Lemmas

  /** `str(n)` reads back as `n`. */
  lemma {:induction false} NatToStringValue(n: nat)
    ensures DigitsValue(NatToString(n)) == n
  {
    if n >= 10 {
      NatToStringValue(n / 10);
      var s := NatToString(n);
      assert s[..|s| - 1] == NatToString(n / 10);
    }
  }

  /** Distinct numbers print differently. */
  lemma NatToStringInjective(a: nat, b: nat)
    requires NatToString(a) == NatToString(b)
    ensures a == b
  {
    NatToStringValue(a);
    NatToStringValue(b);
  }

  lemma {:induction false} LeadingZerosValue(z: nat, s: string)
    requires forall k :: 0 <= k < |s| ==> IsAsciiDigit(s[k])
    ensures z > 0 ==> DigitsValue(seq(z, _ => '0') + s) == DigitsValue(s)
    decreases |s|
  {
    if z > 0 {
      var zs := seq(z, _ => '0');
      if s == [] {
        ZerosValue(z);
        assert zs + s == zs;
      } else {
        LeadingZerosValue(z, s[..|s| - 1]);
        assert (zs + s)[..|zs + s| - 1] == zs + s[..|s| - 1];
      }
    }
  }

  lemma {:induction false} ZerosValue(z: nat)
    ensures DigitsValue(seq(z, _ => '0')) == 0
  {
    if z > 0 {
      ZerosValue(z - 1);
      assert seq(z, _ => '0')[..z - 1] == seq(z - 1, _ => '0');
    }
  }

  /** Splitting on `c` and joining with `c` gives back the string. */
  lemma {:induction false} SplitJoin(s: string, c: char)
    ensures JoinWith(SplitOn(s, c), [c]) == s
    decreases |s|
  {
    if c in s {
      var i := IndexOf(s, c);
      var parts := SplitOn(s[i + 1..], c);
      SplitJoin(s[i + 1..], c);
      var ws := [s[..i]] + parts;
      assert SplitOn(s, c) == ws;
      assert ws[1..] == parts;
      assert JoinWith(ws, [c]) == s[..i] + [c] + JoinWith(parts, [c]);
      assert s == s[..i] + [c] + s[i + 1..];
    } else {
      assert SplitOn(s, c) == [s];
    }
  }

  /** The first `c` of `a + [c] + b` is the one after `a` when `a` has none. */
  lemma IndexOfAfter(a: string, c: char, b: string)
    requires c !in a
    ensures c in a + [c] + b && IndexOf(a + [c] + b, c) == |a|
  {
    var s := a + [c] + b;
    assert s[|a|] == c;
    assert s[..|a|] == a;
    var i := IndexOf(s, c);
    assert s[..i] <= s[..|a| + 1];
  }

  /** Splitting at the first `c` when the text before it has none. */
  lemma SplitOnAfter(a: string, c: char, b: string)
    requires c !in a
    ensures SplitOn(a + [c] + b, c) == [a] + SplitOn(b, c)
  {
    IndexOfAfter(a, c, b);
    var s := a + [c] + b;
    assert s[..|a|] == a;
    assert s[|a| + 1..] == b;
  }

  /** Joining pieces free of `c` with `c` and splitting on `c` gives back the
      pieces. */
  lemma {:induction false} SplitOfJoin(ws: seq<string>, c: char)
    requires |ws| >= 1
    requires forall k :: 0 <= k < |ws| ==> c !in ws[k]
    ensures SplitOn(JoinWith(ws, [c]), c) == ws
  {
    if |ws| == 1 {
      assert JoinWith(ws, [c]) == ws[0];
    } else {
      var rest := JoinWith(ws[1..], [c]);
      assert JoinWith(ws, [c]) == ws[0] + [c] + rest;
      SplitOnAfter(ws[0], c, rest);
      assert forall k :: 0 <= k < |ws[1..]| ==> ws[1..][k] == ws[k + 1];
      SplitOfJoin(ws[1..], c);
      assert ws == [ws[0]] + ws[1..];
    }
  }

  /** Joining non-empty, space-free words with single spaces and splitting on
      whitespace gives back the words. */
  lemma {:induction false} WordsOfJoin(ws: seq<string>)
    requires forall k :: 0 <= k < |ws| ==> ws[k] != [] && NoSpace(ws[k])
    ensures Words(JoinWith(ws, " ")) == ws
  {
    if ws == [] {
    } else if |ws| == 1 {
      WordsOfWord(ws[0], "");
      assert ws[0] + "" == ws[0];
    } else {
      var rest := JoinWith(ws[1..], " ");
      WordsOfJoin(ws[1..]);
      WordsOfWord(ws[0], " " + rest);
      assert ws[0] + " " + rest == ws[0] + (" " + rest);
      assert Words(" " + rest) == Words(rest) by {
        assert (" " + rest)[1..] == rest;
      }
    }
  }

  lemma {:induction false} WordsOfWord(w: string, t: string)
    requires w != [] && NoSpace(w)
    requires t == [] || IsSpace(t[0])
    ensures Words(w + t) == [w] + Words(t)
  {
    WordLenOf(w, t);
    assert (w + t)[..|w|] == w;
    assert (w + t)[|w|..] == t;
  }

  lemma {:induction false} WordLenOf(w: string, t: string)
    requires NoSpace(w)
    requires t == [] || IsSpace(t[0])
    ensures WordLen(w + t) == |w|
    decreases |w|
  {
    if w != [] {
      WordLenOf(w[1..], t);
      assert (w + t)[1..] == w[1..] + t;
    } else {
      assert w + t == t;
    }
  }

  /** Words joined with single spaces: empty exactly when there are no
      words, with no whitespace at either end, and every whitespace
      character a single space followed by a non-space. */
  lemma {:induction false} JoinWordsShape(ws: seq<string>)
    requires forall k :: 0 <= k < |ws| ==> ws[k] != [] && NoSpace(ws[k])
    ensures var r := JoinWith(ws, " ");
      && (r == [] <==> ws == [])
      && (r != [] ==> !IsSpace(r[0]) && !IsSpace(r[|r| - 1]))
      && forall k :: 0 <= k < |r| && IsSpace(r[k]) ==> r[k] == ' ' && k + 1 < |r| && !IsSpace(r[k + 1])
  {
    if |ws| > 1 {
      var w := ws[0];
      var rest := JoinWith(ws[1..], " ");
      JoinWordsShape(ws[1..]);
      var r := w + " " + rest;
      assert JoinWith(ws, " ") == r;
      forall k | 0 <= k < |w| ensures !IsSpace(r[k]) {
        assert r[k] == w[k];
      }
      forall k | 0 <= k < |r| && IsSpace(r[k])
        ensures r[k] == ' ' && k + 1 < |r| && !IsSpace(r[k + 1])
      {
        if k == |w| {
          assert r[k + 1] == rest[0];
        } else {
          assert r[k] == rest[k - |w| - 1];
          assert k + 1 < |r| ==> r[k + 1] == rest[k - |w|];
        }
      }
      assert r[|r| - 1] == rest[|rest| - 1];
    }
  }

  /** Stripping twice strips nothing more. */
  lemma StripIdempotent(s: string)
    ensures Strip(Strip(s)) == Strip(s)
  {
    var r := Strip(s);
    StripByShape(s, IsSpace);
    assert TrimStart(r, IsSpace) == r;
    assert TrimEnd(r, IsSpace) == r;
  }
}
