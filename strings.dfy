/**
 * The few Python / JavaScript string primitives the modelled code relies on:
 * `str.count`, `str.strip`, `str.replace` of one character, slicing with
 * Python's negative-index and clamping rules, decimal rendering of
 * integers (`str(n)`, f-strings, template literals), and reading integers
 * back with Python's `int()` and JavaScript's `Number()`, each with its own
 * notion of white space.
 */
module Strings {

  import opened Wrappers

  /** Python `s.count(sub)`: non-overlapping occurrences, scanned left to right. */
  function Count(s: string, sub: string): (n: nat)
    requires |sub| > 0
    ensures n * |sub| <= |s|
    decreases |s|
  {
    if |s| < |sub| then 0
    else if s[..|sub|] == sub then 1 + Count(s[|sub|..], sub)
    else Count(s[1..], sub)
  }

  /** Occurrences of one character. */
  function CountChar(s: string, c: char): (n: nat)
    ensures n <= |s|
    ensures n == 0 <==> c !in s
  {
    if s == [] then 0 else (if s[0] == c then 1 else 0) + CountChar(s[1..], c)
  }

  lemma {:induction false} CountCharAppend(a: string, b: string, c: char)
    ensures CountChar(a + b, c) == CountChar(a, c) + CountChar(b, c)
  {
    if a != [] {
      assert (a + b)[1..] == a[1..] + b;
      CountCharAppend(a[1..], b, c);
    } else {
      assert a + b == b;
    }
  }

  /** Python `str.replace(old, new)` for a one-character `old`. */
  function ReplaceChar(s: string, c: char, t: string): (r: string)
    ensures c !in t ==> c !in r
    ensures |r| == |s| + CountChar(s, c) * (|t| - 1)
  {
    if s == [] then []
    else
      var head := if s[0] == c then t else [s[0]];
      var rest := ReplaceChar(s[1..], c, t);
      var n, k := CountChar(s[1..], c), |t| - 1;
      assert |rest| == |s| - 1 + n * k;
      assert (n + 1) * k == n * k + k;
      assert CountChar(s, c) == (if s[0] == c then n + 1 else n);
      assert c !in t ==> c !in head;
      head + rest
  }

  /** Remove every occurrence of the characters in `cs` (JavaScript `replace(/[..]/g, "")`). */
  function RemoveChars(s: string, cs: set<char>): (r: string)
    ensures |r| <= |s|
    ensures forall i :: 0 <= i < |r| ==> r[i] !in cs && r[i] in s
  {
    if s == [] then []
    else (if s[0] in cs then [] else [s[0]]) + RemoveChars(s[1..], cs)
  }

  /** The characters Python's `str.isspace()` accepts, which `str.strip()`,
   *  `str.split()` and `int()` treat as white space. */
  const Whitespace: set<char> := {
    '\t', '\n', '\U{B}', '\U{C}', '\r', '\U{1C}', '\U{1D}', '\U{1E}', '\U{1F}', ' ',
    '\U{85}', '\U{A0}', '\U{1680}',
    '\U{2000}', '\U{2001}', '\U{2002}', '\U{2003}', '\U{2004}', '\U{2005}',
    '\U{2006}', '\U{2007}', '\U{2008}', '\U{2009}', '\U{200A}',
    '\U{2028}', '\U{2029}', '\U{202F}', '\U{205F}', '\U{3000}'}

  /** The white space and line terminators JavaScript's `Number()` trims
   *  (ECMAScript's StrWhiteSpaceChar): unlike Python's set it holds the
   *  byte-order mark and not the information separators or NEL. */
  const JsWhitespace: set<char> := {
    '\t', '\n', '\U{B}', '\U{C}', '\r', ' ', '\U{A0}', '\U{1680}',
    '\U{2000}', '\U{2001}', '\U{2002}', '\U{2003}', '\U{2004}', '\U{2005}',
    '\U{2006}', '\U{2007}', '\U{2008}', '\U{2009}', '\U{200A}',
    '\U{2028}', '\U{2029}', '\U{202F}', '\U{205F}', '\U{3000}', '\U{FEFF}'}

  function LStrip(s: string, cs: set<char>): (r: string)
    ensures |r| <= |s| && forall i :: 0 <= i < |r| ==> r[i] == s[|s| - |r| + i]
    ensures r == [] || r[0] !in cs
    ensures forall i :: 0 <= i < |s| - |r| ==> s[i] in cs
  {
    if s != [] && s[0] in cs then
      var r := LStrip(s[1..], cs);
      assert forall i :: 1 <= i < |s| ==> s[i] == s[1..][i - 1];
      r
    else s
  }

  /** What `LStrip` leaves is a suffix. */
  lemma LStripSuffix(s: string, cs: set<char>)
    ensures LStrip(s, cs) == s[|s| - |LStrip(s, cs)|..]
  {
  }

  function RStrip(s: string, cs: set<char>): (r: string)
    ensures |r| <= |s| && r == s[..|r|]
    ensures r == [] || r[|r| - 1] !in cs
    ensures forall i :: |r| <= i < |s| ==> s[i] in cs
  {
    if s != [] && s[|s| - 1] in cs then RStrip(s[..|s| - 1], cs) else s
  }

  /** Python `s.strip(chars)`. */
  function StripChars(s: string, cs: set<char>): string
  {
    RStrip(LStrip(s, cs), cs)
  }

  /** Python `s.strip()` (no argument). */
  function Strip(s: string): string
  {
    StripChars(s, Whitespace)
  }

  /** The stripped string is empty exactly when every character is one of `cs`. */
  lemma StripCharsEmpty(s: string, cs: set<char>)
    ensures StripChars(s, cs) == [] <==> forall i :: 0 <= i < |s| ==> s[i] in cs
  {
    if StripChars(s, cs) == [] {
      assert LStrip(s, cs) == [];
    }
  }

  /** The stripped string neither starts nor ends with a character of `cs`. */
  lemma StripCharsEnds(s: string, cs: set<char>)
    ensures var r := StripChars(s, cs); r == [] || (r[0] !in cs && r[|r| - 1] !in cs)
  {
    var l := LStrip(s, cs);
    StripEnds(l, RStrip(l, cs), cs);
  }

  /** A prefix of a string that does not start with a character of `cs`,
   *  itself not ending with one, neither starts nor ends with one. */
  lemma StripEnds(l: string, r: string, cs: set<char>)
    requires l == [] || l[0] !in cs
    requires |r| <= |l| && r == l[..|r|]
    requires r == [] || r[|r| - 1] !in cs
    ensures r == [] || (r[0] !in cs && r[|r| - 1] !in cs)
  {
    if r != [] {
      assert r[0] == l[0];
    }
  }

  /** Python's normalisation of one slice bound. */
  function SliceBound(i: int, n: nat): (b: nat)
    ensures b <= n
    ensures 0 <= i <= n ==> b == i
  {
    if i < 0 then (if i + n < 0 then 0 else i + n) else if i > n then n else i
  }

  /** Python `s[i:j]`: negative bounds count from the end, bounds are clamped,
   *  and an empty slice results when the bounds cross. */
  function Slice(s: string, i: int, j: int): (r: string)
    ensures |r| <= |s|
    ensures 0 <= i <= j <= |s| ==> r == s[i..j]
  {
    var a := SliceBound(i, |s|);
    var b := SliceBound(j, |s|);
    if a < b then s[a..b] else []
  }

  /** Python `s[i:]`. */
  function SliceFrom(s: string, i: int): (r: string)
    ensures |r| <= |s|
  {
    s[SliceBound(i, |s|)..]
  }

  /** Python `s[:j]`. */
  function SliceTo(s: string, j: int): (r: string)
    ensures |r| <= |s|
  {
    s[..SliceBound(j, |s|)]
  }

  /** `text if text else fallback` for an optional string: a missing or
   *  empty text is replaced by the fallback. */
  function Defaulted(text: Option<string>, fallback: string): (r: string)
    requires fallback != ""
    ensures r != ""
    ensures text.Some? && text.value != "" ==> r == text.value
    ensures r != fallback ==> text == Some(r)
  {
    if text.None? || text.value == "" then fallback else text.value
  }

  // ---- decimal rendering -------------------------------------------------

  function DigitChar(d: nat): (c: char)
    requires d < 10
    ensures '0' <= c <= '9'
  {
    ('0' as int + d) as char
  }

  predicate IsDigit(c: char) { '0' <= c <= '9' }

  function DigitValue(c: char): (d: nat)
    requires IsDigit(c)
    ensures d < 10
  {
    (c as int - '0' as int)
  }

  /** The decimal digits of a natural number, most significant first. */
  function NatDigits(n: nat): (s: string)
    ensures |s| > 0
    ensures forall i :: 0 <= i < |s| ==> IsDigit(s[i])
    decreases n
  {
    if n < 10 then [DigitChar(n)] else NatDigits(n / 10) + [DigitChar(n % 10)]
  }

  /** `str(n)` / `${n}` for an integer. */
  function ShowInt(n: int): (s: string)
    ensures |s| > 0
  {
    if n < 0 then "-" + NatDigits(-n) else NatDigits(n)
  }

  /** Reading a string of decimal digits back as a number. */
  function DigitsValue(s: string): (n: nat)
    requires forall i :: 0 <= i < |s| ==> IsDigit(s[i])
  {
    if s == [] then 0 else DigitsValue(s[..|s| - 1]) * 10 + DigitValue(s[|s| - 1])
  }

  predicate AllDigits(s: string)
  {
    forall i :: 0 <= i < |s| ==> IsDigit(s[i])
  }

  /** An optionally signed run of decimal digits, read as a number. */
  function SignedDigits(t: string): Option<int>
  {
    if t != [] && (t[0] == '-' || t[0] == '+') then
      (if |t| > 1 && AllDigits(t[1..])
       then Some(if t[0] == '-' then 0 - DigitsValue(t[1..]) else DigitsValue(t[1..]))
       else None)
    else if t != [] && AllDigits(t) then Some(DigitsValue(t))
    else None
  }

  /** JavaScript `Number(s)` on integer text: surrounding white space is
   *  ignored, the empty string is 0, and an optional sign may precede the
   *  digits; `None` stands for `NaN`. */
  function JsNumber(s: string): (r: Option<int>)
  {
    var t := StripChars(s, JsWhitespace);
    if t == [] then Some(0) else SignedDigits(t)
  }

  /** Python's grouping of decimal digits (PEP 515): digits, with single
   *  underscores allowed between two digits. */
  predicate Grouped(t: string)
  {
    t != [] && IsDigit(t[0]) && GroupedTail(t[1..])
  }

  /** What may follow a digit: nothing, or a digit, or an underscore and a
   *  digit, and so on. */
  predicate GroupedTail(u: string)
    decreases |u|
  {
    u == []
    || (IsDigit(u[0]) && GroupedTail(u[1..]))
    || (|u| >= 2 && u[0] == '_' && IsDigit(u[1]) && GroupedTail(u[2..]))
  }

  /** Plain digits are grouped. */
  lemma {:induction false} DigitsGrouped(u: string)
    requires AllDigits(u)
    ensures GroupedTail(u)
    decreases |u|
  {
    if u != [] { DigitsGrouped(u[1..]); }
  }

  /** Grouped digits end with a digit. */
  lemma {:induction false} GroupedEndsInDigit(u: string)
    requires GroupedTail(u) && u != []
    ensures IsDigit(u[|u| - 1])
    decreases |u|
  {
    if IsDigit(u[0]) && GroupedTail(u[1..]) {
      if |u| > 1 { GroupedEndsInDigit(u[1..]); }
    } else {
      if |u| > 2 { GroupedEndsInDigit(u[2..]); }
    }
  }

  /** Text `int()` accepts ends with a digit. */
  lemma PySignedEnds(t: string)
    ensures PySignedDigits(t).Some? ==> t != [] && IsDigit(t[|t| - 1])
  {
    if PySignedDigits(t).Some? {
      var g := if t[0] == '-' || t[0] == '+' then t[1..] else t;
      assert Grouped(g) && g[|g| - 1] == t[|t| - 1];
      if |g| > 1 { GroupedEndsInDigit(g[1..]); }
    }
  }

  /** The value of digits and underscores, the underscores read as nothing. */
  function GroupedValue(t: string): (n: nat)
    ensures AllDigits(t) ==> n == DigitsValue(t)
  {
    if t == [] then 0
    else if IsDigit(t[|t| - 1]) then GroupedValue(t[..|t| - 1]) * 10 + DigitValue(t[|t| - 1])
    else GroupedValue(t[..|t| - 1])
  }

  /** An optionally signed run of grouped decimal digits, read as a number. */
  function PySignedDigits(t: string): Option<int>
  {
    if t != [] && (t[0] == '-' || t[0] == '+') then
      (if Grouped(t[1..])
       then Some(if t[0] == '-' then 0 - GroupedValue(t[1..]) else GroupedValue(t[1..]))
       else None)
    else if Grouped(t) then Some(GroupedValue(t))
    else None
  }

  /** Python `int(s)` on decimal text: surrounding white space is ignored,
   *  an optional sign may precede the digits and single underscores may
   *  separate them; anything else raises `ValueError` (`None`). */
  function PyInt(s: string): (r: Option<int>)
    ensures r.Some? ==> Strip(s) != [] && IsDigit(Strip(s)[|Strip(s)| - 1])
  {
    var t := Strip(s);
    if t == [] then None else PySignedEnds(t); PySignedDigits(t)
  }

  /** `int()` reads back what `str()` renders. */
  lemma PyIntShowInt(n: int)
    ensures PyInt(ShowInt(n)) == Some(n)
  {
    var s := ShowInt(n);
    ShownDigits(n);
    ShowIntChars(n);
    PyIntPlain(s);
    PlainGrouped(s);
  }

  /** Plain decimal text reads the same with or without grouping allowed. */
  lemma PlainGrouped(t: string)
    requires SignedDigits(t).Some?
    ensures PySignedDigits(t) == SignedDigits(t)
  {
    if t[0] == '-' || t[0] == '+' {
      DigitsGrouped(t[1..][1..]);
    } else {
      DigitsGrouped(t[1..]);
    }
  }

  /** `int()` of text without surrounding white space. */
  lemma PyIntPlain(t: string)
    requires t != [] && t[0] !in Whitespace && t[|t| - 1] !in Whitespace
    ensures PyInt(t) == PySignedDigits(t)
  {
    StripPlain(t);
  }

  /** Underscores between digits are read as nothing. */
  lemma PyIntGrouped()
    ensures PyInt("1_0") == Some(10)
  {
    PyIntPlain("1_0");
    TenGrouped();
  }

  /** A sign may precede grouped digits. */
  lemma PyIntSignedGrouped()
    ensures PyInt("-2_5") == Some(-25)
  {
    PyIntPlain("-2_5");
    MinusTwentyFiveGrouped();
  }

  lemma TenGrouped()
    ensures PySignedDigits("1_0") == Some(10)
  {
    assert Grouped("1_0");
    assert "1_0"[..2] == "1_" && "1_"[..1] == "1";
  }

  lemma MinusTwentyFiveGrouped()
    ensures PySignedDigits("-2_5") == Some(-25)
  {
    assert "-2_5"[1..] == "2_5" && Grouped("2_5");
    assert "2_5"[..2] == "2_" && "2_"[..1] == "2";
  }

  /** A doubled underscore is not accepted. */
  lemma PyIntDoubledUnderscore()
    ensures PyInt("1__0") == None
  {
    PyIntPlain("1__0");
    DoubledUnderscore();
  }

  /** A trailing underscore is not accepted. */
  lemma PyIntTrailingUnderscore()
    ensures PyInt("10_") == None
  {
    PyIntPlain("10_");
  }

  lemma DoubledUnderscore()
    ensures PySignedDigits("1__0") == None
  {
    assert "1__0"[1] == '_' && "1__0"[2] == '_';
  }

  /** Non-ASCII white space, such as a no-break space, is stripped. */
  lemma PyIntUnicodeSpace()
    ensures PyInt("\U{A0}7\U{3000}") == Some(7)
  {
    SpacedSeven();
    SevenValue();
  }

  lemma SevenValue()
    ensures PySignedDigits("7") == Some(7)
  {
    assert Grouped("7") && "7"[..0] == "";
  }

  lemma SpacedSeven()
    ensures Strip("\U{A0}7\U{3000}") == "7"
  {
    var x := "\U{A0}7\U{3000}";
    assert LStrip(x, Whitespace) == "7\U{3000}" by { assert x[1..] == "7\U{3000}"; }
    assert "7\U{3000}"[..1] == "7";
  }

  /** A string that neither starts nor ends with white space is its own strip. */
  lemma StripPlain(t: string)
    requires t != [] && t[0] !in Whitespace && t[|t| - 1] !in Whitespace
    ensures Strip(t) == t
  {
    StripShown(t, "", Whitespace);
    assert t + "" == t;
  }

  lemma {:induction false} NatDigitsValue(n: nat)
    ensures DigitsValue(NatDigits(n)) == n
    decreases n
  {
    if n >= 10 {
      var s := NatDigits(n / 10) + [DigitChar(n % 10)];
      assert s[..|s| - 1] == NatDigits(n / 10);
      NatDigitsValue(n / 10);
    }
  }

  /** Rendering an integer and reading it back (with any run of trailing
   *  spaces, as `modWeight` writes) gives the integer again. */
  lemma ParseShowInt(n: int, pad: string)
    requires forall i :: 0 <= i < |pad| ==> pad[i] == ' '
    ensures JsNumber(ShowInt(n) + pad) == Some(n)
  {
    var s := ShowInt(n);
    StripShown(s, pad, JsWhitespace);
    assert JsNumber(s + pad) == SignedDigits(s);
    ShownDigits(n);
  }

  lemma ShownDigits(n: int)
    ensures SignedDigits(ShowInt(n)) == Some(n)
  {
    var s := ShowInt(n);
    if n < 0 {
      NatDigitsValue(-n);
      assert s[0] == '-' && s[1..] == NatDigits(-n);
      assert AllDigits(s[1..]);
    } else {
      NatDigitsValue(n);
      assert s == NatDigits(n) && IsDigit(s[0]);
      assert AllDigits(s);
    }
  }

  lemma StripShown(s: string, pad: string, cs: set<char>)
    requires forall i :: 0 <= i < |pad| ==> pad[i] == ' '
    requires ' ' in cs
    requires s != [] && s[0] !in cs && s[|s| - 1] !in cs
    ensures StripChars(s + pad, cs) == s
  {
    assert (s + pad)[0] == s[0];
    assert LStrip(s + pad, cs) == s + pad;
    RStripPadding(s, pad, cs);
  }

  lemma {:induction false} RStripPadding(s: string, pad: string, cs: set<char>)
    requires forall i :: 0 <= i < |pad| ==> pad[i] == ' '
    requires ' ' in cs
    requires s != [] && s[|s| - 1] !in cs
    ensures RStrip(s + pad, cs) == s
    decreases |pad|
  {
    if pad == [] {
      assert s + pad == s;
    } else {
      assert (s + pad)[..|s + pad| - 1] == s + pad[..|pad| - 1];
      RStripPadding(s, pad[..|pad| - 1], cs);
    }
  }

  /** Rendering is injective: different integers have different decimal forms. */
  lemma ShowIntInjective(m: int, n: int)
    ensures ShowInt(m) == ShowInt(n) ==> m == n
  {
    if ShowInt(m) == ShowInt(n) {
      ParseShowInt(m, "");
      ParseShowInt(n, "");
      assert ShowInt(m) + "" == ShowInt(m);
      assert ShowInt(n) + "" == ShowInt(n);
    }
  }

  // ---- splitting -----------------------------------------------------------

  predicate StartsWith(s: string, p: string)
  {
    |p| <= |s| && s[..|p|] == p
  }

  /** Python `sub in s`. */
  predicate Contains(s: string, sub: string)
    decreases |s|
  {
    StartsWith(s, sub) || (s != [] && Contains(s[1..], sub))
  }

  /** The text before the first `c` and the text after it, if `c` occurs. */
  function SplitFirst(s: string, c: char): (r: Option<(string, string)>)
    ensures r.None? <==> c !in s
    ensures r.Some? ==> c !in r.value.0 && s == r.value.0 + [c] + r.value.1
  {
    if s == [] then None
    else if s[0] == c then Some(([], s[1..]))
    else match SplitFirst(s[1..], c)
      case None => None
      case Some((a, b)) => Some(([s[0]] + a, b))
  }

  /** Splitting at the first `c` undoes the join when the head has no `c`. */
  lemma {:induction false} SplitFirstJoin(a: string, c: char, b: string)
    requires c !in a
    ensures SplitFirst(a + ([c] + b), c) == Some((a, b))
  {
    var s := a + ([c] + b);
    if a == [] {
      assert s[0] == c && s[1..] == b;
    } else {
      assert s[0] == a[0] && s[1..] == a[1..] + ([c] + b);
      SplitFirstJoin(a[1..], c, b);
      assert [a[0]] + a[1..] == a;
    }
  }

  lemma DropPrefix(p: string, s: string)
    ensures StartsWith(p + s, p) && (p + s)[|p|..] == s
  {
    assert (p + s)[..|p|] == p;
  }

  /** A rendered integer holds only digits and a leading minus sign. */
  lemma ShowIntChars(n: int)
    ensures forall i :: 0 <= i < |ShowInt(n)| ==> IsDigit(ShowInt(n)[i]) || ShowInt(n)[i] == '-'
  {
  }

  // ---- words -----------------------------------------------------------

  /** The longest prefix without a character of `cs`. */
  function Run(s: string, cs: set<char>): (w: string)
    ensures |w| <= |s| && w == s[..|w|]
    ensures forall i :: 0 <= i < |w| ==> w[i] !in cs
    ensures |w| < |s| ==> s[|w|] in cs
  {
    if s == [] || s[0] in cs then [] else [s[0]] + Run(s[1..], cs)
  }

  /** A non-empty run of characters not in `cs`. */
  predicate IsRun(w: string, cs: set<char>)
  {
    w != [] && forall i :: 0 <= i < |w| ==> w[i] !in cs
  }

  /** The maximal runs of characters not in `cs`. */
  function SplitOn(s: string, cs: set<char>): (ws: seq<string>)
    ensures forall k :: 0 <= k < |ws| ==> IsRun(ws[k], cs)
    decreases |s|
  {
    var t := LStrip(s, cs);
    if t == [] then []
    else
      var w := Run(t, cs);
      assert IsRun(w, cs) by { assert t[0] !in cs; }
      var ws := SplitOn(t[|w|..], cs);
      var r := [w] + ws;
      assert forall k :: 0 <= k < |r| ==> r[k] == if k == 0 then w else ws[k - 1];
      r
  }

  /** Python `s.split()`: the maximal runs of characters other than white space. */
  function Words(s: string): (ws: seq<string>)
    ensures forall k :: 0 <= k < |ws| ==> IsRun(ws[k], Whitespace)
  {
    SplitOn(s, Whitespace)
  }

  /** The elements of `raw` that are in `known`, in order; duplicates are kept. */
  function KeepIn(raw: seq<string>, known: set<string>): (r: seq<string>)
    ensures |r| <= |raw|
    ensures forall k :: 0 <= k < |r| ==> r[k] in known
    ensures (forall k :: 0 <= k < |raw| ==> raw[k] in known) ==> r == raw
  {
    if raw == [] then []
    else KeepIn(raw[..|raw| - 1], known) + (if raw[|raw| - 1] in known then [raw[|raw| - 1]] else [])
  }

  /** One more element of `raw` extends the kept prefix by it when it is known. */
  lemma KeepInStep(raw: seq<string>, i: nat, known: set<string>)
    requires i < |raw|
    ensures KeepIn(raw[..i + 1], known) == KeepIn(raw[..i], known) + (if raw[i] in known then [raw[i]] else [])
  {
    assert raw[..i + 1][..i] == raw[..i];
  }

  /** The scan both tag fields run: the known names in order, and whether
   *  every name was known. */
  method ScanKnown(raw: seq<string>, known: set<string>) returns (kept: seq<string>, allKnown: bool)
    ensures kept == KeepIn(raw, known)
    ensures allKnown <==> forall k :: 0 <= k < |raw| ==> raw[k] in known
  {
    kept := [];
    allKnown := true;
    var i := 0;
    while i < |raw|
      invariant 0 <= i <= |raw|
      invariant kept == KeepIn(raw[..i], known)
      invariant allKnown <==> forall k :: 0 <= k < i ==> raw[k] in known
    {
      KeepInStep(raw, i, known);
      AllInStep(raw, i, known);
      if raw[i] in known {
        kept := kept + [raw[i]];
      } else {
        allKnown := false;
      }
      i := i + 1;
    }
    assert raw[..i] == raw;
  }

  lemma AllInStep(raw: seq<string>, i: nat, known: set<string>)
    requires i < |raw|
    ensures (forall k :: 0 <= k < i + 1 ==> raw[k] in known)
        <==> (forall k :: 0 <= k < i ==> raw[k] in known) && raw[i] in known
  {
  }

  /** Concatenation regroups; stated once so that a proof need not rediscover it. */
  lemma ConcatAssoc<T>(p: seq<T>, q: seq<T>, x: seq<T>)
    ensures (p + q) + x == p + (q + x)
  {
  }

  /** A prefix one longer is the prefix and the next element. */
  lemma PrefixSnoc<T>(s: seq<T>, i: nat)
    requires i < |s|
    ensures s[..i + 1] == s[..i] + [s[i]]
  {
  }
}
