/**
 * The content models' small pure parts: the two enumerations kept as
 * tuples instead of tables (line emphasis and writer roles) with their
 * reverse dictionaries, the url form of a title, the titles of an
 * edition, the section-argument check and the line range of `get_lines`.
 */
module Content {
  import opened Wrappers
  import opened Strings
  import Emphasis

  /** `EMPHASIS`: a line's `em_id` indexes it. */
  const EmphasisCodes: seq<string> := ["nem", "oem", "em", "cem"]

  /** `WRITERS`: a writer connection's `enum_id` indexes it. */
  const WriterRoles: seq<string> := ["author", "editor", "translator"]

  predicate Distinct(t: seq<string>)
  {
    forall i, j :: 0 <= i < j < |t| ==> t[i] != t[j]
  }

  /** `{val: ind for ind, val in enumerate(t)}`: a repeated value would keep
   *  its last index. */
  function Reverse(t: seq<string>): (m: map<string, int>)
    ensures m.Keys == set v | v in t
  {
    if t == [] then map[]
    else
      var front := t[..|t| - 1];
      assert t == front + [t[|t| - 1]];
      Reverse(front)[t[|t| - 1] := |t| - 1]
  }

  /** `EMPHASIS_REVERSE`. */
  const EmphasisReverse: map<string, int> := Reverse(EmphasisCodes)

  /** `WRITERS_REVERSE`. */
  const WriterReverse: map<string, int> := Reverse(WriterRoles)

  /** For a tuple without repeats the reverse dictionary inverts indexing
   *  both ways: each value maps back to its own index, and every index
   *  it holds names its key. */
  lemma {:induction false} ReverseInverts(t: seq<string>)
    requires Distinct(t)
    ensures forall i :: 0 <= i < |t| ==> t[i] in Reverse(t) && Reverse(t)[t[i]] == i
    ensures forall v :: v in Reverse(t) ==> 0 <= Reverse(t)[v] < |t| && t[Reverse(t)[v]] == v
  {
    if t != [] {
      var front := t[..|t| - 1];
      assert Distinct(front) by {
        forall i, j | 0 <= i < j < |front| ensures front[i] != front[j] {
          assert front[i] == t[i] && front[j] == t[j];
        }
      }
      ReverseInverts(front);
      forall i | 0 <= i < |front| ensures front[i] != t[|t| - 1] {
        assert front[i] == t[i];
      }
      forall i | 0 <= i < |t| ensures t[i] in Reverse(t) && Reverse(t)[t[i]] == i {
        if i < |front| {
          assert front[i] == t[i];
        }
      }
    }
  }

  /** `EMPHASIS_REVERSE[EMPHASIS[i]] == i` and `WRITERS_REVERSE[WRITERS[i]] == i`,
   *  and nothing else is a key. */
  lemma EnumMapsInvert()
    ensures EmphasisReverse.Keys == {"nem", "oem", "em", "cem"}
    ensures forall i :: 0 <= i < |EmphasisCodes| ==> EmphasisReverse[EmphasisCodes[i]] == i
    ensures WriterReverse.Keys == {"author", "editor", "translator"}
    ensures forall i :: 0 <= i < |WriterRoles| ==> WriterReverse[WriterRoles[i]] == i
  {
    EmphasisMapInverts();
    WriterMapInverts();
  }

  lemma EmphasisMapInverts()
    ensures EmphasisReverse.Keys == {"nem", "oem", "em", "cem"}
    ensures forall i :: 0 <= i < |EmphasisCodes| ==> EmphasisReverse[EmphasisCodes[i]] == i
  {
    assert Distinct(EmphasisCodes);
    ReverseInverts(EmphasisCodes);
    assert EmphasisCodes == [EmphasisCodes[0], EmphasisCodes[1], EmphasisCodes[2], EmphasisCodes[3]];
  }

  lemma WriterMapInverts()
    ensures WriterReverse.Keys == {"author", "editor", "translator"}
    ensures forall i :: 0 <= i < |WriterRoles| ==> WriterReverse[WriterRoles[i]] == i
  {
    assert Distinct(WriterRoles);
    ReverseInverts(WriterRoles);
    assert WriterRoles == [WriterRoles[0], WriterRoles[1], WriterRoles[2]];
  }

  /** Python indexing `t[i]`: a negative index counts from the end. */
  function PyIndex(t: seq<string>, i: int): (r: Result<string>)
    ensures r.Err? <==> i < -|t| || |t| <= i
    ensures r.Err? ==> r.error == IndexError
    ensures 0 <= i < |t| ==> r == Ok(t[i])
    ensures -|t| <= i < 0 ==> r == Ok(t[|t| + i])
  {
    if 0 <= i < |t| then Ok(t[i])
    else if -|t| <= i < 0 then Ok(t[|t| + i])
    else Err(IndexError)
  }

  /** `Line.emphasis`, set when a line is loaded: `EMPHASIS[em_id]`. */
  function LineEmphasis(emId: int): (r: Result<string>)
    ensures r.Ok? <==> -4 <= emId < 4
  {
    PyIndex(EmphasisCodes, emId)
  }

  /** `WriterConnection.enum`: `WRITERS[enum_id]`. */
  function WriterEnum(enumId: int): (r: Result<string>)
    ensures r.Ok? <==> -3 <= enumId < 3
  {
    PyIndex(WriterRoles, enumId)
  }

  /** Storing an emphasis code as `EMPHASIS_REVERSE[code]` and loading the
   *  line back gives the same code; likewise for writer roles. Every code
   *  the text processor writes is one of them. */
  lemma StoredEnumsLoadBack(code: string, role: string, e: Emphasis.Emph)
    ensures code in EmphasisReverse ==> LineEmphasis(EmphasisReverse[code]) == Ok(code)
    ensures role in WriterReverse ==> WriterEnum(WriterReverse[role]) == Ok(role)
    ensures Emphasis.Code(e) in EmphasisReverse
  {
    assert Distinct(EmphasisCodes);
    assert Distinct(WriterRoles);
    if code in EmphasisReverse {
      ReverseLoadsBack(EmphasisCodes, code);
    }
    if role in WriterReverse {
      ReverseLoadsBack(WriterRoles, role);
    }
    EnumMapsInvert();
  }

  /** A value stored by its index in the reverse dictionary is found again
   *  by indexing the tuple. */
  lemma ReverseLoadsBack(t: seq<string>, v: string)
    requires Distinct(t) && v in Reverse(t)
    ensures PyIndex(t, Reverse(t)[v]) == Ok(v)
  {
    ReverseInverts(t);
  }

  // ---- urls ----------------------------------------------------------------

  /** `Text.url_name` / `Writer.url_name`: spaces become underscores. */
  function UrlName(title: string): (u: string)
    ensures ' ' !in u && |u| == |title|
  {
    ReplaceChar(title, ' ', "_")
  }

  /** The title `get_by_url` looks for: underscores become spaces. */
  function UrlTitle(url: string): (t: string)
    ensures '_' !in t && |t| == |url|
  {
    ReplaceChar(url, '_', " ")
  }

  /** A title without underscores survives the trip through its url. */
  lemma {:induction false} UrlRoundTrip(title: string)
    requires '_' !in title
    ensures UrlTitle(UrlName(title)) == title
  {
    if title != [] {
      UrlRoundTrip(title[1..]);
      assert UrlName(title) == (if title[0] == ' ' then "_" else [title[0]]) + UrlName(title[1..]);
    }
  }

  /** A title with an underscore is not found by its own url: it comes back
   *  with a space there. */
  lemma UnderscoreTitleLost()
    ensures UrlTitle(UrlName("a_b")) == "a b"
  {
  }

  // ---- edition titles --------------------------------------------------------

  /** `Edition.title`. */
  function EditionFullTitle(textTitle: string, primary: bool, num: int): (r: string)
    ensures |textTitle| < |r| && r[..|textTitle|] == textTitle
  {
    if primary then textTitle + "*" else textTitle + " - Edition #" + ShowInt(num)
  }

  /** `Edition.edition_title`. */
  function EditionTitle(primary: bool, num: int): (r: string)
    ensures |r| >= 9 && r[..9] == "Edition #"
  {
    if primary then "Edition #" + ShowInt(num) + " - Primary" else "Edition #" + ShowInt(num)
  }

  /** Within one text the title tells the editions apart: a primary edition
   *  is marked by `*` alone, any other edition by its number; the title
   *  without the text's name is `edition_title` for the non-primary ones. */
  lemma EditionTitlesDistinguish(textTitle: string, p: bool, m: int, q: bool, n: int)
    ensures EditionFullTitle(textTitle, p, m) == EditionFullTitle(textTitle, q, n) ==> p == q && (p || m == n)
    ensures EditionTitle(p, m) == EditionTitle(q, n) ==> p == q && m == n
    ensures !p ==> EditionFullTitle(textTitle, p, m) == textTitle + " - " + EditionTitle(p, m)
  {
    FullTitlesDiffer(textTitle, p, m, q, n);
    EditionTitlesDiffer(p, m, q, n);
    if !p {
      FullTitleJoins(textTitle, m);
    }
  }

  lemma FullTitlesDiffer(textTitle: string, p: bool, m: int, q: bool, n: int)
    ensures EditionFullTitle(textTitle, p, m) == EditionFullTitle(textTitle, q, n) ==> p == q && (p || m == n)
  {
    if EditionFullTitle(textTitle, p, m) == EditionFullTitle(textTitle, q, n) {
      FullTitleParts(textTitle, p, m);
      FullTitleParts(textTitle, q, n);
      if !p && !q {
        ShowIntInjective(m, n);
      }
    }
  }

  lemma FullTitleJoins(textTitle: string, m: int)
    ensures EditionFullTitle(textTitle, false, m) == textTitle + " - " + EditionTitle(false, m)
  {
    var s := ShowInt(m);
    assert EditionTitle(false, m) == "Edition #" + s;
    assert " - Edition #" == " - " + "Edition #";
    assert textTitle + " - Edition #" + s == textTitle + " - " + ("Edition #" + s);
  }

  lemma EditionTitlesDiffer(p: bool, m: int, q: bool, n: int)
    ensures EditionTitle(p, m) == EditionTitle(q, n) ==> p == q && m == n
  {
    if EditionTitle(p, m) == EditionTitle(q, n) {
      EditionTitleNumber(p, m);
      EditionTitleNumber(q, n);
      if p == q {
        ShowIntInjective(m, n);
      } else if p {
        TitleMarkIsNotNumber(p, m, q, n);
      } else {
        TitleMarkIsNotNumber(q, n, p, m);
      }
    }
  }

  /** What follows the text's name in `Edition.title`. */
  lemma FullTitleParts(textTitle: string, p: bool, m: int)
    ensures var r := EditionFullTitle(textTitle, p, m);
      var k := |textTitle|;
      && (p ==> |r| == k + 1 && r[k] == '*')
      && (!p ==> |r| > k + 12 && r[k] == ' ' && r[k + 12..] == ShowInt(m))
  {
    var r := EditionFullTitle(textTitle, p, m);
    var k := |textTitle|;
    if !p {
      assert r == textTitle + " - Edition #" + ShowInt(m);
      assert r[k + 12..] == ShowInt(m);
    }
  }

  /** A primary `edition_title` is never a plain one: after the number,
   *  the plain title ends, the primary one goes on with " - Primary". */
  lemma TitleMarkIsNotNumber(p: bool, m: int, q: bool, n: int)
    requires p && !q
    ensures EditionTitle(p, m) != EditionTitle(q, n)
  {
    var r := EditionTitle(p, m);
    var s := EditionTitle(q, n);
    EditionTitleNumber(p, m);
    EditionTitleNumber(q, n);
    ShowIntChars(n);
    var sm, sn := ShowInt(m), ShowInt(n);
    if |sn| == |sm| + 10 {
      assert s[9 + |sm|] == sn[|sm|];
      assert r[9 + |sm|] == ' ';
    }
  }

  /** The number and the primary mark can be read back from `edition_title`:
   *  the number is what follows `#` up to the first space. */
  lemma EditionTitleNumber(p: bool, m: int)
    ensures var r := EditionTitle(p, m);
      var s := ShowInt(m);
      && |r| == 9 + |s| + (if p then 10 else 0)
      && r[9..9 + |s|] == s
      && (p ==> r[9 + |s|..] == " - Primary")
  {
    ShowIntChars(m);
  }

  // ---- section arguments and line ranges ------------------------------------

  /** The Python values a caller can pass as a section. */
  datatype PyValue = IntV(i: int) | BoolV(b: bool) | StrV(s: string) | NoneV
                   | TupleV(items: seq<PyValue>) | ListV(items: seq<PyValue>)

  /** `isinstance(v, int)`: a `bool` is an `int` in Python. */
  predicate IsPyInt(v: PyValue)
  {
    v.IntV? || v.BoolV?
  }

  /** `_check_section_argument`: `TypeError` unless a tuple of integers. */
  function CheckSection(v: PyValue): (r: Option<Failure>)
    ensures r.Some? ==> r.value == TypeError
  {
    if !v.TupleV? then Some(TypeError)
    else if exists k :: 0 <= k < |v.items| && !IsPyInt(v.items[k]) then Some(TypeError)
    else None
  }

  /** The tuple a route builds from a section's numbers. */
  function SectionTuple(nums: seq<int>): (v: PyValue)
    ensures v.TupleV? && |v.items| == |nums|
  {
    TupleV(seq(|nums|, k requires 0 <= k < |nums| => IntV(nums[k])))
  }

  /** The argument check passes exactly the tuples of integers: any tuple of numbers
   *  (the empty one too), and no list, string, `None` or bare number. */
  lemma CheckSectionSpec(v: PyValue, nums: seq<int>)
    ensures CheckSection(v).None? <==> v.TupleV? && forall k :: 0 <= k < |v.items| ==> IsPyInt(v.items[k])
    ensures CheckSection(SectionTuple(nums)).None?
    ensures CheckSection(ListV(SectionTuple(nums).items)) == Some(TypeError)
  {
    var t := SectionTuple(nums);
    assert forall k :: 0 <= k < |t.items| ==> t.items[k] == IntV(nums[k]);
  }

  /** `get_lines(nums)` on the numbers of the edition's lines: two or more
   *  numbers select the inclusive range from the first to the last, one
   *  selects that line, and none raises `IndexError`. */
  function GetLines(lineNums: seq<int>, nums: seq<int>): (r: Result<seq<int>>)
    ensures r.Err? <==> nums == []
    ensures r.Ok? ==> forall k :: 0 <= k < |r.value| ==> r.value[k] in lineNums
  {
    if nums == [] then Err(IndexError)
    else if |nums| >= 2 then Ok(Filter(lineNums, nums[0], nums[|nums| - 1]))
    else Ok(Filter(lineNums, nums[0], nums[0]))
  }

  /** The line numbers in `lo..hi`, both included, in their stored order. */
  function Filter(lineNums: seq<int>, lo: int, hi: int): (r: seq<int>)
    ensures forall x :: x in r <==> x in lineNums && lo <= x <= hi
    ensures lo > hi ==> r == []
  {
    if lineNums == [] then []
    else (if lo <= lineNums[0] <= hi then [lineNums[0]] else []) + Filter(lineNums[1..], lo, hi)
  }

  /** Only the first and the last number matter; a reversed pair selects
   *  nothing, and a single number is the range from it to itself. */
  lemma GetLinesRange(lineNums: seq<int>, nums: seq<int>, x: int)
    requires nums != []
    ensures GetLines(lineNums, nums).Ok?
    ensures x in GetLines(lineNums, nums).value <==> x in lineNums && nums[0] <= x <= nums[|nums| - 1]
    ensures |nums| >= 2 ==> GetLines(lineNums, nums) == GetLines(lineNums, [nums[0], nums[|nums| - 1]])
    ensures nums[0] > nums[|nums| - 1] ==> GetLines(lineNums, nums) == Ok([])
  {
  }
}
