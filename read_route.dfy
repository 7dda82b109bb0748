/**
 * The read view of an edition: the section to show when none is asked for,
 * the index of the shown annotations by the line they end on, and the
 * conversion of underscores into emphasis tags, balanced across lines by
 * each line's emphasis code.
 */
module ReadRoute {
  import opened Wrappers
  import opened Strings
  import opened Emphasis

  /** A line object as the view uses it: its text and its emphasis code. */
  datatype Row = Row(line: string, emphasis: Emph)

  /** One line of `underscores_to_ems`: a line with an underscore has its
   *  underscores converted and is then wrapped by its code; any other line
   *  is left exactly as it is. */
  function EmsLine(row: Row, us: bool): (Row, bool)
  {
    if '_' in row.line then
      var (t, u) := ToEms(row.line, us);
      (Row(Wrap(row.emphasis, t), row.emphasis), u)
    else (row, us)
  }

  /** `underscores_to_ems(lines)` as the new lines, with the open state carried. */
  function EmsLines(ls: seq<Row>, us: bool): (seq<Row>, bool)
  {
    if ls == [] then ([], us)
    else
      var (done, u) := EmsLines(ls[..|ls| - 1], us);
      var (r, u') := EmsLine(ls[|ls| - 1], u);
      (done + [r], u')
  }

  /** Underscores in a run of lines. */
  function Underscores(ls: seq<Row>): nat
  {
    if ls == [] then 0 else Underscores(ls[..|ls| - 1]) + CountChar(ls[|ls| - 1].line, '_')
  }

  lemma EmsLineState(row: Row, us: bool)
    ensures EmsLine(row, us).1 == (us != Odd(CountChar(row.line, '_')))
  {
    ToEmsParity(row.line, us);
  }

  /** After the lines, the open state reflects the parity of all their underscores. */
  lemma {:induction false} EmsLinesState(ls: seq<Row>, us: bool)
    ensures |EmsLines(ls, us).0| == |ls| && EmsLines(ls, us).1 == (us != Odd(Underscores(ls)))
  {
    if ls != [] {
      var p := ls[..|ls| - 1];
      var l := ls[|ls| - 1];
      EmsLinesState(p, us);
      var u := EmsLines(p, us).1;
      EmsLineState(l, u);
      assert EmsLines(ls, us).1 == EmsLine(l, u).1;
      assert Underscores(ls) == Underscores(p) + CountChar(l.line, '_');
      OddSplit(Underscores(p), CountChar(l.line, '_'), Underscores(ls));
    }
  }

  /** Line `i` is converted from the state set by all the underscores of the
   *  lines before it: the alternation carries across lines. */
  lemma EmsLinesPointwise(ls: seq<Row>, us: bool)
    ensures |EmsLines(ls, us).0| == |ls|
    ensures forall i :: 0 <= i < |ls| ==>
      EmsLines(ls, us).0[i] == EmsLine(ls[i], us != Odd(Underscores(ls[..i]))).0
  {
    EmsLinesPrefixwise(ls, us);
    forall i | 0 <= i < |ls|
      ensures EmsLines(ls, us).0[i] == EmsLine(ls[i], us != Odd(Underscores(ls[..i]))).0
    {
      EmsLinesState(ls[..i], us);
    }
  }

  /** Line `i` is converted from the state the lines before it leave. */
  lemma {:induction false} EmsLinesPrefixwise(ls: seq<Row>, us: bool)
    ensures |EmsLines(ls, us).0| == |ls|
    ensures forall i :: 0 <= i < |ls| ==> EmsLines(ls, us).0[i] == EmsLine(ls[i], EmsLines(ls[..i], us).1).0
  {
    if ls != [] {
      var p := ls[..|ls| - 1];
      EmsLinesPrefixwise(p, us);
      var out := EmsLines(ls, us).0;
      assert out == EmsLines(p, us).0 + [EmsLine(ls[|ls| - 1], EmsLines(p, us).1).0];
      forall i | 0 <= i < |ls|
        ensures out[i] == EmsLine(ls[i], EmsLines(ls[..i], us).1).0
      {
        if i < |p| {
          assert ls[..i] == p[..i] && ls[i] == p[i];
          assert out[i] == EmsLines(p, us).0[i];
        } else {
          assert ls[..i] == p;
        }
      }
    }
  }

  /** One more line extends the converted prefix by that line, converted
   *  from the state the prefix leaves. */
  lemma EmsLinesStep(ls: seq<Row>, i: nat, us: bool)
    requires i < |ls|
    ensures var (done, u) := EmsLines(ls[..i], us);
      var (r, u') := EmsLine(ls[i], u);
      EmsLines(ls[..i + 1], us) == (done + [r], u')
  {
    assert ls[..i + 1][..i] == ls[..i];
  }

  /** What a converted line looks like: one without underscores is
   *  untouched; one with underscores has none left and gets exactly the tags
   *  of its code around the converted text. */
  lemma EmsLineShape(row: Row, us: bool)
    ensures '_' !in row.line ==> EmsLine(row, us) == (row, us)
    ensures '_' in row.line ==> ('_' !in ToEms(row.line, us).0
      && EmsLine(row, us).0.line == Wrap(row.emphasis, ToEms(row.line, us).0)
      && EmsLine(row, us).0.emphasis == row.emphasis)
  {
    ToEmsNoUnderscore(row.line, us);
  }

  /** `underscores_to_ems(lines)`, rewriting each line object's text in place. */
  method UnderscoresToEms(lines: array<Row>)
    modifies lines
    ensures lines[..] == EmsLines(old(lines[..]), false).0
  {
    ghost var orig := lines[..];
    var us := false;
    var i := 0;
    while i < lines.Length
      invariant 0 <= i <= lines.Length
      invariant (lines[..i], us) == EmsLines(orig[..i], false)
      invariant lines[i..] == orig[i..]
    {
      EmsLinesStep(orig, i, false);
      assert lines[i + 1..] == orig[i + 1..] by {
        assert lines[i..][1..] == lines[i + 1..] && orig[i..][1..] == orig[i + 1..];
      }
      ghost var done := lines[..i];
      var linetext := lines[i].line;
      if '_' in linetext {
        linetext, us := UnderscoresToTags(linetext, us);
        lines[i] := Row(Wrap(lines[i].emphasis, linetext), lines[i].emphasis);
      }
      assert lines[..i + 1] == done + [lines[i]];
      i := i + 1;
    }
    assert orig[..i] == orig;
  }

  // ---- the section argument --------------------------------------------------

  /** `edition.deepest_precedence`: the length of the section of the
   *  edition's first primary line at precedence 0, given as `heading`; with
   *  no such line, `.first()` is `None` and `line.section` raises
   *  `AttributeError`. */
  function DeepestPrecedence(heading: Option<nat>): (r: Result<nat>)
    ensures r.Err? ==> r.error == AttributeError
    ensures r.Ok? <==> heading.Some?
    ensures r.Ok? ==> r.value == heading.value
  {
    match heading
    case None => Err(AttributeError)
    case Some(n) => Ok(n)
  }

  /** The `section` query values as written: `int()` of each, or, with none,
   *  `edition.deepest_precedence()`, which evaluates the property and then
   *  calls the integer it returns, raising `TypeError`. */
  function SectionAsWritten(sectionStrings: seq<string>, heading: Option<nat>): (r: Result<seq<int>>)
  {
    if sectionStrings != [] then ParseSection(sectionStrings)
    else match DeepestPrecedence(heading)
      case Err(e) => Err(e)
      case Ok(_) => Err(TypeError)
  }

  /** The values of a sequence of conversions, or `ValueError` at the first that failed. */
  function AllSome(os: seq<Option<int>>): (r: Result<seq<int>>)
    ensures r.Ok? <==> forall i :: 0 <= i < |os| ==> os[i].Some?
    ensures r.Ok? ==> |r.value| == |os| && forall i :: 0 <= i < |os| ==> Some(r.value[i]) == os[i]
  {
    if os == [] then Ok([])
    else match (os[0], AllSome(os[1..]))
      case (Some(n), Ok(rest)) => Ok([n] + rest)
      case (None, _) => Err(ValueError)
      case (_, Err(e)) => Err(e)
  }

  /** `tuple(int(i) for i in section_strings)`. */
  function ParseSection(sectionStrings: seq<string>): (r: Result<seq<int>>)
    ensures r.Ok? <==> forall i :: 0 <= i < |sectionStrings| ==> PyInt(sectionStrings[i]).Some?
    ensures r.Ok? ==> (|r.value| == |sectionStrings|
      && forall i :: 0 <= i < |sectionStrings| ==> Some(r.value[i]) == PyInt(sectionStrings[i]))
  {
    var os := seq(|sectionStrings|, i requires 0 <= i < |sectionStrings| => PyInt(sectionStrings[i]));
    ConversionsAgree(sectionStrings, os);
    AllSome(os)
  }

  /** The conversions all succeed exactly when each string converts. */
  lemma ConversionsAgree(ss: seq<string>, os: seq<Option<int>>)
    requires |os| == |ss| && forall i :: 0 <= i < |ss| ==> os[i] == PyInt(ss[i])
    ensures (forall i :: 0 <= i < |os| ==> os[i].Some?) <==> (forall i :: 0 <= i < |ss| ==> PyInt(ss[i]).Some?)
  {
  }

  /** Without a `section` argument the read view always fails: with
   *  `AttributeError` when the edition has no primary heading line, and
   *  otherwise with `TypeError` from calling the precedence. */
  lemma NoSectionFails(heading: Option<nat>)
    ensures SectionAsWritten([], heading).Err?
    ensures SectionAsWritten([], heading).error == (if heading.None? then AttributeError else TypeError)
  {
  }

  /** The intended default: the first section at every level, a tuple of
   *  1s as long as the deepest precedence, which is still undefined for an
   *  edition without a primary heading line. */
  function Section(sectionStrings: seq<string>, heading: Option<nat>): (r: Result<seq<int>>)
    ensures sectionStrings == [] && heading.Some? ==> (r.Ok? && |r.value| == heading.value
      && forall i :: 0 <= i < heading.value ==> r.value[i] == 1)
    ensures sectionStrings == [] && heading.None? ==> r == Err(AttributeError)
    ensures sectionStrings != [] ==> r == SectionAsWritten(sectionStrings, heading)
  {
    if sectionStrings != [] then ParseSection(sectionStrings)
    else match DeepestPrecedence(heading)
      case Err(e) => Err(e)
      case Ok(n) => Ok(seq(n, _ => 1))
  }

  // ---- the annotation index --------------------------------------------------

  /** An annotation as the index sees it: its id and its HEAD's last line. */
  datatype Shown = Shown(id: int, lastLine: int)

  /** The ids of the annotations that end on `line`, in query order. */
  function EndingOn(annotations: seq<Shown>, line: int): (r: seq<int>)
    ensures |r| <= |annotations|
  {
    if annotations == [] then []
    else EndingOn(annotations[..|annotations| - 1], line)
         + (if annotations[|annotations| - 1].lastLine == line then [annotations[|annotations| - 1].id] else [])
  }

  /** `annotations_idx`: appends each annotation to the list of its last line. */
  method AnnotationsIdx(annotations: seq<Shown>) returns (idx: map<int, seq<int>>)
    ensures forall line :: line in idx <==> exists a :: a in annotations && a.lastLine == line
    ensures forall line :: line in idx ==> idx[line] == EndingOn(annotations, line)
  {
    idx := map[];
    var i := 0;
    while i < |annotations|
      invariant 0 <= i <= |annotations|
      invariant forall line :: line in idx <==> exists a :: a in annotations[..i] && a.lastLine == line
      invariant forall line :: line in idx ==> idx[line] == EndingOn(annotations[..i], line)
    {
      var a := annotations[i];
      assert annotations[..i + 1][..i] == annotations[..i];
      assert annotations[..i + 1] == annotations[..i] + [a];
      var l := a.lastLine;
      var list := if l in idx then idx[l] else [];
      if l !in idx { EndingOnAbsent(annotations[..i], l); }
      idx := idx[l := list + [a.id]];
      i := i + 1;
    }
    assert annotations[..i] == annotations;
  }

  lemma EndingOnAbsent(annotations: seq<Shown>, line: int)
    requires forall a :: a in annotations ==> a.lastLine != line
    ensures EndingOn(annotations, line) == []
  {
    if annotations != [] {
      EndingOnAbsent(annotations[..|annotations| - 1], line);
    }
  }

  /** The positions in the query result of the annotations that end on
   *  `line`: ascending, and every such position. */
  function EndingPositions(annotations: seq<Shown>, line: int): (ps: seq<nat>)
    ensures forall k :: 0 <= k < |ps| ==> ps[k] < |annotations| && annotations[ps[k]].lastLine == line
    ensures forall k, l :: 0 <= k < l < |ps| ==> ps[k] < ps[l]
    ensures forall i :: 0 <= i < |annotations| && annotations[i].lastLine == line ==> i in ps
  {
    if annotations == [] then []
    else
      var n := |annotations| - 1;
      EndingPositions(annotations[..n], line) + (if annotations[n].lastLine == line then [n] else [])
  }

  /** A line's list holds, in query order, the id of each annotation ending
   *  on that line, each of them once, and nothing else. */
  lemma {:induction false} EndingOnInOrder(annotations: seq<Shown>, line: int)
    ensures var r, ps := EndingOn(annotations, line), EndingPositions(annotations, line);
      |r| == |ps| && forall k :: 0 <= k < |r| ==> r[k] == annotations[ps[k]].id
  {
    if annotations != [] {
      var n := |annotations| - 1;
      var d := annotations[..n];
      EndingOnInOrder(d, line);
      var r0, p0 := EndingOn(d, line), EndingPositions(d, line);
      var r, ps := EndingOn(annotations, line), EndingPositions(annotations, line);
      var hit := annotations[n].lastLine == line;
      assert r == r0 + (if hit then [annotations[n].id] else []);
      assert ps == p0 + (if hit then [n] else []);
      forall k | 0 <= k < |r|
        ensures r[k] == annotations[ps[k]].id
      {
        if k < |r0| {
          assert r[k] == r0[k] == d[p0[k]].id;
          assert ps[k] == p0[k] && p0[k] < n;
        }
      }
    }
  }
}
