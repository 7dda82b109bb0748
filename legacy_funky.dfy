/**
 * The emphasis and marker helpers of the first version of the reading view:
 * whether a line leaves an `<em>` open or closes one it did not open, the
 * `line,char` key of an annotation marker, and `preplines`, which puts the
 * annotation markers into the lines, converts underscores, and balances the
 * emphasis tags of every line.
 */
module LegacyFunky {
  import opened Wrappers
  import opened Strings
  import opened Emphasis

  /** `opened(line)`: more `<em>` than `</em>`. */
  predicate Opened(line: string)
  {
    Count(line, "<em>") > Count(line, "</em>")
  }

  /** `closed(line)`: more `</em>` than `<em>`. */
  predicate Closed(line: string)
  {
    Count(line, "</em>") > Count(line, "<em>")
  }

  /** A line never both leaves an emphasis open and closes a foreign one, and
   *  a line with as many openings as closings does neither. */
  lemma OpenedClosedExclusive(line: string)
    ensures !(Opened(line) && Closed(line))
    ensures Count(line, "<em>") == Count(line, "</em>") ==> !Opened(line) && !Closed(line)
  {
  }

  /** `ahash(line, char)`: `"{line},{char}"`. */
  function AHash(line: int, ch: int): string
  {
    ShowInt(line) + "," + ShowInt(ch)
  }

  /** The key splits back into its two numbers at its only comma, so
   *  different positions get different keys. */
  lemma AHashSplits(line: int, ch: int)
    ensures SplitFirst(AHash(line, ch), ',') == Some((ShowInt(line), ShowInt(ch)))
  {
    ShowIntChars(line);
    assert ',' !in ShowInt(line);
    SplitFirstJoin(ShowInt(line), ',', ShowInt(ch));
    assert AHash(line, ch) == ShowInt(line) + ([','] + ShowInt(ch));
  }

  lemma AHashInjective(l1: int, c1: int, l2: int, c2: int)
    ensures AHash(l1, c1) == AHash(l2, c2) ==> l1 == l2 && c1 == c2
  {
    if AHash(l1, c1) == AHash(l2, c2) {
      AHashSplits(l1, c1);
      AHashSplits(l2, c2);
      ShowIntInjective(l1, l2);
      ShowIntInjective(c1, c2);
    }
  }

  /** An annotation as `preplines` uses it. */
  datatype Anno = Anno(id: int, lastLineId: int, firstCharIdx: int, lastCharIdx: int)

  /** A line object: its id and its text. */
  datatype PLine = PLine(id: int, line: string)

  /** The superscript link to an annotation, labelled with its key. */
  function Marker(a: Anno): (m: string)
    ensures '_' !in m
  {
    ShowIntChars(a.id);
    ShowIntChars(a.lastLineId);
    ShowIntChars(a.lastCharIdx);
    "<sup><a href=\"#a" + ShowInt(a.id) + "\">[" + AHash(a.lastLineId, a.lastCharIdx) + "]</a></sup>"
  }

  /** One marker: appended when both character indices are 0, otherwise
   *  inserted at `last_char_idx` (a Python slice position). */
  function WithMarker(text: string, a: Anno): string
  {
    if a.firstCharIdx == 0 && a.lastCharIdx == 0 then text + Marker(a)
    else SliceTo(text, a.lastCharIdx) + Marker(a) + SliceFrom(text, a.lastCharIdx)
  }

  /** The markers of a line's annotations, in the order given. */
  function WithMarkers(text: string, annos: seq<Anno>): string
    decreases |annos|
  {
    if annos == [] then text else WithMarkers(WithMarker(text, annos[0]), annos[1..])
  }

  lemma WithMarkerPlaces(text: string, a: Anno)
    ensures a.firstCharIdx == 0 && a.lastCharIdx == 0 ==> WithMarker(text, a) == text + Marker(a)
    ensures !(a.firstCharIdx == 0 && a.lastCharIdx == 0) && 0 <= a.lastCharIdx <= |text| ==>
      WithMarker(text, a) == text[..a.lastCharIdx] + Marker(a) + text[a.lastCharIdx..]
  {
  }

  lemma WithMarkerUnderscores(text: string, a: Anno)
    ensures CountChar(WithMarker(text, a), '_') == CountChar(text, '_')
  {
    var m := Marker(a);
    if a.firstCharIdx == 0 && a.lastCharIdx == 0 {
      CountCharAppend(text, m, '_');
    } else {
      var k := SliceBound(a.lastCharIdx, |text|);
      var x, y := text[..k], text[k..];
      assert text == x + y;
      assert WithMarker(text, a) == (x + m) + y;
      CountCharAppend(x, y, '_');
      CountCharAppend(x, m, '_');
      CountCharAppend(x + m, y, '_');
    }
  }

  /** Markers add no underscore, so they never shift the emphasis alternation. */
  lemma {:induction false} WithMarkersUnderscores(text: string, annos: seq<Anno>)
    ensures CountChar(WithMarkers(text, annos), '_') == CountChar(text, '_')
    decreases |annos|
  {
    if annos != [] {
      WithMarkerUnderscores(text, annos[0]);
      WithMarkersUnderscores(WithMarker(text, annos[0]), annos[1..]);
    }
  }

  /** The balancing step: an opened line is closed and starts an emphasis,
   *  a closed line is opened and ends it, and any other line inside an
   *  emphasis is wrapped. */
  function Balanced(line: string, lem: bool): (string, bool)
  {
    if Opened(line) then (line + "</em>", true)
    else if Closed(line) then ("<em>" + line, false)
    else if lem then ("<em>" + line + "</em>", lem)
    else (line, lem)
  }

  /** The annotations of a line, none when its id is not in the dictionary. */
  function AnnosOf(annos: map<int, seq<Anno>>, id: int): seq<Anno>
  {
    if id in annos then annos[id] else []
  }

  /** One line of `preplines`, with the two flags `us` and `lem` carried. */
  function PrepLine(l: PLine, annos: map<int, seq<Anno>>, us: bool, lem: bool): (PLine, bool, bool)
  {
    var t := WithMarkers(l.line, AnnosOf(annos, l.id));
    var (t', us') := if '_' in t then ToEms(t, us) else (t, us);
    var (t'', lem') := Balanced(t', lem);
    (PLine(l.id, t''), us', lem')
  }

  /** `preplines(lines, annos)` as the new lines. */
  function Prepped(ls: seq<PLine>, annos: map<int, seq<Anno>>): (seq<PLine>, bool, bool)
  {
    if ls == [] then ([], false, false)
    else
      var (done, us, lem) := Prepped(ls[..|ls| - 1], annos);
      var (l, us', lem') := PrepLine(ls[|ls| - 1], annos, us, lem);
      (done + [l], us', lem')
  }

  /** Text underscores as `preplines` counts them. */
  function Underscores(ls: seq<PLine>): nat
  {
    if ls == [] then 0 else Underscores(ls[..|ls| - 1]) + CountChar(ls[|ls| - 1].line, '_')
  }

  lemma PrepLineState(l: PLine, annos: map<int, seq<Anno>>, us: bool, lem: bool)
    ensures PrepLine(l, annos, us, lem).0.id == l.id
    ensures PrepLine(l, annos, us, lem).1 == (us != Odd(CountChar(l.line, '_')))
  {
    var t := WithMarkers(l.line, AnnosOf(annos, l.id));
    WithMarkersUnderscores(l.line, AnnosOf(annos, l.id));
    ToEmsParity(t, us);
  }

  /** `preplines` keeps every line's id, and the underscore state after the
   *  lines is the parity of their underscores: markers never shift it. */
  lemma PreppedState(ls: seq<PLine>, annos: map<int, seq<Anno>>)
    ensures |Prepped(ls, annos).0| == |ls|
    ensures forall i :: 0 <= i < |ls| ==> Prepped(ls, annos).0[i].id == ls[i].id
    ensures Prepped(ls, annos).1 == Odd(Underscores(ls))
  {
    PreppedIds(ls, annos);
    PreppedParity(ls, annos);
  }

  lemma {:induction false} PreppedIds(ls: seq<PLine>, annos: map<int, seq<Anno>>)
    ensures |Prepped(ls, annos).0| == |ls|
    ensures forall i :: 0 <= i < |ls| ==> Prepped(ls, annos).0[i].id == ls[i].id
  {
    if ls != [] {
      var p := ls[..|ls| - 1];
      var l := ls[|ls| - 1];
      PreppedIds(p, annos);
      var done, us, lem := Prepped(p, annos).0, Prepped(p, annos).1, Prepped(p, annos).2;
      PrepLineState(l, annos, us, lem);
      var x := PrepLine(l, annos, us, lem).0;
      assert Prepped(ls, annos).0 == done + [x];
      assert forall i :: 0 <= i < |p| ==> (done + [x])[i] == done[i];
    }
  }

  lemma {:induction false} PreppedParity(ls: seq<PLine>, annos: map<int, seq<Anno>>)
    ensures Prepped(ls, annos).1 == Odd(Underscores(ls))
  {
    if ls != [] {
      var p := ls[..|ls| - 1];
      var l := ls[|ls| - 1];
      PreppedParity(p, annos);
      var us, lem := Prepped(p, annos).1, Prepped(p, annos).2;
      PrepLineState(l, annos, us, lem);
      var us' := PrepLine(l, annos, us, lem).1;
      assert Prepped(ls, annos).1 == us';
      assert Underscores(ls) == Underscores(p) + CountChar(l.line, '_');
      OddSplit(Underscores(p), CountChar(l.line, '_'), Underscores(ls));
    }
  }

  /** Each line ends up with no underscore, and with an opening or closing
   *  tag added exactly as its own tag counts (after conversion) demand. */
  lemma PrepLineShape(l: PLine, annos: map<int, seq<Anno>>, us: bool, lem: bool)
    ensures var t := WithMarkers(l.line, AnnosOf(annos, l.id));
      var c := if '_' in t then ToEms(t, us).0 else t;
      var (r, _, lem') := PrepLine(l, annos, us, lem);
      '_' !in r.line
      && (Opened(c) ==> r.line == c + "</em>" && lem')
      && (Closed(c) ==> r.line == "<em>" + c && !lem')
      && (!Opened(c) && !Closed(c) ==> lem' == lem && r.line == (if lem then "<em>" + c + "</em>" else c))
  {
    var t := WithMarkers(l.line, AnnosOf(annos, l.id));
    ToEmsNoUnderscore(t, us);
  }

  /** The loop over a line's annotations. */
  method AddMarkers(line: string, list: seq<Anno>) returns (text: string)
    ensures text == WithMarkers(line, list)
  {
    text := line;
    var k := 0;
    while k < |list|
      invariant 0 <= k <= |list|
      invariant WithMarkers(text, list[k..]) == WithMarkers(line, list)
    {
      assert list[k..][1..] == list[k + 1..];
      text := WithMarker(text, list[k]);
      k := k + 1;
    }
  }

  /** The body of the `preplines` loop for one line. */
  method PrepOne(l: PLine, annos: map<int, seq<Anno>>, us: bool, lem: bool) returns (r: PLine, us': bool, lem': bool)
    ensures (r, us', lem') == PrepLine(l, annos, us, lem)
  {
    var text := l.line;
    if l.id in annos {
      text := AddMarkers(text, annos[l.id]);
    } else {
      assert AnnosOf(annos, l.id) == [];
    }
    us', lem' := us, lem;
    if '_' in text {
      text, us' := UnderscoresToTags(text, us);
    }
    if Opened(text) {
      text := text + "</em>";
      lem' := true;
    } else if Closed(text) {
      text := "<em>" + text;
      lem' := false;
    } else if lem {
      text := "<em>" + text + "</em>";
    }
    r := PLine(l.id, text);
  }

  /** `preplines(lines, annos)`, rewriting each line object's text in place. */
  method Preplines(lines: array<PLine>, annos: map<int, seq<Anno>>)
    modifies lines
    ensures lines[..] == Prepped(old(lines[..]), annos).0
  {
    ghost var orig := lines[..];
    var us, lem := false, false;
    var i := 0;
    while i < lines.Length
      invariant 0 <= i <= lines.Length
      invariant (lines[..i], us, lem) == Prepped(orig[..i], annos)
      invariant lines[i..] == orig[i..]
    {
      PreppedStep(orig, i, annos);
      assert lines[i + 1..] == orig[i + 1..] by {
        assert lines[i..][1..] == lines[i + 1..] && orig[i..][1..] == orig[i + 1..];
      }
      ghost var done := lines[..i];
      var r;
      r, us, lem := PrepOne(lines[i], annos, us, lem);
      lines[i] := r;
      assert lines[..i + 1] == done + [r];
      i := i + 1;
    }
    assert orig[..i] == orig;
  }

  /** One more line extends the prepped prefix by that line, prepped from
   *  the state the prefix leaves. */
  lemma PreppedStep(ls: seq<PLine>, i: nat, annos: map<int, seq<Anno>>)
    requires i < |ls|
    ensures var (done, us, lem) := Prepped(ls[..i], annos);
      var (l, us', lem') := PrepLine(ls[i], annos, us, lem);
      Prepped(ls[..i + 1], annos) == (done + [l], us', lem')
  {
    assert ls[..i + 1][..i] == ls[..i];
  }
}
