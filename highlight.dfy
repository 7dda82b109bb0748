/**
 * The annotate button of the reading page: it appears while text is
 * selected, and on click turns the browser selection into the anchor of a
 * new annotation (first and last line, first and last character) and
 * navigates to the annotate URL built from it.
 *
 * A DOM node is modelled by the ids of itself and of its ancestors, nearest
 * first ("" for a node without an id); a selection by its text and its
 * ranges. `parentNumID`, which maps a container node to the number id of
 * its line, is a parameter.
 */
module Highlight {
  import opened Wrappers
  import opened Strings
  import opened DomUtils

  datatype Range = Range(startContainer: Node, startOffset: int, endContainer: Node, endOffset: int)

  /** `sel.toString()` and `sel.getRangeAt(i)` for `i < sel.rangeCount`. */
  datatype Selection = Selection(text: string, ranges: seq<Range>)

  /** The four values that locate a highlight. */
  datatype Anchor = Anchor(fl: string, ll: string, fc: int, lc: int)

  /** `showBtn`: the button's `style.display` after the timer tick. */
  function ShowBtn(sel: Selection): (display: string)
    ensures display == "" <==> sel.text == ""
    ensures display == "" || display == "block"
  {
    if sel.text == "" then "" else "block"
  }

  /** The anchor of a list of ranges: the first range's start and the last
   *  range's end. With no range, `ranges[0]` is `undefined` and reading its
   *  `startContainer` throws. */
  function AnchorOf(ranges: seq<Range>, parentNumID: Node -> string): Result<Anchor>
  {
    if ranges == [] then Err(TypeError)
    else
      var first, last := ranges[0], ranges[|ranges| - 1];
      Ok(Anchor(parentNumID(first.startContainer), parentNumID(last.endContainer),
                first.startOffset, last.endOffset))
  }

  /** The ranges between the first and the last play no part in the anchor. */
  lemma AnchorIgnoresMiddle(ranges: seq<Range>, middle: seq<Range>, parentNumID: Node -> string)
    requires |ranges| >= 2
    ensures AnchorOf(ranges, parentNumID)
         == AnchorOf([ranges[0]] + middle + [ranges[|ranges| - 1]], parentNumID)
  {
  }

  /** With a single range both ends of the anchor come from that range. */
  lemma AnchorOfOneRange(r: Range, parentNumID: Node -> string)
    ensures AnchorOf([r], parentNumID)
         == Ok(Anchor(parentNumID(r.startContainer), parentNumID(r.endContainer), r.startOffset, r.endOffset))
  {
  }

  /** `for (i = 0; i < sel.rangeCount; i++) ranges[i] = sel.getRangeAt(i)`. */
  method CollectRanges(sel: Selection) returns (ranges: seq<Range>)
    ensures ranges == sel.ranges
  {
    ranges := [];
    var i := 0;
    while i < |sel.ranges|
      invariant 0 <= i <= |sel.ranges|
      invariant ranges == sel.ranges[..i]
    {
      ranges := ranges + [sel.ranges[i]];
      i := i + 1;
    }
  }

  /** `procSel`: collects the ranges in index order, then takes the anchor. */
  method ProcSel(sel: Selection, parentNumID: Node -> string) returns (anchor: Result<Anchor>)
    ensures anchor.Err? <==> sel.ranges == []
    ensures anchor == AnchorOf(sel.ranges, parentNumID)
  {
    var ranges := CollectRanges(sel);
    if |ranges| == 0 {
      return Err(TypeError);
    }
    var fl := parentNumID(ranges[0].startContainer);
    var ll := parentNumID(ranges[|ranges| - 1].endContainer);
    var fc := ranges[0].startOffset;
    var lc := ranges[|ranges| - 1].endOffset;
    anchor := Ok(Anchor(fl, ll, fc, lc));
  }

  /** The URL `submit` navigates to: the template-rendered prefix
   *  `/annotate/<text>/edition/<n>/<toc>/` joined with `fl`, `/`, `ll`,
   *  `?fc=`, `fc`, `&lc=`, `lc`; `text` is the text's url name. */
  function SubmitUrl(text: string, edition: int, toc: int, a: Anchor): string
  {
    "/annotate/" + (text + ("/edition/" + (ShowInt(edition) + ("/" + (ShowInt(toc) + ("/" +
      (a.fl + ("/" + (a.ll + ("?fc=" + (ShowInt(a.fc) + ("&lc=" + ShowInt(a.lc)))))))))))))
  }

  /** The parts of an annotate URL: text, edition, toc, first line, last
   *  line, and the `fc` and `lc` query values. */
  datatype UrlParts = UrlParts(text: string, edition: string, toc: string,
                               fl: string, ll: string, fc: string, lc: string)

  /** Reading back the URL `submit` builds,
   *  `/annotate/<text>/edition/<n>/<toc>/<first>/<last>?fc=..&lc=..`. The
   *  `<toc>` segment is the script's own: the annotate routes of
   *  icc/main/annotations.py:42-45 take no such segment, so no route matches
   *  this URL. */
  function ParseAnnotateUrl(url: string): Option<UrlParts>
  {
    if !StartsWith(url, "/annotate/") then None
    else match SplitFirst(url[10..], '/')
      case None => None
      case Some((text, r1)) =>
        if !StartsWith(r1, "edition/") then None
        else match SplitFirst(r1[8..], '/')
          case None => None
          case Some((ed, r2)) => match SplitFirst(r2, '/')
            case None => None
            case Some((toc, r3)) => match ParseAnchorPart(r3)
              case None => None
              case Some((fl, ll, fc, lc)) => Some(UrlParts(text, ed, toc, fl, ll, fc, lc))
  }

  /** `<first>/<last>?fc=..&lc=..` */
  function ParseAnchorPart(r3: string): Option<(string, string, string, string)>
  {
    match SplitFirst(r3, '/')
    case None => None
    case Some((fl, r4)) => match SplitFirst(r4, '?')
      case None => None
      case Some((ll, r5)) =>
        if !StartsWith(r5, "fc=") then None
        else match SplitFirst(r5[3..], '&')
          case None => None
          case Some((fc, r6)) =>
            if !StartsWith(r6, "lc=") then None
            else Some((fl, ll, fc, r6[3..]))
  }

  lemma AnchorPartParses(fl: string, ll: string, fc: string, lc: string)
    requires '/' !in fl && '?' !in ll && '&' !in fc
    ensures ParseAnchorPart(fl + ("/" + (ll + ("?" + ("fc=" + (fc + ("&" + ("lc=" + lc))))))))
         == Some((fl, ll, fc, lc))
  {
    var r6 := "lc=" + lc;
    var r5 := "fc=" + (fc + ("&" + r6));
    var r4 := ll + ("?" + r5);
    SplitFirstJoin(fl, '/', r4);
    SplitFirstJoin(ll, '?', r5);
    DropPrefix("fc=", fc + ("&" + r6));
    SplitFirstJoin(fc, '&', r6);
    DropPrefix("lc=", lc);
  }

  lemma ShowIntNoSeparator(n: int, c: char)
    requires c in {'/', '?', '&'}
    ensures c !in ShowInt(n)
  {
    ShowIntChars(n);
  }

  /** The URL `submit` builds is read back into exactly the values it was
   *  built from, as long as the text name and the two line ids hold no
   *  URL separator. */
  lemma SubmitUrlParses(text: string, edition: int, toc: int, a: Anchor)
    requires '/' !in text && '/' !in a.fl && '?' !in a.ll
    ensures ParseAnnotateUrl(SubmitUrl(text, edition, toc, a))
         == Some(UrlParts(text, ShowInt(edition), ShowInt(toc), a.fl, a.ll, ShowInt(a.fc), ShowInt(a.lc)))
  {
    var ed, tc := ShowInt(edition), ShowInt(toc);
    var r3 := a.fl + ("/" + (a.ll + ("?fc=" + (ShowInt(a.fc) + ("&lc=" + ShowInt(a.lc))))));
    AnchorQueryParses(a);
    ShowIntNoSeparator(edition, '/');
    ShowIntNoSeparator(toc, '/');
    var r1 := "edition/" + (ed + ("/" + (tc + ("/" + r3))));
    MiddleParses(ed, tc, r3);
    var url := SubmitUrl(text, edition, toc, a);
    assert url == "/annotate/" + (text + ("/edition/" + (ed + ("/" + (tc + ("/" + r3))))));
    EditionSegment(ed + ("/" + (tc + ("/" + r3))));
    DropPrefix("/annotate/", text + ("/" + r1));
    SplitFirstJoin(text, '/', r1);
    assert StartsWith(url, "/annotate/") && url[10..] == text + ("/" + r1);
    assert SplitFirst(url[10..], '/') == Some((text, r1));
  }

  lemma EditionSegment(x: string)
    ensures "/edition/" + x == "/" + ("edition/" + x)
  {
    ConcatAssoc("/", "edition/", x);
    assert "/" + "edition/" == "/edition/";
  }

  /** The part after the text name: `edition/<n>/<toc>/` and the anchor. */
  lemma MiddleParses(ed: string, tc: string, r3: string)
    requires '/' !in ed && '/' !in tc
    ensures var r2 := tc + ("/" + r3);
      var r1 := "edition/" + (ed + ("/" + r2));
      && StartsWith(r1, "edition/") && r1[8..] == ed + ("/" + r2)
      && SplitFirst(r1[8..], '/') == Some((ed, r2))
      && SplitFirst(r2, '/') == Some((tc, r3))
  {
    var r2 := tc + ("/" + r3);
    DropPrefix("edition/", ed + ("/" + r2));
    SplitFirstJoin(ed, '/', r2);
    SplitFirstJoin(tc, '/', r3);
  }

  /** The anchor part `submit` writes reads back into its four values. */
  lemma AnchorQueryParses(a: Anchor)
    requires '/' !in a.fl && '?' !in a.ll
    ensures ParseAnchorPart(a.fl + ("/" + (a.ll + ("?fc=" + (ShowInt(a.fc) + ("&lc=" + ShowInt(a.lc)))))))
         == Some((a.fl, a.ll, ShowInt(a.fc), ShowInt(a.lc)))
  {
    var fc, lc := ShowInt(a.fc), ShowInt(a.lc);
    ShowIntNoSeparator(a.fc, '&');
    var q := fc + ("&lc=" + lc);
    ConcatAssoc("&", "lc=", lc);
    ConcatAssoc("?", "fc=", q);
    assert "?" + "fc=" == "?fc=" && "&" + "lc=" == "&lc=";
    assert "?fc=" + q == "?" + ("fc=" + (fc + ("&" + ("lc=" + lc))));
    AnchorPartParses(a.fl, a.ll, fc, lc);
  }
}
