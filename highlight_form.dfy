/**
 * The older annotate form of the reading page: on every mouse event over
 * the text, the selection's anchor is written into the four hidden fields of
 * the line form, which is then shown; with nothing selected the form is
 * hidden.
 */
module HighlightForm {
  import opened Wrappers
  import opened DomUtils
  import opened Highlight

  /** `node.parentNode.parentNode.id`: a missing parent throws. */
  function GrandparentId(n: Node): Result<string>
  {
    if |n.chain| >= 3 then Ok(n.chain[2]) else Err(TypeError)
  }

  /** What `select` does to the form: hide it, fill it, or throw before
   *  writing anything. */
  datatype Effect = Hide | Fill(anchor: Anchor) | Throw(error: Failure)

  function SelectEffect(sel: Selection): Effect
  {
    if sel.text == "" then Hide
    else if sel.ranges == [] then Throw(TypeError)
    else
      var firstl := GrandparentId(sel.ranges[0].startContainer);
      var lastl := GrandparentId(sel.ranges[|sel.ranges| - 1].endContainer);
      if firstl.Err? then Throw(firstl.error)
      else if lastl.Err? then Throw(lastl.error)
      else Fill(Anchor(firstl.value, lastl.value, sel.ranges[0].startOffset,
                       sel.ranges[|sel.ranges| - 1].endOffset))
  }

  /** The anchor `select` writes is the one `procSel` takes, with the line
   *  containers' grandparent ids as line ids. */
  lemma SelectAgreesWithProcSel(sel: Selection)
    requires sel.text != ""
    requires forall i :: 0 <= i < |sel.ranges| ==>
      |sel.ranges[i].startContainer.chain| >= 3 && |sel.ranges[i].endContainer.chain| >= 3
    ensures sel.ranges != [] ==>
      AnchorOf(sel.ranges, (n: Node) => if |n.chain| >= 3 then n.chain[2] else "") == Ok(SelectEffect(sel).anchor)
    ensures sel.ranges == [] <==> SelectEffect(sel).Throw?
  {
  }

  /** The line form: its four fields and its `style.display`. */
  class LineForm {
    var firstLine: string
    var lastLine: string
    var firstChar: int
    var lastChar: int
    var display: string

    /** `select`, bound to mousedown, mouseup and dblclick on the text. */
    method Select(sel: Selection) returns (outcome: Effect)
      modifies this
      ensures outcome == SelectEffect(sel)
      ensures outcome.Hide? ==> display == "" && firstLine == old(firstLine) && lastLine == old(lastLine)
                                && firstChar == old(firstChar) && lastChar == old(lastChar)
      ensures outcome.Throw? ==> unchanged(this)
      ensures outcome.Fill? ==> firstLine == outcome.anchor.fl && lastLine == outcome.anchor.ll
                                && firstChar == outcome.anchor.fc && lastChar == outcome.anchor.lc
                                && display == "block"
    {
      if sel.text == "" {
        // nothing is highlighted
        display := "";
        return Hide;
      }
      var ranges := CollectRanges(sel);
      if |ranges| == 0 {
        return Throw(TypeError);
      }
      var firstl := GrandparentId(ranges[0].startContainer);
      if firstl.Err? {
        return Throw(firstl.error);
      }
      var lastl := GrandparentId(ranges[|ranges| - 1].endContainer);
      if lastl.Err? {
        return Throw(lastl.error);
      }
      // the offsets are inclusive and exclusive
      var firstc := ranges[0].startOffset;
      var lastc := ranges[|ranges| - 1].endOffset;
      firstLine := firstl.value;
      lastLine := lastl.value;
      firstChar := firstc;
      lastChar := lastc;
      display := "block";
      outcome := Fill(Anchor(firstl.value, lastl.value, firstc, lastc));
    }
  }
}
