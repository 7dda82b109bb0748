/**
 * The annotation overlay of the reading page. Clicking an annotation marker
 * in the text clones the annotation's template, turns its collapse controls
 * into close buttons, empties its body except the footnote, and inserts the
 * clone right after the line that holds the marker; the close button
 * removes the clone again.
 *
 * The children of the `text-content` container are modelled as a sequence
 * of blocks (line blocks and inserted clones); the annotation templates the
 * page renders elsewhere as a map from their ids.
 */
module AnnotationDisplay {
  import opened Wrappers
  import opened Strings
  import opened DomUtils

  /** A `.collapse` control of an annotation. */
  datatype Collapse = Collapse(html: string, onclick: string)

  /** A child node of the annotation's `.center` element: an element with
   *  its `className` and `innerHTML`, or a text (or comment) node, whose
   *  `className` is `undefined` and on which assigning `innerHTML` only
   *  adds an ordinary property that the page never shows. */
  datatype Part = ElementPart(className: string, html: string) | TextPart(text: string)

  /** An annotation element: its id, its collapse controls in document
   *  order, and the children of its first `.center` element (`None` when it
   *  has none). */
  datatype Annot = Annot(id: string, collapses: seq<Collapse>, center: Option<seq<Part>>)

  datatype Block = LineBlock(lineId: string) | AnnotBlock(annot: Annot)

  function BlockId(b: Block): string
  {
    match b
    case LineBlock(id) => id
    case AnnotBlock(a) => a.id
  }

  /** The page: the blocks of `text-content` and the annotation templates. */
  datatype Document = Document(content: seq<Block>, templates: map<string, Annot>)

  /** Where the marker's `parentNode.parentNode` is: the `index`-th block of
   *  `text-content`, or a node outside it, with or without a next sibling. */
  datatype Spot = InContent(index: nat) | Outside(hasNextSibling: bool)

  /** The first block with the given id. */
  function FindId(content: seq<Block>, id: string): (r: Option<nat>)
    ensures r.None? <==> forall i :: 0 <= i < |content| ==> BlockId(content[i]) != id
    ensures r.Some? ==> r.value < |content| && BlockId(content[r.value]) == id
    ensures r.Some? ==> forall j :: 0 <= j < r.value ==> BlockId(content[j]) != id
  {
    if content == [] then None
    else if BlockId(content[0]) == id then Some(0)
    else match FindId(content[1..], id)
      case None => None
      case Some(k) => Some(k + 1)
  }

  /** Every template carries the id it is found by. */
  predicate Keyed(d: Document)
  {
    forall id :: id in d.templates ==> d.templates[id].id == id
  }

  /** `document.getElementById(id)` is not `null`. */
  predicate Exists(d: Document, id: string)
  {
    FindId(d.content, id).Some? || id in d.templates
  }

  /** The id of the annotation a marker such as `[3]` belongs to. */
  function AnnotationId(marker: string): (aid: string)
    ensures |aid| > 0 && aid[0] == 'a'
    ensures forall i :: 1 <= i < |aid| ==> aid[i] != '[' && aid[i] != ']'
  {
    "a" + RemoveChars(marker, {'[', ']'})
  }

  /** The close button every collapse control of a clone becomes. */
  const KillButton := Collapse("&times;", "kill_annotation(this);")

  /** One child of `.center` after the blast: an element keeps its class
   *  and keeps its content only when it is the footnote; a text node
   *  passes the class test but keeps its text. */
  function Blasted(p: Part): (r: Part)
    ensures r.ElementPart? <==> p.ElementPart?
    ensures p.TextPart? ==> r == p
    ensures p.ElementPart? ==> r.className == p.className
                               && r.html == (if p.className == "footnote" then p.html else "")
  {
    match p
    case ElementPart(cl, _) => if cl != "footnote" then ElementPart(cl, "") else p
    case TextPart(_) => p
  }

  /** The clone `show_annotation` inserts; without a `.center` element,
   *  `center.childNodes` throws. */
  function Prepared(a: Annot): (r: Result<Annot>)
    ensures r.Err? <==> a.center.None?
    ensures r.Ok? ==> r.value.id == a.id + "-js"
    ensures r.Ok? ==> |r.value.collapses| == |a.collapses|
                      && forall i :: 0 <= i < |a.collapses| ==> r.value.collapses[i] == KillButton
    ensures r.Ok? ==> r.value.center.Some? && |r.value.center.value| == |a.center.value|
    ensures r.Ok? ==> forall i :: 0 <= i < |a.center.value| ==>
      var p, q := a.center.value[i], r.value.center.value[i];
      (p.TextPart? ==> q == p) &&
      (p.ElementPart? && p.className == "footnote" ==> q == p) &&
      (p.ElementPart? && p.className != "footnote" ==> q == ElementPart(p.className, ""))
  {
    match a.center
    case None => Err(TypeError)
    case Some(parts) =>
      Ok(Annot(a.id + "-js", KillButtons(|a.collapses|), Some(BlastAll(parts))))
  }

  function KillButtons(n: nat): (r: seq<Collapse>)
    ensures |r| == n && forall i :: 0 <= i < n ==> r[i] == KillButton
  {
    seq(n, _ => KillButton)
  }

  function BlastAll(parts: seq<Part>): (r: seq<Part>)
    ensures |r| == |parts| && forall i :: 0 <= i < |parts| ==> r[i] == Blasted(parts[i])
  {
    seq(|parts|, i requires 0 <= i < |parts| => Blasted(parts[i]))
  }

  /** `show_annotation(x)` for a marker text and the place of the marker's
   *  line, as an outcome and the new document. `getElementById(aid)` is
   *  looked up among the templates: the blocks of `text-content` are taken
   *  to carry no id of the form `a<n>`. */
  function Shown(d: Document, marker: string, spot: Spot): (Outcome, Document)
    requires spot.InContent? ==> spot.index < |d.content|
  {
    var aid := AnnotationId(marker);
    if Exists(d, aid + "-js") then (Ignored, d)
    else if aid !in d.templates then (Threw(TypeError), d)   // `null.cloneNode`
    else match Prepared(d.templates[aid])
      case Err(e) => (Threw(e), d)
      case Ok(clone) =>
        match spot
        case InContent(i) =>
          (Applied, Document(d.content[..i + 1] + [AnnotBlock(clone)] + d.content[i + 1..], d.templates))
        case Outside(hasNext) =>
          // `insertBefore(node, null)` appends; a foreign reference node throws
          if hasNext then (Threw(DomNotFound), d)
          else (Applied, Document(d.content + [AnnotBlock(clone)], d.templates))
  }

  /** `kill_annotation(x)` for a control of the `j`-th block: the nearest
   *  `a<digits>` ancestor is the block itself, which is removed; without such
   *  an id the walk runs off the document and throws. */
  function Killed(d: Document, j: nat): (Outcome, Document)
    requires j < |d.content|
  {
    if IdMatches(BlockId(d.content[j]), "a") then
      (Applied, Document(d.content[..j] + d.content[j + 1..], d.templates))
    else (Threw(TypeError), d)
  }

  /** A successful `show_annotation` inserts exactly one block, the clone,
   *  right after the marker's line, and changes nothing else. */
  lemma ShownInsertsClone(d: Document, marker: string, i: nat)
    requires Keyed(d) && i < |d.content|
    requires Shown(d, marker, InContent(i)).0 == Applied
    ensures var d' := Shown(d, marker, InContent(i)).1;
      var aid := AnnotationId(marker);
      |d'.content| == |d.content| + 1 && d'.templates == d.templates
      && d'.content[..i + 1] == d.content[..i + 1] && d'.content[i + 2..] == d.content[i + 1..]
      && d'.content[i + 1] == AnnotBlock(Prepared(d.templates[aid]).value)
      && BlockId(d'.content[i + 1]) == aid + "-js"
  {
    var d' := Shown(d, marker, InContent(i)).1;
    assert d'.content[i + 2..] == d.content[i + 1..];
  }

  /** Showing the same annotation again changes nothing: the clone's id now exists. */
  lemma ShowIdempotent(d: Document, marker: string, spot: Spot, spot': Spot)
    requires Keyed(d)
    requires spot.InContent? ==> spot.index < |d.content|
    requires Shown(d, marker, spot).0 == Applied
    requires spot'.InContent? ==> spot'.index < |Shown(d, marker, spot).1.content|
    ensures var d' := Shown(d, marker, spot).1; Shown(d', marker, spot') == (Ignored, d')
  {
    var aid := AnnotationId(marker);
    var d' := Shown(d, marker, spot).1;
    var k := if spot.InContent? then spot.index + 1 else |d.content|;
    assert BlockId(d'.content[k]) == aid + "-js";
    assert Exists(d', aid + "-js");
  }

  /** Closing the clone that was just shown restores the page, as long as
   *  the marker's number makes the clone's id an `a<digits>` id. */
  lemma ShowThenKill(d: Document, marker: string, i: nat)
    requires Keyed(d) && i < |d.content|
    requires Shown(d, marker, InContent(i)).0 == Applied
    requires var m := RemoveChars(marker, {'[', ']'}); |m| > 0 && IsDigit(m[0])
    ensures Killed(Shown(d, marker, InContent(i)).1, i + 1) == (Applied, d)
  {
    var d' := Shown(d, marker, InContent(i)).1;
    ShownInsertsClone(d, marker, i);
    CloneIdMatches(marker);
    KillInserted(d, d', i);
  }

  /** The clone's id starts with `a` and a digit when the marker's number does. */
  lemma CloneIdMatches(marker: string)
    requires var m := RemoveChars(marker, {'[', ']'}); |m| > 0 && IsDigit(m[0])
    ensures IdMatches(AnnotationId(marker) + "-js", "a")
  {
    var m := RemoveChars(marker, {'[', ']'});
    var id := AnnotationId(marker) + "-js";
    assert id == "a" + (m + "-js");
    assert id[..1] == "a" && id[1] == m[0];
  }

  /** Removing the block that was inserted after block `i` gives the page back. */
  lemma KillInserted(d: Document, d': Document, i: nat)
    requires i < |d.content| && |d'.content| == |d.content| + 1 && d'.templates == d.templates
    requires d'.content[..i + 1] == d.content[..i + 1] && d'.content[i + 2..] == d.content[i + 1..]
    requires IdMatches(BlockId(d'.content[i + 1]), "a")
    ensures Killed(d', i + 1) == (Applied, d)
  {
    var rest := d'.content[..i + 1] + d'.content[i + 2..];
    assert rest == d.content[..i + 1] + d.content[i + 1..];
    assert rest == d.content;
  }

  /** A missing template or an existing clone never changes the page. */
  lemma ShownFailsCleanly(d: Document, marker: string, spot: Spot)
    requires spot.InContent? ==> spot.index < |d.content|
    ensures Shown(d, marker, spot).0 != Applied ==> Shown(d, marker, spot).1 == d
    ensures Shown(d, marker, spot).0 == Ignored <==> Exists(d, AnnotationId(marker) + "-js")
  {
  }

  /** Builds the clone with the two loops of `show_annotation`, on a copy of
   *  the template. */
  method PrepareClone(a: Annot) returns (r: Result<Annot>)
    ensures r == Prepared(a)
  {
    var collapses := a.collapses;
    var i := 0;
    while i < |collapses|
      invariant 0 <= i <= |collapses| == |a.collapses|
      invariant forall k :: 0 <= k < i ==> collapses[k] == KillButton
      invariant collapses[i..] == a.collapses[i..]
    {
      collapses := collapses[i := KillButton];
      i := i + 1;
    }
    if a.center.None? {
      return Err(TypeError);
    }
    var parts := a.center.value;
    var j := 0;
    while j < |parts|
      invariant 0 <= j <= |parts| == |a.center.value|
      invariant forall k :: 0 <= k < j ==> parts[k] == Blasted(a.center.value[k])
      invariant parts[j..] == a.center.value[j..]
    {
      if parts[j].ElementPart? && parts[j].className != "footnote" {
        parts := parts[j := ElementPart(parts[j].className, "")];
      }
      j := j + 1;
    }
    assert collapses == KillButtons(|a.collapses|);
    assert parts == BlastAll(a.center.value);
    r := Ok(Annot(a.id + "-js", collapses, Some(parts)));
  }

  /** The page, whose `text-content` children the two handlers update. */
  class Page {
    var content: seq<Block>
    var templates: map<string, Annot>

    function Doc(): Document
      reads this
    {
      Document(content, templates)
    }

    constructor(blocks: seq<Block>, annotations: map<string, Annot>)
      ensures Doc() == Document(blocks, annotations)
    {
      content := blocks;
      templates := annotations;
    }

    /** `show_annotation(x)`. */
    method ShowAnnotation(marker: string, spot: Spot) returns (outcome: Outcome)
      requires spot.InContent? ==> spot.index < |content|
      modifies this
      ensures (outcome, Doc()) == Shown(old(Doc()), marker, spot)
    {
      var aid := "a" + RemoveChars(marker, {'[', ']'});
      if FindId(content, aid + "-js").Some? || aid + "-js" in templates {
        return Ignored;
      }
      if aid !in templates {
        return Threw(TypeError);
      }
      var clone := PrepareClone(templates[aid]);
      if clone.Err? {
        return Threw(clone.error);
      }
      match spot {
        case InContent(i) =>
          content := content[..i + 1] + [AnnotBlock(clone.value)] + content[i + 1..];
        case Outside(hasNext) =>
          if hasNext {
            return Threw(DomNotFound);
          }
          content := content + [AnnotBlock(clone.value)];
      }
      outcome := Applied;
    }

    /** `kill_annotation(x)` for a control inside the `j`-th block. */
    method KillAnnotation(j: nat) returns (outcome: Outcome)
      requires j < |content|
      modifies this
      ensures (outcome, Doc()) == Killed(old(Doc()), j)
    {
      if !IdMatches(BlockId(content[j]), "a") {
        return Threw(TypeError);
      }
      content := content[..j] + content[j + 1..];
      outcome := Applied;
    }
  }
}
