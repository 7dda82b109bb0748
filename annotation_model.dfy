/**
 * Annotations and their edits in the model package.
 *
 * An edit targets a range of lines (`first_line_num` .. `last_line_num`,
 * put in order when the edit is built) and character offsets, and holds a
 * body and tags. Two edits are different versions exactly when these six
 * fields differ: the content hash is taken over them, and it is modelled
 * as the equality of the fields. An annotation keeps the history of its
 * edits; its first edit is number 0, approved and current.
 *
 * Python's dynamic type checks are modelled over `PyValue`, the values a
 * caller may pass.
 */
module AnnotationModel {
  import opened Wrappers
  import opened Strings
  import opened EditHistory

  datatype PyValue = PyNone | PyInt(i: int) | PyStr(s: string) | PyList(items: seq<PyValue>)
                   | PyTuple(items: seq<PyValue>) | PyTag(name: string) | PyObject

  // ---- tag queries --------------------------------------------------------

  /** The argument check of `Tag.intersect` and `Tag.union`: a tuple of strings. */
  function TagNames(tags: PyValue): (r: Result<seq<string>>)
    ensures r.Ok? <==> tags.PyTuple? && forall k :: 0 <= k < |tags.items| ==> tags.items[k].PyStr?
    ensures r.Err? ==> r.error == TypeError
    ensures r.Ok? ==> |r.value| == |tags.items| && forall k :: 0 <= k < |r.value| ==> tags.items[k] == PyStr(r.value[k])
  {
    if !tags.PyTuple? then Err(TypeError)
    else if exists k :: 0 <= k < |tags.items| && !tags.items[k].PyStr? then Err(TypeError)
    else Ok(seq(|tags.items|, k requires 0 <= k < |tags.items| => tags.items[k].s))
  }

  /** The annotations carrying every one of the (known, non-empty) tags. */
  function Meet(names: seq<string>, tagged: map<string, set<nat>>): (r: set<nat>)
    requires names != [] && forall k :: 0 <= k < |names| ==> names[k] in tagged
    ensures forall x :: x in r <==> forall k :: 0 <= k < |names| ==> x in tagged[names[k]]
  {
    var n := names[|names| - 1];
    if |names| == 1 then tagged[n]
    else
      var r := Meet(names[..|names| - 1], tagged) * tagged[n];
      assert forall x :: x in r <==> forall k :: 0 <= k < |names| ==> x in tagged[names[k]] by {
        forall x ensures x in r <==> forall k :: 0 <= k < |names| ==> x in tagged[names[k]] {
          if forall k :: 0 <= k < |names| ==> x in tagged[names[k]] {
            assert forall k :: 0 <= k < |names| - 1 ==> names[..|names| - 1][k] == names[k];
          }
        }
      }
      r
  }

  /** The annotations carrying any one of the tags. */
  function Join(names: seq<string>, tagged: map<string, set<nat>>): (r: set<nat>)
    requires forall k :: 0 <= k < |names| ==> names[k] in tagged
    ensures forall x :: x in r <==> exists k :: 0 <= k < |names| && x in tagged[names[k]]
  {
    if names == [] then {}
    else
      var front := names[..|names| - 1];
      var r := Join(front, tagged) + tagged[names[|names| - 1]];
      assert forall x :: x in r <==> exists k :: 0 <= k < |names| && x in tagged[names[k]] by {
        forall x ensures x in r <==> exists k :: 0 <= k < |names| && x in tagged[names[k]] {
          if x in Join(front, tagged) {
            var k :| 0 <= k < |front| && x in tagged[front[k]];
            assert names[k] == front[k];
          }
        }
      }
      r
  }

  /** `Tag.intersect(tags)`: a tag missing from the table makes `first()`
   *  `None`, whose `.annotations` raises `AttributeError`; an empty tuple
   *  raises `IndexError` at `queries[0]`. `tagged` maps each tag to its
   *  annotations. */
  function Intersect(tags: PyValue, tagged: map<string, set<nat>>): (r: Result<set<nat>>)
    ensures TagNames(tags).Err? ==> r == Err(TypeError)
    ensures r.Ok? ==> var names := TagNames(tags).value;
      names != [] && forall x :: x in r.value <==> forall k :: 0 <= k < |names| ==> names[k] in tagged && x in tagged[names[k]]
  {
    match TagNames(tags)
    case Err(e) => Err(e)
    case Ok(names) =>
      if exists k :: 0 <= k < |names| && names[k] !in tagged then Err(AttributeError)
      else if names == [] then Err(IndexError)
      else Ok(Meet(names, tagged))
  }

  /** `Tag.union(tags)`, with the same failures. */
  function Union(tags: PyValue, tagged: map<string, set<nat>>): (r: Result<set<nat>>)
    ensures TagNames(tags).Err? ==> r == Err(TypeError)
    ensures r.Ok? ==> var names := TagNames(tags).value;
      names != [] && forall x :: x in r.value <==> exists k :: 0 <= k < |names| && names[k] in tagged && x in tagged[names[k]]
  {
    match TagNames(tags)
    case Err(e) => Err(e)
    case Ok(names) =>
      if exists k :: 0 <= k < |names| && names[k] !in tagged then Err(AttributeError)
      else if names == [] then Err(IndexError)
      else Ok(Join(names, tagged))
  }

  /** The intersection lies inside the union, and both fail alike. */
  lemma IntersectWithinUnion(tags: PyValue, tagged: map<string, set<nat>>)
    ensures Intersect(tags, tagged).Ok? <==> Union(tags, tagged).Ok?
    ensures Intersect(tags, tagged).Ok? ==> Intersect(tags, tagged).value <= Union(tags, tagged).value
  {
  }

  // ---- edits ----------------------------------------------------------------

  /** The fields an edit's hash is taken over. */
  datatype Target = Target(fl: int, ll: int, fc: int, lc: int, body: string, tags: seq<string>)

  /** `Edit.__init__`: reversed line numbers are swapped; the character
   *  offsets are not. */
  function NewTarget(fl: int, ll: int, fc: int, lc: int, body: string, tags: seq<string>): (t: Target)
    ensures t.fl <= t.ll
    ensures multiset{t.fl, t.ll} == multiset{fl, ll}
    ensures t.fc == fc && t.lc == lc && t.body == body && t.tags == tags
    ensures fl <= ll ==> t.fl == fl && t.ll == ll
  {
    if fl > ll then Target(ll, fl, fc, lc, body, tags) else Target(fl, ll, fc, lc, body, tags)
  }

  /** The hash cannot tell an edit from one with its line numbers reversed. */
  lemma ReversedSameHash(fl: int, ll: int, fc: int, lc: int, body: string, tags: seq<string>)
    ensures NewTarget(fl, ll, fc, lc, body, tags) == NewTarget(ll, fl, fc, lc, body, tags)
  {
  }

  /** The argument checks of `Annotation.__init__` (`edit` is false) and
   *  `Annotation.edit` (`edit` is true), in their order: positional
   *  arguments, a `None` keyword argument, tags that are not a list, and
   *  (for `edit`) tags that are not all `Tag` objects each raise `TypeError`.
   *  `params` holds every keyword argument, the tags included. */
  function CheckArguments(positional: nat, params: seq<PyValue>, tags: PyValue, edit: bool): (r: Option<Failure>)
    ensures r.Some? ==> r.value == TypeError
    ensures r.None? <==> positional == 0 && PyNone !in params && tags.PyList?
                         && (edit ==> forall k :: 0 <= k < |tags.items| ==> tags.items[k].PyTag?)
  {
    if positional > 0 then Some(TypeError)
    else if PyNone in params then Some(TypeError)
    else if !tags.PyList? then Some(TypeError)
    else if edit && exists k :: 0 <= k < |tags.items| && !tags.items[k].PyTag? then Some(TypeError)
    else None
  }

  /** `Annotation.edit` on the history `s`: a proposal whose hash equals the
   *  head's changes nothing and reports `false`; otherwise it is added, and
   *  applied at once when the editor is the annotator or holds the
   *  immediate-edit right. */
  function Edited(s: seq<EditRow<Target>>, annotator: nat, editor: nat, authorized: bool, t: Target)
    : (seq<EditRow<Target>>, bool)
    requires HeadIndex(s).Some?
  {
    if t == s[HeadIndex(s).value].content then (s, false)
    else (Appended(s, t, editor == annotator || authorized), true)
  }

  /** The cases of `edit`: the duplicate is refused; a new version is
   *  numbered `HEAD.num + 1`; the annotator's or an authorised editor's
   *  version becomes the approved head, anyone else's stays pending and
   *  leaves the head in place. Exactly one edit stays current. */
  lemma EditCases(s: seq<EditRow<Target>>, annotator: nat, editor: nat, authorized: bool, t: Target)
    requires OneCurrent(s)
    ensures HeadIndex(s).Some?
    ensures var (r, changed) := Edited(s, annotator, editor, authorized, t);
      var h := HeadIndex(s).value;
      && OneCurrent(r)
      && (changed <==> t != s[h].content)
      && (!changed ==> r == s)
      && (changed ==> |r| == |s| + 1 && r[|s|].num == s[h].num + 1 && r[|s|].content == t)
      && (changed && (editor == annotator || authorized) ==> HeadIndex(r) == Some(|s|) && r[|s|].approved)
      && (changed && editor != annotator && !authorized ==> HeadIndex(r) == Some(h) && !r[|s|].approved)
  {
    AppendedShape(s, t, editor == annotator || authorized);
  }

  class Annotation {
    const annotator: nat
    const history: History<Target>

    predicate Valid()
      reads history
    {
      OneCurrent(history.edits)
    }

    /** `Annotation.__init__` after its argument checks: the first edit,
     *  number 0, approved and current. */
    constructor (annotator: nat, fl: int, ll: int, fc: int, lc: int, body: string, tags: seq<string>)
      ensures Valid() && this.annotator == annotator
      ensures history.edits == [EditRow(0, true, true, false, NewTarget(fl, ll, fc, lc, body, tags))]
    {
      this.annotator := annotator;
      history := new History(0, NewTarget(fl, ll, fc, lc, body, tags));
    }

    /** `edit(...)` after its argument checks. */
    method Edit(editor: nat, authorized: bool, fl: int, ll: int, fc: int, lc: int, body: string, tags: seq<string>)
      returns (changed: bool)
      requires Valid()
      modifies history
      ensures (history.edits, changed) == Edited(old(history.edits), annotator, editor, authorized,
                                                 NewTarget(fl, ll, fc, lc, body, tags))
      ensures Valid()
    {
      var t := NewTarget(fl, ll, fc, lc, body, tags);
      var h := HeadIndex(history.edits).value;
      if t == history.edits[h].content {
        return false;
      }
      history.Add(t, editor == annotator || authorized);
      EditCases(old(history.edits), annotator, editor, authorized, t);
      return true;
    }
  }

  // ---- the highlighted text ---------------------------------------------------

  /** `get_hl` on the texts of the edit's lines: a one-line edit keeps
   *  `[fc:lc]` of its line; otherwise the first line keeps `[fc:]` and the
   *  last `[:lc]`. No lines raise `IndexError`. */
  function Highlighted(lines: seq<string>, t: Target): (r: Result<seq<string>>)
    ensures r.Err? <==> lines == []
    ensures r.Ok? ==> |r.value| == |lines| && forall i :: 0 < i < |lines| - 1 ==> r.value[i] == lines[i]
  {
    if lines == [] then Err(IndexError)
    else if t.fl == t.ll then Ok(lines[0 := Slice(lines[0], t.fc, t.lc)])
    else
      var first := lines[0 := SliceFrom(lines[0], t.fc)];
      Ok(first[|first| - 1 := SliceTo(first[|first| - 1], t.lc)])
  }

  /** With offsets inside the lines, the one-line highlight is the text
   *  between them, and the two ends of a longer one are the first line
   *  from `fc` on and the last line up to `lc`. */
  lemma HighlightedText(lines: seq<string>, t: Target)
    requires lines != []
    requires 0 <= t.fc <= |lines[0]| && 0 <= t.lc <= |lines[|lines| - 1]|
    ensures t.fl == t.ll && t.fc <= t.lc <= |lines[0]| ==> Highlighted(lines, t).value[0] == lines[0][t.fc..t.lc]
    ensures t.fl != t.ll && |lines| > 1 ==>
      Highlighted(lines, t).value[0] == lines[0][t.fc..]
      && Highlighted(lines, t).value[|lines| - 1] == lines[|lines| - 1][..t.lc]
  {
  }

  /** `get_hl`, overwriting the line texts in place. */
  method GetHl(lines: array<string>, t: Target) returns (failure: Option<Failure>)
    modifies lines
    ensures var r := Highlighted(old(lines[..]), t);
      if r.Ok? then failure.None? && lines[..] == r.value else failure == Some(IndexError) && lines[..] == old(lines[..])
  {
    if lines.Length == 0 {
      return Some(IndexError);
    }
    if t.fl == t.ll {
      lines[0] := Slice(lines[0], t.fc, t.lc);
    } else {
      lines[0] := SliceFrom(lines[0], t.fc);
      lines[lines.Length - 1] := SliceTo(lines[lines.Length - 1], t.lc);
    }
    return None;
  }
}
