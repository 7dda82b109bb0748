/**
 * The annotation routes of the main blueprint: the tag field of the
 * annotation form, the line range of the annotate page and of the submitted
 * form, and the depth of a reply.
 *
 * Tags are looked up by name in the tag table (`known`); the found tags are
 * named by their names.
 */
module AnnotationRoutes {
  import opened Wrappers
  import opened Strings
  import Funky

  /** `process_tags(tagstring)`: `allgood` fails on an unknown name or on
   *  more than five found tags; the found tags are returned either way, in
   *  input order and with repeats (a name given twice is found twice). */
  function ProcessedTags(tagstring: string, known: set<string>): (seq<string>, bool)
  {
    var raw := Words(tagstring);
    var tags := KeepIn(raw, known);
    (tags, (forall k :: 0 <= k < |raw| ==> raw[k] in known) && |tags| <= 5)
  }

  /** The tags found are the known names of the field, and `allgood` holds
   *  exactly when every name is known and there are at most five. */
  lemma ProcessedTagsSpec(tagstring: string, known: set<string>)
    ensures var (tags, allgood) := ProcessedTags(tagstring, known);
      var raw := Words(tagstring);
      && (allgood <==> (forall k :: 0 <= k < |raw| ==> raw[k] in known) && |raw| <= 5)
      && (allgood ==> tags == raw)
      && |tags| <= |raw|
      && (forall k :: 0 <= k < |tags| ==> tags[k] in known)
  {
  }

  /** `process_tags`: the scan over the names, then the count limit. */
  method ProcessTags(tagstring: string, known: set<string>) returns (allgood: bool, tags: seq<string>)
    ensures (tags, allgood) == ProcessedTags(tagstring, known)
  {
    var raw := Words(tagstring);
    tags, allgood := ScanKnown(raw, known);
    if |tags| > 5 {
      allgood := false;
    }
  }

  /** The lines `annotate` shows: both bounds come from `first_line`, so
   *  the page always shows a single line; `last_line` is not read. */
  function AnnotatePageRange(firstLine: string, lastLine: string): (r: Result<(int, int)>)
    ensures r.Ok? ==> r.value.0 == r.value.1 >= 1
    ensures r.Err? <==> PyInt(firstLine).None?
    ensures r.Ok? && PyInt(firstLine).value >= 1 ==> r.value == (PyInt(firstLine).value, PyInt(firstLine).value)
  {
    match PyInt(firstLine)
    case None => Err(ValueError)
    case Some(n) => Ok(Funky.LineCheck(n, n))
  }

  /** Whatever `last_line` holds, the page shows the same line. */
  lemma AnnotateIgnoresLast(firstLine: string, a: string, b: string)
    ensures AnnotatePageRange(firstLine, a) == AnnotatePageRange(firstLine, b)
  {
  }

  /** The range of the submitted form: `line_check` of the two integer fields. */
  function FormRange(firstLine: int, lastLine: int): (r: (int, int))
    ensures 1 <= r.0 <= r.1
    ensures 1 <= firstLine <= lastLine ==> r == (firstLine, lastLine)
    ensures 1 <= lastLine <= firstLine ==> r == (lastLine, firstLine)
  {
    Funky.LineCheck(firstLine, lastLine)
  }

  /** A comment: top-level comments have depth 0. */
  datatype Comment = Comment(id: nat, depth: nat, parent: Option<nat>)

  /** `reply`: the new comment hangs under `parent`, one level deeper. */
  function Reply(parent: Comment, id: nat): (c: Comment)
    ensures c.parent == Some(parent.id) && c.depth == parent.depth + 1 && c.id == id
  {
    Comment(id, parent.depth + 1, Some(parent.id))
  }

  /** A chain of replies: each comment is a reply to the one before it. */
  predicate Thread(cs: seq<Comment>)
  {
    forall i :: 0 < i < |cs| ==> cs[i] == Reply(cs[i - 1], cs[i].id)
  }

  /** In a thread starting at a top-level comment, the depth of every
   *  comment is the number of replies above it. */
  lemma {:induction false} ThreadDepth(cs: seq<Comment>)
    requires cs != [] && cs[0].depth == 0 && Thread(cs)
    ensures forall i :: 0 <= i < |cs| ==> cs[i].depth == i
  {
    if |cs| > 1 {
      var front := cs[..|cs| - 1];
      assert Thread(front) by {
        forall i | 0 < i < |front| ensures front[i] == Reply(front[i - 1], front[i].id) {
          assert front[i] == cs[i] && front[i - 1] == cs[i - 1];
        }
      }
      ThreadDepth(front);
      assert cs[|cs| - 1] == Reply(cs[|cs| - 2], cs[|cs| - 1].id);
      forall i | 0 <= i < |cs| ensures cs[i].depth == i {
        if i < |cs| - 1 {
          assert cs[i] == front[i];
        }
      }
    }
  }
}
