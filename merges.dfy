/**
 * The merges that the edit pages show: the tags of an edit followed by the
 * tags of the previous edit not yet listed, and the context lines of the
 * two edits, starting with the edit that begins earlier. Tags and lines are
 * named by their ids.
 */
module Merges {
  import opened Mixins

  /** `acc` followed by each element of `more` that is not listed yet. */
  function MergeInto(acc: seq<int>, more: seq<int>): seq<int>
  {
    if more == [] then acc
    else
      var r := MergeInto(acc, more[..|more| - 1]);
      var x := more[|more| - 1];
      if x in r then r else r + [x]
  }

  predicate NoDuplicates(s: seq<int>)
  {
    forall a, b :: 0 <= a < b < |s| ==> s[a] != s[b]
  }

  /** The merge keeps `acc` as it is at the front, lists everything of both,
   *  adds only elements of `more` that `acc` lacks, and adds nothing twice. */
  lemma {:induction false} MergeShape(acc: seq<int>, more: seq<int>)
    ensures var r := MergeInto(acc, more);
      && |acc| <= |r| && r[..|acc|] == acc
      && (forall x :: x in r <==> x in acc || x in more)
      && (forall k :: |acc| <= k < |r| ==> r[k] in more && r[k] !in acc)
      && (forall a, b :: |acc| <= a < b < |r| ==> r[a] != r[b])
      && (NoDuplicates(acc) ==> NoDuplicates(r))
  {
    if more != [] {
      var front := more[..|more| - 1];
      var x := more[|more| - 1];
      MergeShape(acc, front);
      assert more == front + [x];
      var r0 := MergeInto(acc, front);
      if x !in r0 {
        assert (r0 + [x])[..|acc|] == r0[..|acc|];
      }
    }
  }

  /** The added elements come in the order of their first occurrence in `more`. */
  lemma {:induction false} MergeOrder(acc: seq<int>, more: seq<int>)
    ensures var r := MergeInto(acc, more);
      forall a, b :: |acc| <= a < b < |r| ==> r[a] in more && r[b] in more && Pos(more, r[a]) < Pos(more, r[b])
  {
    if more != [] {
      var front := more[..|more| - 1];
      var x := more[|more| - 1];
      var r0 := MergeInto(acc, front);
      MergeOrder(acc, front);
      MergeAdds(acc, front, x);
      OrderExtend(|acc|, front, x, r0);
      assert more == front + [x];
      assert MergeInto(acc, more) == if x in r0 then r0 else r0 + [x];
    }
  }

  /** The part of the merge `MergeOrder` needs: the added elements come
   *  from `front`, and an element of `front` is listed. */
  lemma MergeAdds(acc: seq<int>, front: seq<int>, x: int)
    ensures var r0 := MergeInto(acc, front);
      && |acc| <= |r0|
      && (forall a :: |acc| <= a < |r0| ==> r0[a] in front)
      && (x in front ==> x in r0)
  {
    MergeShape(acc, front);
  }

  /** One more element of `more`, appended when it is not listed yet, keeps
   *  the added part in first-occurrence order. */
  lemma OrderExtend(n: nat, front: seq<int>, x: int, r0: seq<int>)
    requires n <= |r0|
    requires forall a :: n <= a < |r0| ==> r0[a] in front
    requires forall a, b :: n <= a < b < |r0| ==> r0[a] in front && r0[b] in front && Pos(front, r0[a]) < Pos(front, r0[b])
    requires x in front ==> x in r0
    ensures var more := front + [x];
      var r := if x in r0 then r0 else r0 + [x];
      forall a, b :: n <= a < b < |r| ==> r[a] in more && r[b] in more && Pos(more, r[a]) < Pos(more, r[b])
  {
    var more := front + [x];
    var r := if x in r0 then r0 else r0 + [x];
    forall a, b | n <= a < b < |r|
      ensures r[a] in more && r[b] in more && Pos(more, r[a]) < Pos(more, r[b])
    {
      assert r[a] == r0[a];
      PosExtend(front, x, r0[a]);
      if b < |r0| {
        assert r[b] == r0[b];
        PosExtend(front, x, r0[b]);
      } else {
        PosLast(front, x);
      }
    }
  }

  /** Appending keeps the first position of an element already there. */
  lemma PosExtend(front: seq<int>, x: int, y: int)
    requires y in front
    ensures y in front + [x] && Pos(front + [x], y) == Pos(front, y) < |front|
  {
    assert (front + [x])[..|front|] == front;
    PosPrefix(front + [x], |front|, y);
  }

  /** An appended new element sits at the end. */
  lemma PosLast(front: seq<int>, x: int)
    requires x !in front
    ensures x in front + [x] && Pos(front + [x], x) == |front|
  {
  }

  /** The merge loop of `view_edit` and `review_edit`. */
  method Merge(acc: seq<int>, more: seq<int>) returns (r: seq<int>)
    ensures r == MergeInto(acc, more)
  {
    r := acc;
    var i := 0;
    while i < |more|
      invariant 0 <= i <= |more|
      invariant r == MergeInto(acc, more[..i])
    {
      assert more[..i + 1][..i] == more[..i];
      if more[i] !in r {
        r := r + [more[i]];
      }
      i := i + 1;
    }
    assert more[..i] == more;
  }

  /** The merged context: the lines of the edit that begins earlier come
   *  first (the edit itself on a tie), then the unseen lines of the other. */
  function ContextMerged(firstLine: int, context: seq<int>, prevFirstLine: int, prevContext: seq<int>): (r: seq<int>)
  {
    if firstLine > prevFirstLine then MergeInto(prevContext, context) else MergeInto(context, prevContext)
  }

  lemma ContextMergedShape(firstLine: int, context: seq<int>, prevFirstLine: int, prevContext: seq<int>)
    ensures var r := ContextMerged(firstLine, context, prevFirstLine, prevContext);
      && (firstLine > prevFirstLine ==> prevContext <= r)
      && (firstLine <= prevFirstLine ==> context <= r)
      && (forall x :: x in r <==> x in context || x in prevContext)
  {
    MergeShape(prevContext, context);
    MergeShape(context, prevContext);
  }

  /** The two merges of an edit page: tags, then context lines. */
  method EditPageMerges(tags: seq<int>, prevTags: seq<int>, firstLine: int, context: seq<int>,
                        prevFirstLine: int, prevContext: seq<int>)
    returns (mergedTags: seq<int>, mergedContext: seq<int>)
    ensures mergedTags == MergeInto(tags, prevTags)
    ensures mergedContext == ContextMerged(firstLine, context, prevFirstLine, prevContext)
  {
    mergedTags := Merge(tags, prevTags);
    if firstLine > prevFirstLine {
      mergedContext := Merge(prevContext, context);
    } else {
      mergedContext := Merge(context, prevContext);
    }
  }
}
