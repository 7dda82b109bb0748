/**
 * The edit history of an annotation or a wiki: every edit carries its
 * number, the `current` flag, and its review flags. Exactly one edit is
 * current (the annotation's `HEAD`, the wiki's `current`). A new edit is
 * numbered one past the current edit; applied immediately, it takes the
 * current flag over. An administrator can delete an edit: deleting a
 * non-current edit closes the gap in the numbering, deleting the current
 * edit hands the flag back to the previous edit and renumbers nothing.
 *
 * `C` is what an edit holds: the annotation's target and body, or the
 * wiki's body.
 */
module EditHistory {
  import opened Wrappers

  datatype EditRow<C> = EditRow(num: int, current: bool, approved: bool, rejected: bool, content: C)

  /** The number of current edits. */
  function CurrentCount<C>(s: seq<EditRow<C>>): (n: nat)
    ensures n <= |s|
    ensures n == 0 <==> forall i :: 0 <= i < |s| ==> !s[i].current
  {
    if s == [] then 0
    else CurrentCount(s[..|s| - 1]) + (if s[|s| - 1].current then 1 else 0)
  }

  /** The invariant the history keeps. */
  predicate OneCurrent<C>(s: seq<EditRow<C>>)
  {
    CurrentCount(s) == 1
  }

  /** The first current edit. */
  function HeadIndex<C>(s: seq<EditRow<C>>): (h: Option<nat>)
    ensures h.None? <==> forall i :: 0 <= i < |s| ==> !s[i].current
    ensures h.Some? ==> h.value < |s| && s[h.value].current && forall i :: 0 <= i < h.value ==> !s[i].current
  {
    if s == [] then None
    else if s[0].current then Some(0)
    else match HeadIndex(s[1..])
      case None => None
      case Some(j) => Some(j + 1)
  }

  lemma {:induction false} CountAppend<C>(s: seq<EditRow<C>>, e: EditRow<C>)
    ensures CurrentCount(s + [e]) == CurrentCount(s) + (if e.current then 1 else 0)
  {
    assert (s + [e])[..|s|] == s;
  }

  /** Changing the flag of one edit changes the count by one. */
  lemma {:induction false} CountUpdate<C>(s: seq<EditRow<C>>, i: nat, e: EditRow<C>)
    requires i < |s|
    ensures CurrentCount(s[i := e]) + (if s[i].current then 1 else 0)
         == CurrentCount(s) + (if e.current then 1 else 0)
  {
    var n := |s| - 1;
    if i < n {
      assert s[i := e][..n] == s[..n][i := e];
      CountUpdate(s[..n], i, e);
    } else {
      assert s[i := e][..n] == s[..n];
    }
  }

  /** Removing an edit takes its flag out of the count. */
  lemma {:induction false} CountRemove<C>(s: seq<EditRow<C>>, k: nat)
    requires k < |s|
    ensures CurrentCount(s[..k] + s[k + 1..]) + (if s[k].current then 1 else 0) == CurrentCount(s)
  {
    var n := |s| - 1;
    if k == n {
      assert s[..k] + s[k + 1..] == s[..n];
    } else {
      assert (s[..k] + s[k + 1..])[..n - 1] == s[..n][..k] + s[..n][k + 1..];
      CountRemove(s[..n], k);
    }
  }

  /** Two distinct current edits count twice. */
  lemma CountTwo<C>(s: seq<EditRow<C>>, i: nat, j: nat)
    requires i < |s| && j < |s|
    ensures i != j && s[i].current && s[j].current ==> CurrentCount(s) >= 2
  {
    if i != j && s[i].current && s[j].current {
      CountUpdate(s, i, s[i].(current := false));
      var t := s[i := s[i].(current := false)];
      assert t[j].current;
    }
  }

  /** With one current edit, the head is the only current edit. */
  lemma HeadIsOnly<C>(s: seq<EditRow<C>>)
    requires OneCurrent(s)
    ensures HeadIndex(s).Some?
    ensures forall i :: 0 <= i < |s| && s[i].current ==> i == HeadIndex(s).value
  {
    var h := HeadIndex(s).value;
    forall i | 0 <= i < |s| ensures s[i].current ==> i == h {
      CountTwo(s, i, h);
    }
  }

  // ---- new edits ------------------------------------------------------------

  /** The history after a new edit holding `content`: numbered one past the
   *  head, pending, unless `immediate`, in which case it is approved and
   *  takes over the current flag. */
  function Appended<C>(s: seq<EditRow<C>>, content: C, immediate: bool): seq<EditRow<C>>
    requires HeadIndex(s).Some?
  {
    var h := HeadIndex(s).value;
    var e := EditRow(s[h].num + 1, false, false, false, content);
    if immediate then s[h := s[h].(current := false)] + [e.(approved := true, current := true)]
    else s + [e]
  }

  /** A new edit keeps exactly one edit current: the new one when applied
   *  immediately, the old head otherwise; the older edits keep their
   *  numbers and content. */
  lemma AppendedShape<C>(s: seq<EditRow<C>>, content: C, immediate: bool)
    requires OneCurrent(s)
    ensures HeadIndex(s).Some?
    ensures var r := Appended(s, content, immediate);
      && OneCurrent(r)
      && |r| == |s| + 1
      && r[|s|].num == s[HeadIndex(s).value].num + 1 && r[|s|].content == content
      && r[|s|].approved == immediate && !r[|s|].rejected
      && HeadIndex(r) == Some(if immediate then |s| else HeadIndex(s).value)
      && forall i :: 0 <= i < |s| ==> r[i].num == s[i].num && r[i].content == s[i].content
                                      && r[i].approved == s[i].approved && r[i].rejected == s[i].rejected
  {
    HeadIsOnly(s);
    var h := HeadIndex(s).value;
    var e := EditRow(s[h].num + 1, false, false, false, content);
    var r := Appended(s, content, immediate);
    if immediate {
      var t := s[h := s[h].(current := false)];
      assert r == t + [e.(approved := true, current := true)];
      AppendedTakesOver(s, h, e.(approved := true, current := true));
      assert forall i :: 0 <= i < |s| ==> r[i] == t[i];
    } else {
      assert r == s + [e];
      AppendedPending(s, h, e);
      assert forall i :: 0 <= i < |s| ==> r[i] == s[i];
    }
  }

  /** Appending a current edit and clearing the only other current flag
   *  makes the new edit the head. */
  lemma AppendedTakesOver<C>(s: seq<EditRow<C>>, h: nat, e: EditRow<C>)
    requires OneCurrent(s) && h < |s| && s[h].current && e.current
    requires forall i :: 0 <= i < |s| && s[i].current ==> i == h
    ensures var r := s[h := s[h].(current := false)] + [e];
      OneCurrent(r) && HeadIndex(r) == Some(|s|)
  {
    var t := s[h := s[h].(current := false)];
    CountUpdate(s, h, s[h].(current := false));
    CountAppend(t, e);
    assert forall i :: 0 <= i < |t| ==> !t[i].current;
    var r := t + [e];
    assert forall i :: 0 <= i < |s| ==> !r[i].current;
  }

  /** Appending an edit that is not current keeps the head. */
  lemma AppendedPending<C>(s: seq<EditRow<C>>, h: nat, e: EditRow<C>)
    requires OneCurrent(s) && HeadIndex(s) == Some(h) && !e.current
    ensures OneCurrent(s + [e]) && HeadIndex(s + [e]) == Some(h)
  {
    CountAppend(s, e);
    var r := s + [e];
    assert forall i :: 0 <= i <= h ==> r[i] == s[i];
  }

  // ---- deleting an edit -------------------------------------------------------

  /** `edit.previous`: the first edit numbered one lower that is not rejected. */
  function Previous<C>(s: seq<EditRow<C>>, num: int): (p: Option<nat>)
    ensures p.Some? ==> p.value < |s| && s[p.value].num == num - 1 && !s[p.value].rejected
    ensures p.None? <==> forall i :: 0 <= i < |s| ==> s[i].num != num - 1 || s[i].rejected
  {
    if s == [] then None
    else if s[0].num == num - 1 && !s[0].rejected then Some(0)
    else match Previous(s[1..], num)
      case None => None
      case Some(j) => Some(j + 1)
  }

  /** One edit after the deleted one's numbering is closed up. */
  function Shifted<C>(e: EditRow<C>, num: int): EditRow<C>
  {
    if e.num > num then e.(num := e.num - 1) else e
  }

  /** Every edit numbered above `num` moves down by one. */
  function Renumbered<C>(s: seq<EditRow<C>>, num: int): (r: seq<EditRow<C>>)
    ensures |r| == |s|
    ensures forall i :: 0 <= i < |s| ==> r[i] == Shifted(s[i], num)
  {
    if s == [] then [] else Renumbered(s[..|s| - 1], num) + [Shifted(s[|s| - 1], num)]
  }

  /** `delete_edit` / `delete_wiki_edit` on the edit at position `k`. The
   *  current edit hands its flag to `edit.previous`, whose absence raises
   *  `AttributeError`; any other edit closes the numbering gap. */
  function Deleted<C>(s: seq<EditRow<C>>, k: nat): (r: Result<seq<EditRow<C>>>)
    requires k < |s|
  {
    if s[k].current then
      match Previous(s, s[k].num)
      case None => Err(AttributeError)
      case Some(j) =>
        var t := s[j := s[j].(current := true)];
        Ok(t[..k] + t[k + 1..])
    else
      var t := Renumbered(s, s[k].num);
      Ok(t[..k] + t[k + 1..])
  }

  /** Exactly the target edit is removed, and exactly one edit stays current. */
  lemma DeletedShape<C>(s: seq<EditRow<C>>, k: nat)
    requires k < |s| && OneCurrent(s)
    ensures Deleted(s, k).Ok? ==> |Deleted(s, k).value| == |s| - 1 && OneCurrent(Deleted(s, k).value)
    ensures Deleted(s, k).Err? <==> s[k].current && Previous(s, s[k].num).None?
    ensures !s[k].current ==> Deleted(s, k).Ok?
  {
    if s[k].current {
      match Previous(s, s[k].num)
      case None =>
      case Some(j) =>
        HeadIsOnly(s);
        var t := s[j := s[j].(current := true)];
        CountUpdate(s, j, s[j].(current := true));
        assert t[k] == s[k];
        CountRemove(t, k);
    } else {
      var t := Renumbered(s, s[k].num);
      RenumberedCount(s, s[k].num);
      CountRemove(t, k);
    }
  }

  lemma {:induction false} RenumberedCount<C>(s: seq<EditRow<C>>, num: int)
    ensures CurrentCount(Renumbered(s, num)) == CurrentCount(s)
  {
    if s != [] {
      var n := |s| - 1;
      RenumberedCount(s[..n], num);
      assert Renumbered(s, num)[..n] == Renumbered(s[..n], num);
    }
  }

  /** Deleting a non-current edit numbered `k` lowers every number above
   *  `k` by one and changes nothing else about the other edits. */
  lemma DeletedNonCurrent<C>(s: seq<EditRow<C>>, k: nat)
    requires k < |s| && !s[k].current
    ensures Deleted(s, k).Ok?
    ensures var r := Deleted(s, k).value;
      forall i :: 0 <= i < |r| ==>
        var e := s[if i < k then i else i + 1];
        r[i] == (if e.num > s[k].num then e.(num := e.num - 1) else e)
  {
  }

  /** Some edit carries number `m`. */
  predicate HasNum<C>(s: seq<EditRow<C>>, m: int)
  {
    exists j :: 0 <= j < |s| && s[j].num == m
  }

  /** The numbers start at `lo` and leave no gap. */
  predicate Gapless<C>(s: seq<EditRow<C>>, lo: int)
  {
    forall i :: 0 <= i < |s| ==> lo <= s[i].num && forall m :: lo <= m < s[i].num ==> HasNum(s, m)
  }

  /** Deleting a non-current edit keeps a gapless numbering gapless. */
  lemma DeleteNonCurrentGapless<C>(s: seq<EditRow<C>>, k: nat, lo: int)
    requires k < |s| && !s[k].current && Gapless(s, lo)
    ensures Deleted(s, k).Ok? && Gapless(Deleted(s, k).value, lo)
  {
    var t := s[k].num;
    var r := Deleted(s, k).value;
    DeletedNonCurrent(s, k);
    forall i | 0 <= i < |r|
      ensures lo <= r[i].num && forall m :: lo <= m < r[i].num ==> HasNum(r, m)
    {
      var i0 := if i < k then i else i + 1;
      forall m | lo <= m < r[i].num ensures HasNum(r, m) {
        var m0 := if m < t then m else m + 1;
        assert lo <= m0 < s[i0].num;
        assert HasNum(s, m0);
        var j0 :| 0 <= j0 < |s| && s[j0].num == m0;
        assert j0 != k;
        var j := if j0 < k then j0 else j0 - 1;
        assert r[j].num == m;
      }
    }
  }

  /** Deleting the current edit can leave a gap: with edits 0 (approved),
   *  1 (current) and 2 (pending), deleting edit 1 leaves numbers 0 and 2. */
  lemma DeleteCurrentLeavesGap()
    ensures var s := [EditRow(0, false, true, false, 0), EditRow(1, true, true, false, 0),
                      EditRow(2, false, false, false, 0)];
      && Gapless(s, 0)
      && Deleted(s, 1) == Ok([EditRow(0, true, true, false, 0), EditRow(2, false, false, false, 0)])
      && !Gapless(Deleted(s, 1).value, 0)
  {
    var s := [EditRow(0, false, true, false, 0), EditRow(1, true, true, false, 0),
              EditRow(2, false, false, false, 0)];
    assert s[0].num == 0 && s[1].num == 1;
    assert HasNum(s, 0) && HasNum(s, 1);
    assert Previous(s, 1) == Some(0);
    var t := s[0 := s[0].(current := true)];
    assert t[..1] + t[2..] == [EditRow(0, true, true, false, 0), EditRow(2, false, false, false, 0)];
    var r := Deleted(s, 1).value;
    assert r[1].num == 2;
    assert !HasNum(r, 1);
  }

  /** The edits of one annotation or wiki. */
  class History<C(==)> {
    var edits: seq<EditRow<C>>

    /** A history with its first version, approved and current. */
    constructor (num: int, content: C)
      ensures edits == [EditRow(num, true, true, false, content)]
      ensures OneCurrent(edits)
    {
      var e := EditRow(num, true, true, false, content);
      CountAppend([], e);
      assert [] + [e] == [e];
      edits := [e];
    }

    /** Adds an edit holding `content`. */
    method Add(content: C, immediate: bool)
      requires HeadIndex(edits).Some?
      modifies this
      ensures edits == Appended(old(edits), content, immediate)
    {
      var h := HeadIndex(edits).value;
      var e := EditRow(edits[h].num + 1, false, false, false, content);
      if immediate {
        e := e.(approved := true, current := true);
        edits := edits[h := edits[h].(current := false)];
      }
      edits := edits + [e];
    }

    /** `delete_edit` / `delete_wiki_edit`: the loop over all edits lowers
     *  the numbers above the deleted one. */
    method Delete(k: nat) returns (failure: Option<Failure>)
      requires k < |edits|
      modifies this
      ensures var r := Deleted(old(edits), k);
        if r.Ok? then failure.None? && edits == r.value else failure == Some(r.error) && edits == old(edits)
    {
      var target := edits[k];
      if target.current {
        var p := Previous(edits, target.num);
        if p.None? {
          return Some(AttributeError);
        }
        edits := edits[p.value := edits[p.value].(current := true)];
      } else {
        ghost var orig := edits;
        var i := 0;
        while i < |edits|
          invariant 0 <= i <= |edits| == |orig|
          invariant forall j :: 0 <= j < i ==> edits[j] == Shifted(orig[j], target.num)
          invariant forall j :: i <= j < |edits| ==> edits[j] == orig[j]
        {
          if edits[i].num > target.num {
            edits := edits[i := edits[i].(num := edits[i].num - 1)];
          }
          i := i + 1;
        }
        assert edits == Renumbered(orig, target.num);
      }
      edits := edits[..k] + edits[k + 1..];
      return None;
    }
  }
}
