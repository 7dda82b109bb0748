/**
 * The shared model behaviour of the package models: the direction of a
 * ballot, the rollback and rejection every edit offers, and the order in
 * which a search returns the rows the search index found.
 */
module Mixins {
  import opened Ballots

  /** The fields of an edit that `EditMixin.rollback` and `reject` touch. */
  class EditVotes {
    var weight: int
    var votes: seq<Vote>
    var approved: bool
    var rejected: bool

    function State(): Tally
      reads this
    {
      Tally(weight, votes)
    }

    /** `rollback(vote)` on the ballot at position `i`: its delta is taken
     *  off the weight and the ballot is deleted. */
    method Rollback(i: nat)
      requires i < |votes|
      modifies this
      ensures State() == RolledBack(old(State()), i)
      ensures approved == old(approved) && rejected == old(rejected)
    {
      weight := weight - votes[i].delta;
      votes := RemoveAt(votes, i);
    }

    /** `reject()`. */
    method Reject()
      modifies this
      ensures rejected
      ensures State() == old(State()) && approved == old(approved)
    {
      rejected := true;
    }
  }

  /** Rolling back the ballot just cast restores the weight and the ballots. */
  lemma RollbackRestores(t: Tally, voter: nat, delta: int)
    ensures RolledBack(Cast(t, voter, delta), |t.votes|) == t
  {
    CastThenRollback(t, voter, delta);
  }

  // ---- search order -----------------------------------------------------

  /** The position of the first occurrence of `x` in `ids`. */
  function Pos(ids: seq<int>, x: int): (p: nat)
    requires x in ids
    ensures p < |ids| && ids[p] == x && x !in ids[..p]
  {
    if ids[0] == x then 0
    else
      assert ids[1..][..Pos(ids[1..], x)] == ids[1..1 + Pos(ids[1..], x)];
      1 + Pos(ids[1..], x)
  }

  /** The rows (`table` holds the ids of the rows) whose ids the index
   *  returned, each once, in the order the index returned them. */
  function Ranked(ids: seq<int>, table: set<int>): (r: seq<int>)
  {
    if ids == [] then []
    else
      var x := ids[|ids| - 1];
      var front := ids[..|ids| - 1];
      Ranked(front, table) + (if x in table && x !in front then [x] else [])
  }

  /** `SearchableMixin.search`: no rows when the index reports no hit. */
  function Search(ids: seq<int>, total: int, table: set<int>): seq<int>
  {
    if total == 0 then [] else Ranked(ids, table)
  }

  /** Every returned row is a row of the table that the index found; every
   *  such row is returned; none twice. */
  lemma {:induction false} RankedMembers(ids: seq<int>, table: set<int>)
    ensures forall x :: x in Ranked(ids, table) <==> x in ids && x in table
    ensures forall a, b :: 0 <= a < b < |Ranked(ids, table)| ==> Ranked(ids, table)[a] != Ranked(ids, table)[b]
  {
    if ids != [] {
      var front := ids[..|ids| - 1];
      RankedMembers(front, table);
      assert ids == front + [ids[|ids| - 1]];
    }
  }

  /** The first position in a prefix is the first position in the whole. */
  lemma PosPrefix(ids: seq<int>, n: nat, x: int)
    requires n <= |ids| && x in ids[..n]
    ensures Pos(ids[..n], x) == Pos(ids, x)
  {
    var p := Pos(ids[..n], x);
    var q := Pos(ids, x);
    assert ids[..n][p] == ids[p];
    assert ids[..n][..p] == ids[..p];
    forall k | 0 <= k < p ensures ids[k] != x {
      assert ids[..p][k] == ids[k];
    }
    forall k | 0 <= k < q ensures ids[k] != x {
      assert ids[..q][k] == ids[k];
    }
  }

  /** The rows come in the order of their first position in `ids`. */
  lemma {:induction false} RankedOrder(ids: seq<int>, table: set<int>)
    ensures forall a, b :: 0 <= a < b < |Ranked(ids, table)| ==>
      Ranked(ids, table)[a] in ids && Ranked(ids, table)[b] in ids &&
      Pos(ids, Ranked(ids, table)[a]) < Pos(ids, Ranked(ids, table)[b])
  {
    RankedMembers(ids, table);
    if ids != [] {
      var n := |ids| - 1;
      var front := ids[..n];
      var x := ids[n];
      var rf := Ranked(front, table);
      RankedOrder(front, table);
      RankedMembers(front, table);
      var r := Ranked(ids, table);
      assert ids == front + [x];
      forall a | 0 <= a < |rf|
        ensures rf[a] in front && Pos(ids, rf[a]) == Pos(front, rf[a]) && Pos(front, rf[a]) < n
      {
        PosPrefix(ids, n, rf[a]);
      }
      forall a, b | 0 <= a < b < |r|
        ensures r[a] in ids && r[b] in ids && Pos(ids, r[a]) < Pos(ids, r[b])
      {
        if b < |rf| {
          assert r[a] == rf[a] && r[b] == rf[b];
        } else {
          assert r[a] == rf[a] && r[b] == x && x !in front;
          assert Pos(ids, x) == n;
        }
      }
    }
  }

  /** `search` returns nothing for no hits; otherwise exactly the table
   *  rows the index found, each once, ordered by position in `ids`. */
  lemma SearchSpec(ids: seq<int>, total: int, table: set<int>)
    ensures total == 0 ==> Search(ids, total, table) == []
    ensures var r := Search(ids, total, table);
      && (total != 0 ==> forall x :: x in r <==> x in ids && x in table)
      && (forall a, b :: 0 <= a < b < |r| ==> r[a] != r[b])
      && (forall a, b :: 0 <= a < b < |r| ==> r[a] in ids && r[b] in ids && Pos(ids, r[a]) < Pos(ids, r[b]))
  {
    if total != 0 {
      RankedMembers(ids, table);
      RankedOrder(ids, table);
    }
  }

  /** The `when` list of `search`: each id paired with its position. */
  method WhenList(ids: seq<int>) returns (when: seq<(int, nat)>)
    ensures |when| == |ids|
    ensures forall i :: 0 <= i < |ids| ==> when[i] == (ids[i], i)
  {
    when := [];
    var i := 0;
    while i < |ids|
      invariant 0 <= i <= |ids| && |when| == i
      invariant forall k :: 0 <= k < i ==> when[k] == (ids[k], k)
    {
      when := when + [(ids[i], i)];
      i := i + 1;
    }
  }
}
