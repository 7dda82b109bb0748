/**
 * The bookkeeping every votable entity shares: a weight and the ballots
 * cast on it. A ballot (`VoteMixin`) records its voter and the delta it
 * applied to the weight; it counts as an up vote exactly when its delta is
 * positive, so a zero delta reads as a down vote.
 *
 * The vote routes all follow one toggle: look up the voter's ballot
 * (`first()` of the voter's ballots on the entity); if there is one, roll it
 * back, and stop there when it pointed the way the voter is voting now;
 * otherwise cast a new ballot in that direction.
 */
module Ballots {
  import opened Wrappers

  datatype Vote = Vote(voter: nat, delta: int)

  /** `VoteMixin.is_up`. */
  predicate IsUp(v: Vote)
  {
    v.delta > 0
  }

  /** An entity's weight and the ballots on it, in the order they were cast. */
  datatype Tally = Tally(weight: int, votes: seq<Vote>)

  /** The voter's first ballot, if any. */
  function FindVote(votes: seq<Vote>, voter: nat): (r: Option<nat>)
    ensures r.Some? ==> r.value < |votes| && votes[r.value].voter == voter
    ensures r.Some? ==> forall k :: 0 <= k < r.value ==> votes[k].voter != voter
    ensures r.None? <==> forall k :: 0 <= k < |votes| ==> votes[k].voter != voter
  {
    if votes == [] then None
    else if votes[0].voter == voter then Some(0)
    else match FindVote(votes[1..], voter)
      case None => None
      case Some(k) => Some(k + 1)
  }

  function RemoveAt(votes: seq<Vote>, i: nat): (r: seq<Vote>)
    requires i < |votes|
    ensures |r| == |votes| - 1
    ensures forall k :: 0 <= k < i ==> r[k] == votes[k]
    ensures forall k :: i <= k < |r| ==> r[k] == votes[k + 1]
  {
    votes[..i] + votes[i + 1..]
  }

  /** No voter holds two ballots on the entity. */
  predicate AtMostOne(votes: seq<Vote>)
  {
    forall i, j :: 0 <= i < j < |votes| ==> votes[i].voter != votes[j].voter
  }

  /** The direction of the voter's ballot: `Some(true)` for up, `Some(false)`
   *  for down, `None` when the voter has not voted. */
  function Held(votes: seq<Vote>, voter: nat): Option<bool>
  {
    match FindVote(votes, voter)
    case None => None
    case Some(i) => Some(IsUp(votes[i]))
  }

  /** The sum of all ballot deltas. */
  function Sum(votes: seq<Vote>): int
  {
    if votes == [] then 0 else votes[0].delta + Sum(votes[1..])
  }

  /** Every ballot is a plain +1 or -1 (the request and edit votes). */
  predicate UnitVotes(votes: seq<Vote>)
  {
    forall k :: 0 <= k < |votes| ==> votes[k].delta == 1 || votes[k].delta == -1
  }

  /** `rollback(vote)`: the weight loses the ballot's delta and the ballot is deleted. */
  function RolledBack(t: Tally, i: nat): (r: Tally)
    requires i < |t.votes|
    ensures r.weight - Sum(r.votes) == t.weight - Sum(t.votes)
  {
    SumRemoveAt(t.votes, i);
    Tally(t.weight - t.votes[i].delta, RemoveAt(t.votes, i))
  }

  /** Casting a ballot with `delta`: the weight gains it and the ballot is added. */
  function Cast(t: Tally, voter: nat, delta: int): (r: Tally)
    ensures r.weight - Sum(r.votes) == t.weight - Sum(t.votes)
  {
    SumAppend(t.votes, [Vote(voter, delta)]);
    Tally(t.weight + delta, t.votes + [Vote(voter, delta)])
  }

  /** The toggle of an up (`up`) or down vote whose new ballot would carry
   *  `delta`. */
  function Toggled(t: Tally, voter: nat, up: bool, delta: int): Tally
  {
    match FindVote(t.votes, voter)
    case None => Cast(t, voter, delta)
    case Some(i) =>
      var rb := RolledBack(t, i);
      if IsUp(t.votes[i]) == up then rb else Cast(rb, voter, delta)
  }

  // ---- lemmas ----------------------------------------------------------

  lemma {:induction false} SumAppend(a: seq<Vote>, b: seq<Vote>)
    ensures Sum(a + b) == Sum(a) + Sum(b)
  {
    if a == [] {
      assert a + b == b;
    } else {
      assert (a + b)[1..] == a[1..] + b;
      SumAppend(a[1..], b);
    }
  }

  lemma {:induction false} SumRemoveAt(votes: seq<Vote>, i: nat)
    requires i < |votes|
    ensures Sum(RemoveAt(votes, i)) == Sum(votes) - votes[i].delta
  {
    var r := RemoveAt(votes, i);
    if i == 0 {
      assert r == votes[1..];
    } else {
      assert r[1..] == RemoveAt(votes[1..], i - 1);
      SumRemoveAt(votes[1..], i - 1);
    }
  }

  /** Rolling back a ballot restores the weight the entity had before that
   *  ballot was cast, and removes exactly that ballot. */
  lemma CastThenRollback(t: Tally, voter: nat, delta: int)
    ensures var c := Cast(t, voter, delta);
      RolledBack(c, |c.votes| - 1) == t
  {
    var c := Cast(t, voter, delta);
    assert RemoveAt(c.votes, |c.votes| - 1) == t.votes;
  }

  lemma RemoveAtKeepsAtMostOne(votes: seq<Vote>, i: nat)
    requires i < |votes| && AtMostOne(votes)
    ensures AtMostOne(RemoveAt(votes, i))
  {
    var r := RemoveAt(votes, i);
    forall a, b | 0 <= a < b < |r| ensures r[a].voter != r[b].voter {
      var a' := if a < i then a else a + 1;
      var b' := if b < i then b else b + 1;
      assert r[a] == votes[a'] && r[b] == votes[b'];
    }
  }

  /** After rolling back the voter's ballot the voter holds none. */
  lemma RemoveOnlyVote(votes: seq<Vote>, voter: nat)
    requires AtMostOne(votes) && FindVote(votes, voter).Some?
    ensures FindVote(RemoveAt(votes, FindVote(votes, voter).value), voter).None?
  {
    var i := FindVote(votes, voter).value;
    var r := RemoveAt(votes, i);
    forall k | 0 <= k < |r| ensures r[k].voter != voter {
      if k >= i { assert r[k] == votes[k + 1]; }
    }
  }

  lemma AppendKeepsAtMostOne(votes: seq<Vote>, v: Vote)
    requires AtMostOne(votes) && FindVote(votes, v.voter).None?
    ensures AtMostOne(votes + [v])
  {
    var r := votes + [v];
    forall a, b | 0 <= a < b < |r| ensures r[a].voter != r[b].voter {
      assert r[a] == votes[a];
    }
  }

  /** A ballot can be found again right after it is cast by a voter who had none. */
  lemma FindAppended(votes: seq<Vote>, v: Vote)
    requires FindVote(votes, v.voter).None?
    ensures FindVote(votes + [v], v.voter) == Some(|votes|)
  {
    var r := votes + [v];
    assert forall k :: 0 <= k < |votes| ==> r[k] == votes[k];
    assert r[|votes|].voter == v.voter;
  }

  /** Other voters find their own ballots where they were, shifted past a
   *  removed one. */
  lemma HeldElsewhere(votes: seq<Vote>, i: nat, d: Option<Vote>, other: nat)
    requires i < |votes| && votes[i].voter != other
    requires d.Some? ==> d.value.voter != other
    ensures var r := RemoveAt(votes, i) + (if d.Some? then [d.value] else []);
      Held(r, other) == Held(votes, other)
  {
    var r := RemoveAt(votes, i) + (if d.Some? then [d.value] else []);
    var f := FindVote(votes, other);
    var g := FindVote(r, other);
    if f.None? {
      forall k | 0 <= k < |r| ensures r[k].voter != other {
        if k < |votes| - 1 {
          if k >= i { assert r[k] == votes[k + 1]; } else { assert r[k] == votes[k]; }
        }
      }
    } else {
      var j := f.value;
      var j' := if j < i then j else j - 1;
      assert r[j'] == votes[j];
      assert forall k :: 0 <= k < j' ==> r[k] == (if k < i then votes[k] else votes[k + 1]);
    }
  }

  lemma CastElsewhere(votes: seq<Vote>, v: Vote, other: nat)
    requires v.voter != other
    ensures Held(votes + [v], other) == Held(votes, other)
  {
    var r := votes + [v];
    var f := FindVote(votes, other);
    var g := FindVote(r, other);
    if f.None? {
      forall k | 0 <= k < |r| ensures r[k].voter != other {
        if k < |votes| { assert r[k] == votes[k]; }
      }
    } else {
      assert r[f.value] == votes[f.value];
      assert forall k :: 0 <= k < f.value ==> r[k] == votes[k];
    }
  }

  /** The toggle keeps every voter at no more than one ballot, leaves the
   *  voter holding a ballot in the voted direction unless it undid one that
   *  already pointed that way, and keeps the weight equal to the ballot sum
   *  plus the same offset. */
  lemma ToggleShape(t: Tally, voter: nat, up: bool, delta: int)
    requires AtMostOne(t.votes)
    requires up <==> delta > 0
    ensures var r := Toggled(t, voter, up, delta);
      && AtMostOne(r.votes)
      && r.weight - Sum(r.votes) == t.weight - Sum(t.votes)
      && Held(r.votes, voter) == (if Held(t.votes, voter) == Some(up) then None else Some(up))
  {
    var r := Toggled(t, voter, up, delta);
    var v := Vote(voter, delta);
    match FindVote(t.votes, voter)
    case None =>
      AppendKeepsAtMostOne(t.votes, v);
      FindAppended(t.votes, v);
    case Some(i) =>
      var rb := RolledBack(t, i);
      RemoveAtKeepsAtMostOne(t.votes, i);
      RemoveOnlyVote(t.votes, voter);
      if IsUp(t.votes[i]) != up {
        AppendKeepsAtMostOne(rb.votes, v);
        FindAppended(rb.votes, v);
      }
  }

  /** The toggle never touches another voter's ballot. */
  lemma ToggleElsewhere(t: Tally, voter: nat, up: bool, delta: int, other: nat)
    requires voter != other
    ensures Held(Toggled(t, voter, up, delta).votes, other) == Held(t.votes, other)
  {
    var v := Vote(voter, delta);
    match FindVote(t.votes, voter)
    case None =>
      CastElsewhere(t.votes, v, other);
    case Some(i) =>
      if IsUp(t.votes[i]) == up {
        HeldElsewhere(t.votes, i, None, other);
        assert RemoveAt(t.votes, i) + [] == RemoveAt(t.votes, i);
      } else {
        HeldElsewhere(t.votes, i, Some(v), other);
      }
  }

  /** With plus-or-minus-one ballots the three cases of an up toggle move the
   *  weight by +1 (no ballot), -1 (an up ballot undone) or +2 (a down ballot
   *  replaced); a down toggle mirrors them. */
  lemma UnitToggleWeight(t: Tally, voter: nat, up: bool)
    requires UnitVotes(t.votes)
    ensures var d := if up then 1 else -1;
      Toggled(t, voter, up, d).weight == t.weight + (
        match Held(t.votes, voter)
        case None => d
        case Some(u) => if u == up then -d else 2 * d)
  {
  }

  /** A voter without a ballot who toggles twice in the same direction
   *  leaves the entity exactly as it was. */
  lemma ToggleTwice(t: Tally, voter: nat, up: bool, delta: int)
    requires FindVote(t.votes, voter).None?
    requires up <==> delta > 0
    ensures Toggled(Toggled(t, voter, up, delta), voter, up, delta) == t
  {
    var c := Cast(t, voter, delta);
    FindAppended(t.votes, Vote(voter, delta));
    CastThenRollback(t, voter, delta);
  }
}
