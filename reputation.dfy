/**
 * A user's reputation and rights.
 *
 * `repchange` applies the default delta of a reputation enum, but never
 * lets the reputation fall below zero: the recorded change is what the
 * reputation actually moved. `rollback_repchange` undoes a recorded change.
 * A right is held either outright or, when it has a truthy minimum
 * reputation, by reaching that minimum. The anonymous user holds no right
 * and has no ballots.
 *
 * The reputation enums and the admin rights are tables the caller
 * supplies: `enums` maps an enum string to its default delta, `rights`
 * maps a right to its minimum reputation (`None` for a null column; 0 is
 * falsy like null).
 */
module Reputation {
  import opened Wrappers

  /** A user's reputation and the rights granted outright. */
  datatype Account = Account(reputation: int, rights: set<string>)

  // ---- repchange --------------------------------------------------------

  /** The delta `repchange` records: the default, unless that would leave the
   *  reputation at or below zero, in which case exactly minus the reputation. */
  function ClampedDelta(reputation: int, default: int): (d: int)
    ensures reputation + d == if reputation + default <= 0 then 0 else reputation + default
  {
    if reputation + default <= 0 then -reputation else default
  }

  /** `repchange(enumstring)`: the recorded delta (`None` for an unknown enum,
   *  which changes nothing) and the new reputation. */
  function RepChanged(reputation: int, enums: map<string, int>, enumstring: string): (r: (Option<int>, int))
    ensures enumstring !in enums ==> r == (None, reputation)
    ensures r.0.Some? ==> r.1 == reputation + r.0.value
    ensures r.0.Some? ==> r.1 >= 0
    ensures enumstring in enums && reputation + enums[enumstring] > 0 ==> r == (Some(enums[enumstring]), reputation + enums[enumstring])
  {
    if enumstring !in enums then (None, reputation)
    else
      var d := ClampedDelta(reputation, enums[enumstring]);
      (Some(d), reputation + d)
  }

  /** `rollback_repchange` as written: when undoing the change would take the
   *  reputation below zero, the delta becomes `-reputation`, so subtracting
   *  it doubles the reputation. `None` (no change recorded) is a no-op. */
  function RolledBackAsWritten(reputation: int, change: Option<int>): int
  {
    match change
    case None => reputation
    case Some(delta) =>
      var d := if reputation - delta < 0 then -reputation else delta;
      reputation - d
  }

  /** The rollback the clamp evidently means: undo the change, but stop at zero. */
  function RolledBack(reputation: int, change: Option<int>): (r: int)
    ensures change.None? ==> r == reputation
    ensures change.Some? ==> r == if reputation - change.value < 0 then 0 else reputation - change.value
  {
    match change
    case None => reputation
    case Some(delta) =>
      var d := if reputation - delta < 0 then reputation else delta;
      reputation - d
  }

  /** The as-written rollback doubles a reputation the change exceeds: a user
   *  at 3 whose +5 upvote is rolled back ends at 6, not 0. */
  lemma RollbackDoubles(reputation: int, delta: int)
    requires reputation - delta < 0
    ensures RolledBackAsWritten(reputation, Some(delta)) == 2 * reputation
  {
  }

  lemma RollbackCounterexample()
    ensures RolledBackAsWritten(3, Some(5)) == 6
    ensures RolledBack(3, Some(5)) == 0
  {
    RollbackDoubles(3, 5);
  }

  /** Both versions keep the reputation non-negative (the as-written one
   *  only because doubling a non-negative number stays non-negative). */
  lemma RollbackNonNegative(reputation: int, change: Option<int>)
    requires reputation >= 0
    ensures RolledBackAsWritten(reputation, change) >= 0
    ensures RolledBack(reputation, change) >= 0
  {
  }

  /** Rolling back a change right after `repchange` recorded it restores the
   *  reputation, starting from any non-negative reputation. */
  lemma RepChangeRollback(reputation: int, enums: map<string, int>, enumstring: string)
    requires reputation >= 0
    ensures var (change, rep) := RepChanged(reputation, enums, enumstring);
      RolledBack(rep, change) == reputation
  {
  }

  /** The part of `User` that reputation changes touch. */
  class User {
    var reputation: int
    var rights: set<string>

    /** Reputation never goes below zero. */
    predicate Valid()
      reads this
    {
      reputation >= 0
    }

    constructor (rights: set<string>)
      ensures Valid() && reputation == 0 && this.rights == rights
    {
      reputation := 0;
      this.rights := rights;
    }

    /** `repchange(enumstring)`. */
    method RepChange(enums: map<string, int>, enumstring: string) returns (change: Option<int>)
      modifies this
      ensures (change, reputation) == RepChanged(old(reputation), enums, enumstring)
      ensures rights == old(rights)
      ensures change.Some? ==> Valid()
      ensures old(Valid()) ==> Valid()
    {
      if enumstring !in enums {
        return None;
      }
      var delta := enums[enumstring];
      if reputation + delta <= 0 {
        delta := -reputation;
      }
      reputation := reputation + delta;
      change := Some(delta);
    }

    /** `rollback_repchange(change)`, with the clamp stopping at zero. */
    method RollbackRepchange(change: Option<int>)
      modifies this
      ensures reputation == RolledBack(old(reputation), change)
      ensures rights == old(rights)
      ensures old(Valid()) ==> Valid()
    {
      if change.None? {
        return;
      }
      var delta;
      if reputation - change.value < 0 {
        delta := reputation;
      } else {
        delta := change.value;
      }
      reputation := reputation - delta;
    }
  }

  // ---- authorisation ----------------------------------------------------

  /** A truthy minimum reputation that the reputation reaches. */
  predicate ByReputation(reputation: int, minRep: Option<int>)
  {
    minRep.Some? && minRep.value != 0 && reputation >= minRep.value
  }

  /** `is_authorized(right)`: an unknown right is never granted. */
  predicate IsAuthorized(a: Account, rights: map<string, Option<int>>, right: string)
  {
    right in rights && (right in a.rights || ByReputation(a.reputation, rights[right]))
  }

  /** `is_auth_all(rights)`: stops at the first right not held. */
  method IsAuthAll(a: Account, rights: map<string, Option<int>>, wanted: seq<string>) returns (ok: bool)
    ensures ok <==> forall k :: 0 <= k < |wanted| ==> IsAuthorized(a, rights, wanted[k])
  {
    var i := 0;
    while i < |wanted|
      invariant 0 <= i <= |wanted|
      invariant forall k :: 0 <= k < i ==> IsAuthorized(a, rights, wanted[k])
    {
      if !IsAuthorized(a, rights, wanted[i]) {
        return false;
      }
      i := i + 1;
    }
    return true;
  }

  /** `is_auth_any(rights)`: stops at the first right held. */
  method IsAuthAny(a: Account, rights: map<string, Option<int>>, wanted: seq<string>) returns (ok: bool)
    ensures ok <==> exists k :: 0 <= k < |wanted| && IsAuthorized(a, rights, wanted[k])
  {
    var i := 0;
    while i < |wanted|
      invariant 0 <= i <= |wanted|
      invariant forall k :: 0 <= k < i ==> !IsAuthorized(a, rights, wanted[k])
    {
      if IsAuthorized(a, rights, wanted[i]) {
        return true;
      }
      i := i + 1;
    }
    return false;
  }

  /** The outright grant and the minimum reputation each suffice on their
   *  own, and with neither the right is refused. */
  lemma AuthorizedIff(a: Account, rights: map<string, Option<int>>, right: string)
    ensures right !in rights ==> !IsAuthorized(a, rights, right)
    ensures right in rights && right in a.rights ==> IsAuthorized(a, rights, right)
    ensures right in rights && ByReputation(a.reputation, rights[right]) ==> IsAuthorized(a, rights, right)
    ensures right in rights && rights[right] == Some(0) && right !in a.rights ==> !IsAuthorized(a, rights, right)
  {
  }

  /** Gaining reputation never costs a right. */
  lemma AuthorizedMonotone(a: Account, b: Account, rights: map<string, Option<int>>, right: string)
    requires a.rights <= b.rights && a.reputation <= b.reputation
    ensures IsAuthorized(a, rights, right) ==> IsAuthorized(b, rights, right)
  {
  }

  // ---- the anonymous user -----------------------------------------------

  /** The anonymous user's `is_authorized`, `is_auth_all` and `is_auth_any`. */
  function AnonymousAuthorized(wanted: seq<string>): (ok: bool)
    ensures !ok
  {
    false
  }

  /** The anonymous user's `get_vote`: never a ballot. */
  function AnonymousVote<V>(entity: V): (r: Option<nat>)
    ensures r.None?
  {
    None
  }
}
