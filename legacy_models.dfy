/**
 * The vote logic of the single-file model module: votes on annotation
 * edits and wiki edits, the approval and rejection thresholds, votes on
 * annotations with their reputation changes, and `is_authorized`.
 *
 * An edit (or wiki edit) is pending until approved or rejected. Its editor
 * cannot vote on it. A repeated vote in the same direction only rolls the
 * old ballot back; a vote in the other direction rolls it back and casts a
 * new ballot of plus or minus one. After a new ballot, an up vote approves
 * the edit once the weight reaches the approval margin or the voter holds
 * the immediate-edit right, and a down vote rejects it at the rejection
 * margin or by the same right. The immediate-edit right is passed as the
 * result of `is_authorized`, evaluated only when the margin is not reached.
 *
 * The module reads the margins from `app.config` but never binds `app`, so
 * as written every vote that casts a new ballot raises `NameError` before
 * any decision (`VotedAsWritten`). `Voted`, which the edit records use,
 * models the evidently intended decision, with the margins as parameters.
 */
module LegacyModels {
  import opened Wrappers
  import opened Ballots
  import Reputation

  /** `User.is_authorized` of this module: the right is looked up first, and
   *  an unknown right is `None`, whose `min_rep` raises `AttributeError`. */
  function LegacyAuthorized(a: Reputation.Account, rights: map<string, Option<int>>, right: string): (r: Result<bool>)
    ensures right !in rights <==> r == Err(AttributeError)
    ensures right in rights ==> r == Ok(Reputation.IsAuthorized(a, rights, right))
  {
    if right !in rights then Err(AttributeError)
    else Ok(right in a.rights || Reputation.ByReputation(a.reputation, rights[right]))
  }

  /** The fields of an edit the votes touch. */
  datatype EditState = EditState(weight: int, votes: seq<Vote>, approved: bool, rejected: bool,
                                 current: bool, editor: nat)

  predicate Pending(s: EditState)
  {
    !s.approved && !s.rejected
  }

  /** `approve()` (on this edit's side) or `reject()`. */
  function Decided(s: EditState, up: bool): EditState
  {
    if up then s.(approved := true, current := true) else s.(rejected := true)
  }

  /** The edit once the vote's ballots are in: the voter's old ballot
   *  rolled back, and a new one cast unless the vote repeats the old one. */
  function Balloted(s: EditState, voter: nat, up: bool): EditState
  {
    var t := Toggled(Tally(s.weight, s.votes), voter, up, if up then 1 else -1);
    s.(weight := t.weight, votes := t.votes)
  }

  /** `Edit.upvote` (`up`) or `Edit.downvote`, with the margin the module
   *  evidently means to read. */
  function Voted(s: EditState, voter: nat, up: bool, margin: int, authorized: Result<bool>): (Outcome, EditState)
  {
    if !Pending(s) || s.editor == voter then (Ignored, s)
    else if Held(s.votes, voter) == Some(up) then (Applied, Balloted(s, voter, up))
    else Settled(Balloted(s, voter, up), up, margin, authorized)
  }

  /** `Edit.upvote` / `downvote` (and `WikiEdit`'s) as written: once the new
   *  ballot is in, `app.config[...]` names an unbound `app` and raises
   *  `NameError`; the ballot and the weight change stay. */
  function VotedAsWritten(s: EditState, voter: nat, up: bool): (Outcome, EditState)
  {
    if !Pending(s) || s.editor == voter then (Ignored, s)
    else if Held(s.votes, voter) == Some(up) then (Applied, Balloted(s, voter, up))
    else (Threw(NameError), Balloted(s, voter, up))
  }

  /** As written, a vote that casts a new ballot, such as a first up vote
   *  on a pending edit by someone other than its editor, raises `NameError`
   *  with the ballot cast and nothing decided, where the intended vote,
   *  given an answer from `is_authorized`, completes. Every other vote
   *  behaves as intended. */
  lemma VoteAsWrittenRaises(s: EditState, voter: nat, up: bool, margin: int, authorized: Result<bool>)
    ensures var (o, r) := VotedAsWritten(s, voter, up);
      var (o', r') := Voted(s, voter, up, margin, authorized);
      if Pending(s) && s.editor != voter && Held(s.votes, voter) != Some(up) then
        && o == Threw(NameError) && Pending(r)
        && r.weight == r'.weight && r.votes == r'.votes
        && r.votes[|r.votes| - 1] == Vote(voter, if up then 1 else -1)
        && (authorized.Ok? ==> o' == Applied)
      else (o, r) == (o', r')
  {
  }

  /** The decision after the new ballot is in: the margin, then the voter's
   *  `immediate_edits` right. */
  function Settled(s: EditState, up: bool, margin: int, authorized: Result<bool>): (Outcome, EditState)
  {
    if (if up then s.weight >= margin else s.weight <= margin) then (Applied, Decided(s, up))
    else match authorized
      case Err(e) => (Threw(e), s)
      case Ok(true) => (Applied, Decided(s, up))
      case Ok(false) => (Applied, s)
  }

  /** A closed edit, or a vote by its editor, changes nothing. */
  lemma VoteRefused(s: EditState, voter: nat, up: bool, margin: int, authorized: Result<bool>)
    requires !Pending(s) || s.editor == voter
    ensures Voted(s, voter, up, margin, authorized) == (Ignored, s)
  {
  }

  /** A second vote in the same direction rolls the first back and decides
   *  nothing: the weight drops back by one and the voter holds no ballot. */
  lemma VoteRepeated(s: EditState, voter: nat, up: bool, margin: int, authorized: Result<bool>)
    requires Pending(s) && s.editor != voter
    requires AtMostOne(s.votes) && UnitVotes(s.votes)
    requires Held(s.votes, voter) == Some(up)
    ensures var (o, r) := Voted(s, voter, up, margin, authorized);
      && o == Applied && Pending(r)
      && r.weight == s.weight - (if up then 1 else -1)
      && Held(r.votes, voter) == None
      && r.current == s.current
  {
    ToggleShape(Tally(s.weight, s.votes), voter, up, if up then 1 else -1);
  }

  /** A vote against the voter's earlier ballot moves the weight by two. A
   *  first vote moves it by one. Either way the voter then holds one ballot
   *  in the new direction. */
  lemma VoteCast(s: EditState, voter: nat, up: bool, margin: int, authorized: Result<bool>)
    requires Pending(s) && s.editor != voter
    requires AtMostOne(s.votes) && UnitVotes(s.votes)
    requires Held(s.votes, voter) != Some(up)
    ensures var (o, r) := Voted(s, voter, up, margin, authorized);
      var d := if up then 1 else -1;
      && r.weight == s.weight + (if Held(s.votes, voter).None? then d else 2 * d)
      && Held(r.votes, voter) == Some(up)
      && AtMostOne(r.votes)
  {
    ToggleShape(Tally(s.weight, s.votes), voter, up, if up then 1 else -1);
    UnitToggleWeight(Tally(s.weight, s.votes), voter, up);
  }

  /** When the vote casts a new ballot, the edit is approved (up) or rejected
   *  (down) exactly when the margin is reached or the voter holds the
   *  immediate-edit right; it never ends both approved and rejected. */
  lemma VoteThreshold(s: EditState, voter: nat, up: bool, margin: int, authorized: Result<bool>)
    requires Pending(s) && s.editor != voter
    requires Held(s.votes, voter) != Some(up)
    ensures var (o, r) := Voted(s, voter, up, margin, authorized);
      var reached := if up then r.weight >= margin else r.weight <= margin;
      && !(r.approved && r.rejected)
      && (o.Threw? <==> !reached && authorized.Err?)
      && (up ==> (r.approved <==> reached || authorized == Ok(true)) && !r.rejected)
      && (!up ==> (r.rejected <==> reached || authorized == Ok(true)) && !r.approved)
      && (r.approved ==> r.current)
  {
  }

  /** An annotation edit or a wiki edit as the vote methods change it. */
  class EditRecord {
    var weight: int
    var votes: seq<Vote>
    var approved: bool
    var rejected: bool
    var current: bool
    var editor: nat

    function State(): EditState
      reads this
    {
      EditState(weight, votes, approved, rejected, current, editor)
    }

    /** `EditMixin.rollback(vote)` for the ballot at position `i`. */
    method Rollback(i: nat)
      requires i < |votes|
      modifies this
      ensures Tally(weight, votes) == RolledBack(Tally(old(weight), old(votes)), i)
      ensures approved == old(approved) && rejected == old(rejected)
      ensures current == old(current) && editor == old(editor)
    {
      weight := weight - votes[i].delta;
      votes := RemoveAt(votes, i);
    }

    /** `EditMixin.reject()`. */
    method Reject()
      modifies this
      ensures State() == old(State()).(rejected := true)
    {
      rejected := true;
    }

    /** `approve()`: the edit is approved and becomes current in place of
     *  the entity's current edit `head` (`annotation.HEAD` /
     *  `wiki.current`). */
    method Approve(head: EditRecord)
      modifies this, head
      ensures State() == old(State()).(approved := true, current := true)
      ensures head != this ==> head.State() == old(head.State()).(current := false)
    {
      head.current := false;
      approved := true;
      current := true;
    }

    /** `upvote(voter)`. */
    method Upvote(voter: nat, head: EditRecord, margin: int, authorized: Result<bool>) returns (outcome: Outcome)
      modifies this, head
      ensures (outcome, State()) == Voted(old(State()), voter, true, margin, authorized)
      ensures head != this ==>
        head.State() == old(head.State()).(current := if approved && !old(approved) then false else old(head.current))
    {
      if approved || rejected {
        return Ignored;
      }
      if editor == voter {
        return Ignored;
      }
      ghost var s0 := State();
      var ov := FindVote(votes, voter);
      if ov.Some? {
        if IsUp(votes[ov.value]) {
          Rollback(ov.value);
          return Applied;
        } else {
          Rollback(ov.value);
        }
      }
      weight := weight + 1;
      votes := votes + [Vote(voter, 1)];
      assert Tally(weight, votes) == Toggled(Tally(s0.weight, s0.votes), voter, true, 1);
      outcome := SettleUp(head, margin, authorized);
    }

    /** The tail of `upvote` once the ballot is cast: approve on the margin
     *  or on the immediate-edit right. */
    method SettleUp(head: EditRecord, margin: int, authorized: Result<bool>) returns (outcome: Outcome)
      requires !approved
      modifies this, head
      ensures (outcome, State()) == Settled(old(State()), true, margin, authorized)
      ensures head != this ==>
        head.State() == old(head.State()).(current := if approved && !old(approved) then false else old(head.current))
    {
      if weight >= margin {
        Approve(head);
        return Applied;
      }
      if authorized.Err? {
        return Threw(authorized.error);
      }
      if authorized.value {
        Approve(head);
      }
      return Applied;
    }

    /** `downvote(voter)`. */
    method Downvote(voter: nat, margin: int, authorized: Result<bool>) returns (outcome: Outcome)
      modifies this
      ensures (outcome, State()) == Voted(old(State()), voter, false, margin, authorized)
    {
      if approved || rejected {
        return Ignored;
      }
      if editor == voter {
        return Ignored;
      }
      var ov := FindVote(votes, voter);
      if ov.Some? {
        if !IsUp(votes[ov.value]) {
          Rollback(ov.value);
          return Applied;
        } else {
          Rollback(ov.value);
        }
      }
      weight := weight - 1;
      votes := votes + [Vote(voter, -1)];
      if weight <= margin {
        Reject();
        return Applied;
      }
      if authorized.Err? {
        return Threw(authorized.error);
      }
      if authorized.value {
        Reject();
      }
      return Applied;
    }
  }

  // ---- votes on annotations -------------------------------------------

  /** A ballot on an annotation also records the reputation change it gave
   *  the annotator. */
  datatype Ballot = Ballot(voter: nat, delta: int, repDelta: int)

  /** `Annotation.downvote`'s reputation delta: the default, unless the
   *  annotator would fall below zero, in which case exactly minus the
   *  reputation. */
  function DownvoteRepDelta(reputation: int, default: int): (d: int)
    ensures reputation + d == if reputation + default < 0 then 0 else reputation + default
  {
    if reputation + default < 0 then -reputation else default
  }

  /** The annotation's weight, its annotator's reputation, and its ballots. */
  class ScoredAnnotation {
    var weight: int
    var reputation: int
    var ballots: seq<Ballot>

    /** `Annotation.upvote(voter)`: the weight gains the voter's up power,
     *  the annotator the upvote default; neither is clamped. */
    method Upvote(voter: nat, power: int, default: int)
      modifies this
      ensures weight == old(weight) + power && reputation == old(reputation) + default
      ensures ballots == old(ballots) + [Ballot(voter, power, default)]
    {
      ballots := ballots + [Ballot(voter, power, default)];
      reputation := reputation + default;
      weight := weight + power;
    }

    /** `Annotation.downvote(voter)`: the weight gains the (negative) down
     *  power; the annotator's reputation moves by the default but stops at
     *  zero, and the ballot records the move actually made. */
    method Downvote(voter: nat, power: int, default: int)
      modifies this
      ensures weight == old(weight) + power
      ensures reputation == if old(reputation) + default < 0 then 0 else old(reputation) + default
      ensures ballots == old(ballots) + [Ballot(voter, power, reputation - old(reputation))]
    {
      var repdelta := if reputation + default < 0 then -reputation else default;
      ballots := ballots + [Ballot(voter, power, repdelta)];
      weight := weight + power;
      reputation := reputation + repdelta;
    }

    /** `Annotation.rollback(vote)` for the ballot at position `i`, with the
     *  reputation clamp stopping at zero. */
    method Rollback(i: nat)
      requires i < |ballots|
      modifies this
      ensures weight == old(weight) - old(ballots[i].delta)
      ensures reputation == Reputation.RolledBack(old(reputation), Some(old(ballots[i].repDelta)))
      ensures ballots == old(ballots[..i] + ballots[i + 1..])
    {
      var b := ballots[i];
      weight := weight - b.delta;
      var delta := if reputation - b.repDelta < 0 then reputation else b.repDelta;
      reputation := reputation - delta;
      ballots := ballots[..i] + ballots[i + 1..];
    }
  }

  /** The downvote clamp keeps a non-negative reputation non-negative, and a
   *  downvote followed by its rollback restores it. */
  lemma DownvoteClamp(reputation: int, default: int)
    requires reputation >= 0
    ensures reputation + DownvoteRepDelta(reputation, default) >= 0
    ensures Reputation.RolledBack(reputation + DownvoteRepDelta(reputation, default),
                                  Some(DownvoteRepDelta(reputation, default))) == reputation
  {
  }

  /** As written, `Annotation.rollback` takes the same doubling branch as
   *  `rollback_repchange`: an annotator at 0 gets a +5 upvote, a downvote
   *  of -2 brings them to 3, and rolling the upvote back then leaves 6
   *  where the clamp means 0. */
  lemma AnnotationRollbackDoubles()
    ensures var up := 0 + 5;
      var down := up + DownvoteRepDelta(up, -2);
      && down == 3
      && Reputation.RolledBackAsWritten(down, Some(5)) == 6
      && Reputation.RolledBack(down, Some(5)) == 0
  {
    Reputation.RollbackDoubles(3, 5);
  }
}
