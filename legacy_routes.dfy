/**
 * The first version of the reading and annotating routes: the line range
 * typed into the reading page's line form, the range in the annotate URL
 * and in the annotation form, the tag check of that form, and the toggle of
 * the annotation vote routes.
 *
 * `read` as written hands the line form's `IntegerField` data to
 * `is_filled`, which raises on it (`ReadAsWritten`); `ReadFields` and
 * `ReadRange` model the evidently intended reading of the two fields as
 * typed text. A field is filled when it holds a character other than white
 * space. Numbers are read with Python's `int`, whose `ValueError` becomes
 * `Err(ValueError)`.
 */
module LegacyRoutes {
  import opened Wrappers
  import opened Strings
  import opened Ballots
  import Funky

  predicate Filled(data: string)
  {
    Strip(data) != ""
  }

  /** The clamps `read` applies after the line numbers are read: a range of
   *  more than five lines is cut to the five ending at the last line, then
   *  both bounds are raised to at least 1. */
  function ReadClamp(fl: int, ll: int): (r: (int, int))
    ensures r.1 - r.0 <= 5
    ensures r.0 >= 1 && r.1 >= 1
    ensures ll >= 1 ==> r.1 == ll
    ensures 1 <= fl && ll - fl <= 5 ==> r == (fl, ll) || ll < 1
  {
    var fl1 := if ll - fl > 5 then ll - 4 else fl;
    var fl2 := if fl1 < 1 then 1 else fl1;
    if ll < 1 then (1, 1) else (fl2, ll)
  }

  /** The data of a line form field: `IntegerField` with the `Optional`
   *  validator holds a number, or `None` when the field was left empty. */
  function IntegerFieldData(d: Option<int>): Funky.FieldData
  {
    match d
    case None => Funky.NoData
    case Some(n) => Funky.Number(n)
  }

  /** `read` as written, on the data of a submitted line form: the first
   *  test, `is_filled(form.first_line.data)`, strips a number or `None`,
   *  so every submission that validates raises `AttributeError` and the
   *  route never redirects. */
  function ReadAsWritten(first: Option<int>, last: Option<int>): (r: Result<Option<(int, int)>>)
    ensures r == Err(AttributeError)
  {
    match Funky.IsFilled(IntegerFieldData(first))
    case Err(e) => Err(e)
    case Ok(_) => assert false; Ok(None)
  }

  /** The read form as written raises where the intended reading of the
   *  same bounds, typed as text, redirects with them: any short range such
   *  as 3 to 7. */
  lemma ReadAsWrittenRaises(fl: int, ll: int)
    requires 1 <= fl <= ll <= fl + 5
    ensures ReadAsWritten(Some(fl), Some(ll)) == Err(AttributeError)
    ensures ReadRange(ShowInt(fl), ShowInt(ll)) == Ok(Some((fl, ll)))
  {
    PyIntShowInt(fl);
    PyIntShowInt(ll);
    ReadRangeOfNumbers(ShowInt(fl), ShowInt(ll), fl, ll);
  }

  lemma ReadRangeOfNumbers(first: string, last: string, fl: int, ll: int)
    requires PyInt(first) == Some(fl) && PyInt(last) == Some(ll)
    requires 1 <= fl <= ll <= fl + 5
    ensures ReadRange(first, last) == Ok(Some((fl, ll)))
  {
    ReadFieldsOfNumbers(first, last, fl, ll);
    ReadClampKeeps(fl, ll);
  }

  lemma ReadFieldsOfNumbers(first: string, last: string, fl: int, ll: int)
    requires PyInt(first) == Some(fl) && PyInt(last) == Some(ll)
    ensures ReadFields(first, last) == Ok(Some((fl, ll)))
  {
    assert Filled(first) && Filled(last);
  }

  /** The bounds `read` takes from the two fields before clamping: a
   *  missing bound is copied from the other; `None` when neither field is
   *  filled. */
  function ReadFields(first: string, last: string): (r: Result<Option<(int, int)>>)
    ensures r == Ok(None) <==> !Filled(first) && !Filled(last)
    ensures r.Ok? && r.value.Some? && !Filled(first) ==> r.value.value.0 == r.value.value.1
    ensures r.Ok? && r.value.Some? && !Filled(last) ==> r.value.value.0 == r.value.value.1
  {
    if !Filled(first) && !Filled(last) then Ok(None)
    else if !Filled(first) then
      (match PyInt(last)
       case None => Err(ValueError)
       case Some(ll) => Ok(Some((ll, ll))))
    else if !Filled(last) then
      (match PyInt(first)
       case None => Err(ValueError)
       case Some(fl) => Ok(Some((fl, fl))))
    else if PyInt(first).None? || PyInt(last).None? then Err(ValueError)
    else Ok(Some((PyInt(first).value, PyInt(last).value)))
  }

  /** The range `read` redirects to the annotate page with: `None` when
   *  neither field is filled (the route only flashes a message). */
  function ReadRange(first: string, last: string): (r: Result<Option<(int, int)>>)
    ensures r == Ok(None) <==> ReadFields(first, last) == Ok(None)
    ensures r.Err? <==> ReadFields(first, last).Err?
    ensures r.Ok? && r.value.Some? ==> 1 <= r.value.value.0 && 1 <= r.value.value.1 && r.value.value.1 - r.value.value.0 <= 5
  {
    match ReadFields(first, last)
    case Err(e) => Err(e)
    case Ok(None) => Ok(None)
    case Ok(Some((fl, ll))) => Ok(Some(ReadClamp(fl, ll)))
  }

  /** A filled bound is copied into the missing one. */
  lemma ReadRangeCopies(first: string, last: string, n: int)
    requires PyInt(first) == Some(n) && !Filled(last)
    ensures ReadRange(first, last) == Ok(Some(if n < 1 then (1, 1) else (n, n)))
  {
  }

  /** `read` does not put the bounds in order: a reversed range stays reversed. */
  lemma ReadKeepsReversal()
    ensures ReadClamp(10, 3) == (10, 3)
  {
  }

  /** `read` forwards every range of at most six lines starting at line 1 or
   *  later unchanged. */
  lemma ReadClampKeeps(fl: int, ll: int)
    requires 1 <= fl <= ll <= fl + 5
    ensures ReadClamp(fl, ll) == (fl, ll)
  {
  }

  /** The range of the annotate URL: reversed bounds are swapped, then a
   *  first line below 1 becomes 1, and a last line below 1 makes both 1. */
  function AnnotateBounds(first: string, last: string): (r: Result<(int, int)>)
    ensures r.Ok? ==> 1 <= r.value.0 <= r.value.1
    ensures r.Err? <==> PyInt(first).None? || PyInt(last).None?
    ensures r.Ok? ==> multiset{r.value.0, r.value.1} == multiset{PyInt(first).value, PyInt(last).value}
                       || r.value.0 == 1 || r.value == (1, 1)
  {
    match (PyInt(first), PyInt(last))
    case (Some(a), Some(b)) => Ok(SwappedClamp(a, b))
    case _ => Err(ValueError)
  }

  /** Swap, then clamp: the arithmetic of `AnnotateBounds`. */
  function SwappedClamp(a: int, b: int): (r: (int, int))
    ensures 1 <= r.0 <= r.1
    ensures multiset{r.0, r.1} == multiset{a, b} || r.0 == 1 || r == (1, 1)
  {
    var (f, l) := if a > b then (b, a) else (a, b);
    var f1 := if f < 1 then 1 else f;
    if l < 1 then (1, 1) else (f1, l)
  }

  /** Bounds that are already in order and positive are kept; reversed ones
   *  are swapped. */
  lemma AnnotateBoundsKeeps(first: string, last: string, a: int, b: int)
    requires PyInt(first) == Some(a) && PyInt(last) == Some(b)
    requires a >= 1 && b >= 1
    ensures AnnotateBounds(first, last) == Ok(if a <= b then (a, b) else (b, a))
  {
  }

  /** The range of the submitted annotation form: each bound raised to 1,
   *  and a last line below 1 makes both 1; the bounds are not ordered. */
  function FormBounds(first: string, last: string): (r: Result<(int, int)>)
    ensures r.Ok? ==> r.value.0 >= 1 && r.value.1 >= 1
    ensures r.Err? <==> PyInt(first).None? || PyInt(last).None?
    ensures r.Ok? && PyInt(first).value >= 1 && PyInt(last).value >= 1 ==> r.value == (PyInt(first).value, PyInt(last).value)
  {
    match (PyInt(first), PyInt(last))
    case (Some(fl), Some(ll)) =>
      if ll < 1 then Ok((1, 1)) else Ok((if fl < 1 then 1 else fl, ll))
    case _ => Err(ValueError)
  }

  // ---- the tag check ---------------------------------------------------

  /** What the tag check decides: the tags to attach, or a redisplay of the form. */
  datatype TagVerdict = Accepted(tags: seq<string>) | Rejected

  /** The tag check of `annotate`: any unknown tag rejects, and so do more
   *  than five tags. */
  function TagCheck(data: string, known: set<string>): (v: TagVerdict)
    ensures v.Accepted? <==> (forall k :: 0 <= k < |Words(data)| ==> Words(data)[k] in known) && |Words(data)| <= 5
    ensures v.Accepted? ==> v.tags == Words(data)
  {
    var raw := Words(data);
    var tags := KeepIn(raw, known);
    var fail := exists k :: 0 <= k < |raw| && raw[k] !in known;
    if fail then Rejected
    else if |tags| > 5 then Rejected
    else Accepted(tags)
  }

  /** The tag check of `annotate`: the scan over the raw tags, then the count limit. */
  method CheckTags(data: string, known: set<string>) returns (v: TagVerdict)
    ensures v == TagCheck(data, known)
  {
    var raw := Words(data);
    var tags, allKnown := ScanKnown(raw, known);
    if !allKnown {
      return Rejected;
    } else if |tags| > 5 {
      return Rejected;
    }
    return Accepted(tags);
  }

  // ---- the annotation vote routes ---------------------------------------

  /** An annotation as the vote routes see it: its author, weight and ballots. */
  class VotedAnnotation {
    var author: nat
    var weight: int
    var votes: seq<Vote>

    function State(): Tally
      reads this
    {
      Tally(weight, votes)
    }

    /** `rollback(vote)` on the ballot at position `i`. */
    method Rollback(i: nat)
      requires i < |votes|
      modifies this
      ensures State() == RolledBack(old(State()), i) && author == old(author)
    {
      weight := weight - votes[i].delta;
      votes := RemoveAt(votes, i);
    }

    /** `upvote(voter)` / `downvote(voter)` with the voter's vote power. */
    method Cast(voter: nat, power: int)
      modifies this
      ensures State() == Ballots.Cast(old(State()), voter, power) && author == old(author)
    {
      weight := weight + power;
      votes := votes + [Vote(voter, power)];
    }
  }

  /** What the `upvote` (`up`) and `downvote` routes do to the annotation:
   *  nothing for its author, the toggle for anyone else. */
  function RouteVoted(t: Tally, author: nat, voter: nat, up: bool, power: int): Tally
  {
    if voter == author then t else Toggled(t, voter, up, power)
  }

  /** `upvote(anno_id)`. */
  method UpvoteRoute(a: VotedAnnotation, voter: nat, upPower: int)
    requires upPower > 0
    modifies a
    ensures a.State() == RouteVoted(old(a.State()), old(a.author), voter, true, upPower)
  {
    if voter == a.author {
      return;
    }
    var found := FindVote(a.votes, voter);
    if found.Some? {
      if IsUp(a.votes[found.value]) {
        a.Rollback(found.value);
        return;
      } else {
        a.Rollback(found.value);
      }
    }
    a.Cast(voter, upPower);
  }

  /** `downvote(anno_id)`. */
  method DownvoteRoute(a: VotedAnnotation, voter: nat, downPower: int)
    requires downPower < 0
    modifies a
    ensures a.State() == RouteVoted(old(a.State()), old(a.author), voter, false, downPower)
  {
    if voter == a.author {
      return;
    }
    var found := FindVote(a.votes, voter);
    if found.Some? {
      if !IsUp(a.votes[found.value]) {
        a.Rollback(found.value);
        return;
      } else {
        a.Rollback(found.value);
      }
    }
    a.Cast(voter, downPower);
  }

  /** The author's own votes change nothing; with an up ballot in place,
   *  `upvote` only rolls it back; with a down ballot, it rolls it back and
   *  casts an up ballot; `downvote` mirrors both. Every voter keeps at most
   *  one ballot, and the weight stays the ballot sum plus the same offset. */
  lemma RouteVoteCases(t: Tally, author: nat, voter: nat, up: bool, power: int)
    requires AtMostOne(t.votes)
    requires up <==> power > 0
    ensures voter == author ==> RouteVoted(t, author, voter, up, power) == t
    ensures voter != author && Held(t.votes, voter) == Some(up) ==>
      RouteVoted(t, author, voter, up, power) == RolledBack(t, FindVote(t.votes, voter).value)
    ensures voter != author && Held(t.votes, voter) == Some(!up) ==>
      RouteVoted(t, author, voter, up, power)
        == Ballots.Cast(RolledBack(t, FindVote(t.votes, voter).value), voter, power)
    ensures voter != author && Held(t.votes, voter).None? ==>
      RouteVoted(t, author, voter, up, power) == Ballots.Cast(t, voter, power)
    ensures AtMostOne(RouteVoted(t, author, voter, up, power).votes)
    ensures var r := RouteVoted(t, author, voter, up, power); r.weight - Sum(r.votes) == t.weight - Sum(t.votes)
  {
    if voter != author {
      ToggleShape(t, voter, up, power);
    }
  }
}
