/**
 * Text and tag requests and the routes that vote on them.
 *
 * A request carries a weight, its ballots, and `approved` / `rejected`
 * flags; its page is a wiki whose body is the requester's description.
 * `TextRequest` and `TagRequest` define `upvote`, `downvote` and `rollback`
 * identically: every ballot is worth exactly one. The two vote routes
 * toggle: an existing ballot is rolled back first, and when it pointed the
 * same way the route stops there.
 */
module Requests {
  import opened Wrappers
  import opened Ballots
  import opened Strings

  const BlankWiki := "This wiki is blank."

  class Request {
    var weight: int
    var votes: seq<Vote>
    var approved: bool
    var rejected: bool
    var wikiBody: string

    function State(): Tally
      reads this
    {
      Tally(weight, votes)
    }

    /** A new request: weight 0, no ballots, pending. */
    constructor (description: Option<string>)
      ensures State() == Tally(0, [])
      ensures !approved && !rejected
      ensures wikiBody == Defaulted(description, BlankWiki)
    {
      weight := 0;
      votes := [];
      approved := false;
      rejected := false;
      wikiBody := Defaulted(description, BlankWiki);
    }

    /** `rollback(vote)` for the ballot at position `i`. */
    method Rollback(i: nat)
      requires i < |votes|
      modifies this
      ensures State() == RolledBack(old(State()), i)
      ensures approved == old(approved) && rejected == old(rejected) && wikiBody == old(wikiBody)
    {
      weight := weight - votes[i].delta;
      votes := RemoveAt(votes, i);
    }

    /** `upvote(voter)`: a ballot worth +1. */
    method Upvote(voter: nat)
      modifies this
      ensures State() == Cast(old(State()), voter, 1)
      ensures approved == old(approved) && rejected == old(rejected) && wikiBody == old(wikiBody)
    {
      weight := weight + 1;
      votes := votes + [Vote(voter, 1)];
    }

    /** `downvote(voter)`: a ballot worth -1. */
    method Downvote(voter: nat)
      modifies this
      ensures State() == Cast(old(State()), voter, -1)
      ensures approved == old(approved) && rejected == old(rejected) && wikiBody == old(wikiBody)
    {
      weight := weight - 1;
      votes := votes + [Vote(voter, -1)];
    }

    /** `reject()`: sets `rejected` and nothing else. */
    method Reject()
      modifies this
      ensures rejected
      ensures State() == old(State()) && approved == old(approved) && wikiBody == old(wikiBody)
    {
      rejected := true;
    }
  }

  /** `upvote_tag_request`. */
  method UpvoteRequest(r: Request, voter: nat)
    modifies r
    ensures r.State() == Toggled(old(r.State()), voter, true, 1)
    ensures r.approved == old(r.approved) && r.rejected == old(r.rejected)
  {
    var found := FindVote(r.votes, voter);
    if found.Some? {
      var rd := IsUp(r.votes[found.value]);
      r.Rollback(found.value);
      if rd {
        return;
      }
    }
    r.Upvote(voter);
  }

  /** `downvote_tag_request`. */
  method DownvoteRequest(r: Request, voter: nat)
    modifies r
    ensures r.State() == Toggled(old(r.State()), voter, false, -1)
    ensures r.approved == old(r.approved) && r.rejected == old(r.rejected)
  {
    var found := FindVote(r.votes, voter);
    if found.Some? {
      var rd := !IsUp(r.votes[found.value]);
      r.Rollback(found.value);
      if rd {
        return;
      }
    }
    r.Downvote(voter);
  }

  /** The three cases of the up route: no ballot gives +1 and an up ballot;
   *  an up ballot is undone (-1, no ballot left); a down ballot is replaced
   *  by an up one (+2). The down route mirrors them. Either way the voter
   *  holds at most one ballot afterwards and nobody else's ballot moves. */
  lemma RequestToggle(t: Tally, voter: nat, up: bool, other: nat)
    requires AtMostOne(t.votes) && UnitVotes(t.votes)
    requires other != voter
    ensures var d := if up then 1 else -1;
      var r := Toggled(t, voter, up, d);
      && AtMostOne(r.votes)
      && (Held(t.votes, voter) == None ==> r.weight == t.weight + d && Held(r.votes, voter) == Some(up))
      && (Held(t.votes, voter) == Some(up) ==> r.weight == t.weight - d && Held(r.votes, voter) == None)
      && (Held(t.votes, voter) == Some(!up) ==> r.weight == t.weight + 2 * d && Held(r.votes, voter) == Some(up))
      && Held(r.votes, other) == Held(t.votes, other)
  {
    var d := if up then 1 else -1;
    ToggleShape(t, voter, up, d);
    UnitToggleWeight(t, voter, up);
    ToggleElsewhere(t, voter, up, d, other);
  }

  /** A toggle keeps every ballot a plain +1 or -1. */
  lemma ToggleKeepsUnit(t: Tally, voter: nat, up: bool)
    requires UnitVotes(t.votes)
    ensures UnitVotes(Toggled(t, voter, up, if up then 1 else -1).votes)
  {
    var d := if up then 1 else -1;
    match FindVote(t.votes, voter)
    case None =>
    case Some(i) =>
      var rb := RolledBack(t, i);
      assert forall k :: 0 <= k < |rb.votes| ==> rb.votes[k] in t.votes;
  }

  // ---- the request index ------------------------------------------------

  /** A row of the request table as the index sees it. */
  datatype Row = Row(id: nat, approved: bool, rejected: bool)

  const Sorts: set<string> := {"tag", "weight", "oldest", "newest"}

  /** The rows that are still pending, in query order. */
  function PendingRows(rows: seq<Row>): (r: seq<Row>)
    ensures forall k :: 0 <= k < |r| ==> !r[k].approved && !r[k].rejected && r[k] in rows
    ensures forall k :: 0 <= k < |rows| && !rows[k].approved && !rows[k].rejected ==> rows[k] in r
  {
    if rows == [] then []
    else (if !rows[0].approved && !rows[0].rejected then [rows[0]] else []) + PendingRows(rows[1..])
  }

  /** Page `p` of `perPage` rows each: the rows from offset
   *  `(p - 1) * perPage`, fewer on the last page, none past the end. */
  function PageItems(rows: seq<Row>, p: int, perPage: nat): (items: seq<Row>)
    requires p >= 1 && perPage > 0
    ensures |items| <= perPage
    ensures forall k :: 0 <= k < |items| ==> items[k] in rows
  {
    var start := (p - 1) * perPage;
    if start >= |rows| then []
    else rows[start..if start + perPage <= |rows| then start + perPage else |rows|]
  }

  /** `tag_request_index`: an unknown sort key falls back to `weight`; the
   *  pending rows of the query for that key are cut into pages of
   *  `perPage`, and an empty page past the first is a 404. `ordered(k)` is
   *  the table ordered by key `k`; a page below 1 reads as page 1. */
  function TagRequestIndex(sort: string, page: int, perPage: nat, ordered: string -> seq<Row>)
    : (r: Result<(string, seq<Row>)>)
    requires perPage > 0
    ensures r.Ok? ==> r.value.0 in Sorts && (sort in Sorts ==> r.value.0 == sort)
    ensures r.Ok? && sort !in Sorts ==> r.value.0 == "weight"
    ensures r.Ok? ==> forall k :: 0 <= k < |r.value.1| ==>
      !r.value.1[k].approved && !r.value.1[k].rejected && r.value.1[k] in ordered(r.value.0)
    ensures r.Ok? ==> |r.value.1| <= perPage
    ensures r.Err? ==> r.error == NotFound && page > 1
  {
    var key := if sort in Sorts then sort else "weight";
    var pending := PendingRows(ordered(key));
    var items := PageItems(pending, if page < 1 then 1 else page, perPage);
    if items == [] && page > 1 then Err(NotFound) else Ok((key, items))
  }

  /** The first page lists the first pending rows, and no page 404s when
   *  there are more pending rows than the pages before it hold. */
  lemma IndexPages(sort: string, page: int, perPage: nat, ordered: string -> seq<Row>)
    requires perPage > 0
    ensures var key := if sort in Sorts then sort else "weight";
      var pending := PendingRows(ordered(key));
      (page >= 1 && (page - 1) * perPage < |pending| ==> TagRequestIndex(sort, page, perPage, ordered).Ok?)
      && (page <= 1 ==> TagRequestIndex(sort, page, perPage, ordered)
                          == Ok((key, if perPage <= |pending| then pending[..perPage] else pending)))
  {
    var key := if sort in Sorts then sort else "weight";
    var pending := PendingRows(ordered(key));
    if page >= 1 && (page - 1) * perPage < |pending| {
      PageNonEmpty(pending, page, perPage);
    }
    if page <= 1 {
      PageFirst(pending, perPage);
    }
  }

  lemma PageNonEmpty(rows: seq<Row>, p: int, perPage: nat)
    requires p >= 1 && perPage > 0 && (p - 1) * perPage < |rows|
    ensures PageItems(rows, p, perPage) != []
  {
    var start := (p - 1) * perPage;
    assert |rows[start..if start + perPage <= |rows| then start + perPage else |rows|]| > 0;
  }

  lemma PageFirst(rows: seq<Row>, perPage: nat)
    requires perPage > 0
    ensures PageItems(rows, 1, perPage) == if perPage <= |rows| then rows[..perPage] else rows
  {
    assert (1 - 1) * perPage == 0;
    if rows != [] {
      assert (if perPage <= |rows| then rows[..perPage] else rows)
          == rows[0..if perPage <= |rows| then perPage else |rows|];
    }
  }
}
