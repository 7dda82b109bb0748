/**
 * Following things: a user keeps, per kind of entity, the list of entities
 * followed. `follow_entity` toggles the entity's membership in that list;
 * the routes for users, requests and annotations refuse some entities
 * first (oneself, closed requests, deactivated or one's own annotations).
 * Entities are named by their ids.
 */
module Follow {

  /** Python `list.remove(x)`: drops the first occurrence. */
  function RemoveFirst(s: seq<int>, x: int): (r: seq<int>)
    requires x in s
    ensures |r| == |s| - 1
    ensures multiset(r) == multiset(s) - multiset{x}
  {
    if s[0] == x then
      assert s == [s[0]] + s[1..];
      s[1..]
    else
      assert s == [s[0]] + s[1..];
      [s[0]] + RemoveFirst(s[1..], x)
  }

  /** No entity appears twice. */
  predicate NoDuplicates(s: seq<int>)
  {
    forall i, j :: 0 <= i < j < |s| ==> s[i] != s[j]
  }

  /** `follow_entity(entity, followed)`: the new list. */
  function Toggled(followed: seq<int>, entity: int): seq<int>
  {
    if entity in followed then RemoveFirst(followed, entity) else followed + [entity]
  }

  /** After the toggle the entity is followed exactly when it was not, and
   *  every other entity is followed as often as before. */
  lemma ToggleFlips(followed: seq<int>, entity: int)
    requires NoDuplicates(followed)
    ensures entity in Toggled(followed, entity) <==> entity !in followed
    ensures forall e :: e != entity ==> multiset(Toggled(followed, entity))[e] == multiset(followed)[e]
  {
    if entity in followed {
      var r := RemoveFirst(followed, entity);
      CountOne(followed, entity);
      assert multiset(r)[entity] == 0;
    }
  }

  /** In a list without duplicates an entity occurs at most once. */
  lemma {:induction false} CountOne(s: seq<int>, x: int)
    requires NoDuplicates(s)
    ensures multiset(s)[x] <= 1
  {
    if s != [] {
      assert s == [s[0]] + s[1..];
      assert NoDuplicates(s[1..]) by {
        forall i, j | 0 <= i < j < |s[1..]| ensures s[1..][i] != s[1..][j] {
          assert s[1..][i] == s[i + 1] && s[1..][j] == s[j + 1];
        }
      }
      CountOne(s[1..], x);
      if s[0] == x {
        assert x !in s[1..] by {
          forall k | 0 <= k < |s[1..]| ensures s[1..][k] != x {
            assert s[1..][k] == s[k + 1];
          }
        }
      }
    }
  }

  /** The toggle introduces no duplicate. */
  lemma ToggleNoDuplicates(followed: seq<int>, entity: int)
    requires NoDuplicates(followed)
    ensures NoDuplicates(Toggled(followed, entity))
  {
    if entity in followed {
      RemoveKeepsNoDuplicates(followed, entity);
    } else {
      var r := followed + [entity];
      forall i, j | 0 <= i < j < |r| ensures r[i] != r[j] {
        assert r[i] == followed[i];
      }
    }
  }

  lemma {:induction false} RemoveKeepsNoDuplicates(s: seq<int>, x: int)
    requires x in s && NoDuplicates(s)
    ensures NoDuplicates(RemoveFirst(s, x))
  {
    TailNoDuplicates(s);
    if s[0] != x {
      RemoveKeepsNoDuplicates(s[1..], x);
      var t := RemoveFirst(s[1..], x);
      NotInRemoved(s[1..], x, s[0]);
      ConsNoDuplicates(s[0], t);
      assert RemoveFirst(s, x) == [s[0]] + t;
    }
  }

  /** The tail of a list without duplicates has none and lacks the head. */
  lemma TailNoDuplicates(s: seq<int>)
    requires s != [] && NoDuplicates(s)
    ensures NoDuplicates(s[1..]) && s[0] !in s[1..]
  {
    forall i, j | 0 <= i < j < |s[1..]| ensures s[1..][i] != s[1..][j] {
      assert s[1..][i] == s[i + 1] && s[1..][j] == s[j + 1];
    }
    forall k | 0 <= k < |s[1..]| ensures s[1..][k] != s[0] {
      assert s[1..][k] == s[k + 1];
    }
  }

  /** Putting an absent element in front adds no duplicate. */
  lemma ConsNoDuplicates(y: int, t: seq<int>)
    requires NoDuplicates(t) && y !in t
    ensures NoDuplicates([y] + t)
  {
    var r := [y] + t;
    forall i, j | 0 <= i < j < |r| ensures r[i] != r[j] {
      assert r[j] == t[j - 1];
      if i > 0 {
        assert r[i] == t[i - 1];
      }
    }
  }

  /** Removing an element brings in nothing new. */
  lemma NotInRemoved(s: seq<int>, x: int, y: int)
    requires x in s && y !in s
    ensures y !in RemoveFirst(s, x)
  {
    assert multiset(s)[y] == 0;
    assert multiset(RemoveFirst(s, x))[y] == 0;
  }

  /** Toggling twice restores a list that did not hold the entity exactly,
   *  and otherwise restores it up to order (the entity moves to the end). */
  lemma ToggleTwice(followed: seq<int>, entity: int)
    requires NoDuplicates(followed)
    ensures entity !in followed ==> Toggled(Toggled(followed, entity), entity) == followed
    ensures multiset(Toggled(Toggled(followed, entity), entity)) == multiset(followed)
  {
    if entity !in followed {
      RemoveLast(followed, entity);
    } else {
      var r := RemoveFirst(followed, entity);
      CountOne(followed, entity);
      assert multiset(r)[entity] == 0;
      assert Toggled(r, entity) == r + [entity];
      assert multiset(r + [entity]) == multiset(r) + multiset{entity};
    }
  }

  lemma {:induction false} RemoveLast(s: seq<int>, x: int)
    requires x !in s
    ensures RemoveFirst(s + [x], x) == s
  {
    if s != [] {
      assert (s + [x])[1..] == s[1..] + [x];
      RemoveLast(s[1..], x);
    }
  }

  /** The part of `User` the follow routes change: one followed list. */
  class Follower {
    var id: int
    var followed: seq<int>

    constructor (id: int)
      ensures this.id == id && followed == []
    {
      this.id := id;
      followed := [];
    }

    /** `follow_entity`. */
    method FollowEntity(entity: int)
      modifies this
      ensures followed == Toggled(old(followed), entity)
      ensures id == old(id)
    {
      if entity in followed {
        followed := RemoveFirst(followed, entity);
      } else {
        followed := followed + [entity];
      }
    }

    /** `follow_user`: a user cannot follow themself. */
    method FollowUser(user: int)
      modifies this
      ensures followed == if user == id then old(followed) else Toggled(old(followed), user)
      ensures id == old(id)
    {
      if user == id {
        return;
      }
      FollowEntity(user);
    }

    /** `follow_text_request` / `follow_tag_request`: an approved or rejected
     *  request cannot be followed. */
    method FollowRequest(request: int, approved: bool, rejected: bool)
      modifies this
      ensures followed == if approved || rejected then old(followed) else Toggled(old(followed), request)
      ensures id == old(id)
    {
      if approved || rejected {
        return;
      }
      FollowEntity(request);
    }

    /** `follow_annotation`: deactivated annotations and one's own cannot be
     *  followed. */
    method FollowAnnotation(annotation: int, active: bool, annotator: int)
      modifies this
      ensures followed == if !active || annotator == id then old(followed) else Toggled(old(followed), annotation)
      ensures id == old(id)
    {
      if !active {
        return;
      } else if annotator == id {
        return;
      }
      FollowEntity(annotation);
    }
  }
}
