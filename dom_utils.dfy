/**
 * The small DOM helpers shared by the page scripts: `byClass`, `newEl`,
 * `get_parent` and `get_parent_id`.
 *
 * A node is modelled by the ids of itself and of its ancestors, nearest
 * first, with "" for a node without an id; walking off the end of that
 * chain is reaching `null`.
 */
module DomUtils {
  import opened Wrappers
  import opened Strings

  /** A node: its id, then its parent's id, and so on up to the root. */
  datatype Node = Node(chain: seq<string>)

  /** `!el.id || !el.id.match(new RegExp("^" + prefix + "\\d+"))` negated:
   *  the id is non-empty and starts with `prefix` followed by a digit. The
   *  pattern is anchored only at the start, so anything may follow. */
  predicate IdMatches(id: string, prefix: string)
  {
    |id| > |prefix| && id[..|prefix|] == prefix && IsDigit(id[|prefix|])
  }

  /** The position in the chain of the nearest node (itself included) whose
   *  id matches; running off the chain is `null.id`, a `TypeError`. */
  function Nearest(chain: seq<string>, prefix: string): (r: Result<nat>)
    ensures r.Ok? ==> r.value < |chain| && IdMatches(chain[r.value], prefix)
    ensures r.Ok? ==> forall j :: 0 <= j < r.value ==> !IdMatches(chain[j], prefix)
    ensures r.Err? <==> forall j :: 0 <= j < |chain| ==> !IdMatches(chain[j], prefix)
  {
    if chain == [] then Err(TypeError)
    else if IdMatches(chain[0], prefix) then Ok(0)
    else match Nearest(chain[1..], prefix)
      case Err(e) => Err(e)
      case Ok(k) => Ok(k + 1)
  }

  /** `get_parent(el, prefix)`: climbs from `el` while the id does not match. */
  method GetParent(el: Node, prefix: string) returns (r: Result<nat>)
    ensures r == Nearest(el.chain, prefix)
  {
    var i := 0;
    while i < |el.chain| && !IdMatches(el.chain[i], prefix)
      invariant 0 <= i <= |el.chain|
      invariant forall j :: 0 <= j < i ==> !IdMatches(el.chain[j], prefix)
    {
      i := i + 1;
    }
    if i == |el.chain| {
      // `el` is now null and `el.id` throws
      NearestNone(el.chain, prefix);
      return Err(TypeError);
    }
    NearestIs(el.chain, prefix, i);
    r := Ok(i);
  }

  lemma NearestNone(chain: seq<string>, prefix: string)
    requires forall j :: 0 <= j < |chain| ==> !IdMatches(chain[j], prefix)
    ensures Nearest(chain, prefix) == Err(TypeError)
  {
    if chain != [] { NearestNone(chain[1..], prefix); }
  }

  /** The nearest match is unique: any index that matches with none before it is the answer. */
  lemma {:induction false} NearestIs(chain: seq<string>, prefix: string, i: nat)
    requires i < |chain| && IdMatches(chain[i], prefix)
    requires forall j :: 0 <= j < i ==> !IdMatches(chain[j], prefix)
    ensures Nearest(chain, prefix) == Ok(i)
  {
    if i > 0 { NearestIs(chain[1..], prefix, i - 1); }
  }

  /** `get_parent_id(el, prefix)`: the id of the node `get_parent` finds. */
  method GetParentId(el: Node, prefix: string) returns (r: Result<string>)
    ensures r.Ok? <==> Nearest(el.chain, prefix).Ok?
    ensures r.Ok? ==> r.value == el.chain[Nearest(el.chain, prefix).value] && IdMatches(r.value, prefix)
  {
    var p := GetParent(el, prefix);
    match p {
      case Err(e) => r := Err(e);
      case Ok(k) => r := Ok(el.chain[k]);
    }
  }

  /** The pattern is anchored at the start only: `a12-js` matches the prefix
   *  `a`, and with the default prefix "" the id `a5` does not match. */
  lemma AnchoredAtStart()
    ensures IdMatches("a12-js", "a")
    ensures !IdMatches("a5", "")
    ensures Nearest(["", "x", "a12-js", "a3"], "a") == Ok(2)
  {
    assert !IdMatches("x", "a");
    NearestIs(["", "x", "a12-js", "a3"], "a", 2);
  }

  /** An element as `getElementsByClassName` sees it: its class list. */
  datatype Classed = Classed(classes: seq<string>)

  /** `el.getElementsByClassName(cl)` over the descendants of `el` in document order. */
  function WithClass(descendants: seq<Classed>, cl: string): (r: seq<Classed>)
    ensures |r| <= |descendants|
    ensures forall i :: 0 <= i < |r| ==> cl in r[i].classes && r[i] in descendants
    ensures forall i :: 0 <= i < |descendants| && cl in descendants[i].classes ==> descendants[i] in r
  {
    if descendants == [] then []
    else
      var n := |descendants| - 1;
      WithClass(descendants[..n], cl) + (if cl in descendants[n].classes then [descendants[n]] else [])
  }

  /** The positions, in document order, of the descendants carrying the class. */
  function ClassPositions(descendants: seq<Classed>, cl: string): (ps: seq<nat>)
    ensures forall k :: 0 <= k < |ps| ==> ps[k] < |descendants| && cl in descendants[ps[k]].classes
    ensures forall k, l :: 0 <= k < l < |ps| ==> ps[k] < ps[l]
    ensures forall i :: 0 <= i < |descendants| && cl in descendants[i].classes ==> i in ps
  {
    if descendants == [] then []
    else
      var n := |descendants| - 1;
      ClassPositions(descendants[..n], cl) + (if cl in descendants[n].classes then [n] else [])
  }

  /** The list holds, in document order, the descendant at each position
   *  carrying the class and nothing else: each such descendant once, and
   *  no other. */
  lemma {:induction false} WithClassInOrder(descendants: seq<Classed>, cl: string)
    ensures var r, ps := WithClass(descendants, cl), ClassPositions(descendants, cl);
      |r| == |ps| && forall k :: 0 <= k < |r| ==> r[k] == descendants[ps[k]]
  {
    if descendants != [] {
      var n := |descendants| - 1;
      var d := descendants[..n];
      WithClassInOrder(d, cl);
      var r0, p0 := WithClass(d, cl), ClassPositions(d, cl);
      var r, ps := WithClass(descendants, cl), ClassPositions(descendants, cl);
      var hit := cl in descendants[n].classes;
      assert r == r0 + (if hit then [descendants[n]] else []);
      assert ps == p0 + (if hit then [n] else []);
      forall k | 0 <= k < |r|
        ensures r[k] == descendants[ps[k]]
      {
        if k < |r0| {
          assert r[k] == r0[k] == d[p0[k]];
          assert ps[k] == p0[k] && p0[k] < n;
        }
      }
    }
  }

  /** `byClass(el, cl)`: a falsy `el` (modelled as `None`) gives an empty list. */
  function ByClass(el: Option<seq<Classed>>, cl: string): (r: seq<Classed>)
    ensures el.None? ==> r == []
    ensures el.Some? ==> forall i :: 0 <= i < |el.value| ==> (el.value[i] in r <==> cl in el.value[i].classes)
  {
    match el
    case None => []
    case Some(d) => WithClass(d, cl)
  }

  /** A created element: its tag and its `className`. */
  class Element {
    const tagName: string
    var className: string

    constructor (tag: string)
      ensures tagName == tag && className == ""
    {
      tagName := tag;
      className := "";
    }
  }

  /** `newEl(el, cl)`: a fresh element of tag `el` whose `className` is `cl`. */
  method NewEl(el: string, cl: string) returns (e: Element)
    ensures fresh(e) && e.tagName == el && e.className == cl
  {
    e := new Element(el);
    e.className := cl;
  }
}
