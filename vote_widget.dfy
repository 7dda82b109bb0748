/**
 * The vote arrows shared by annotations, edits and requests. A click sends
 * the vote; the JSON answer either sends an anonymous user to the login page
 * (with a `next` URL that replays the vote), or is reconciled with the two
 * arrow controls and the weight display.
 *
 * The answer is an input; `flashMessages()` is not part of this model.
 */
module VoteWidget {
  import opened Wrappers
  import opened Strings

  // ---- `escape` ------------------------------------------------------------

  /** The characters JavaScript's `escape` leaves as they are. */
  predicate Unreserved(c: char)
  {
    ('A' <= c <= 'Z') || ('a' <= c <= 'z') || ('0' <= c <= '9') || c in {'@', '*', '_', '+', '-', '.', '/'}
  }

  function HexDigit(d: nat): (c: char)
    requires d < 16
    ensures Unreserved(c) && c != 'u'
  {
    "0123456789ABCDEF"[d]
  }

  function HexValue(c: char): Option<nat>
  {
    if '0' <= c <= '9' then Some(c as int - '0' as int)
    else if 'A' <= c <= 'F' then Some(c as int - 'A' as int + 10)
    else if 'a' <= c <= 'f' then Some(c as int - 'a' as int + 10)
    else None
  }

  lemma HexRoundTrip(d: nat)
    requires d < 16
    ensures HexValue(HexDigit(d)) == Some(d)
  {
  }

  /** The UTF-16 code units of a code point. */
  function Units(c: char): (u: seq<nat>)
    ensures 1 <= |u| <= 2 && forall i :: 0 <= i < |u| ==> u[i] < 0x10000
    ensures c as int < 0x10000 <==> u == [c as int]
  {
    if c as int < 0x10000 then [c as int]
    else [0xD800 + (c as int - 0x10000) / 0x400, 0xDC00 + (c as int - 0x10000) % 0x400]
  }

  /** `%XX` below 256, `%uXXXX` above, with upper-case hexadecimal digits. */
  function EscapeUnit(v: nat): (r: string)
    requires v < 0x10000
    ensures forall i :: 0 <= i < |r| ==> Unreserved(r[i]) || r[i] == '%'
  {
    if v < 256 then ['%', HexDigit(v / 16), HexDigit(v % 16)]
    else
      var q1 := v / 16;
      var q2 := q1 / 16;
      ['%', 'u', HexDigit(q2 / 16), HexDigit(q2 % 16), HexDigit(q1 % 16), HexDigit(v % 16)]
  }

  function EscapeChar(c: char): (r: string)
    ensures forall i :: 0 <= i < |r| ==> Unreserved(r[i]) || r[i] == '%'
  {
    if Unreserved(c) then [c]
    else
      var u := Units(c);
      if |u| == 1 then EscapeUnit(u[0]) else EscapeUnit(u[0]) + EscapeUnit(u[1])
  }

  /** JavaScript `escape(s)`. Its output holds no `&`, `=`, `?` or `#`, so it
   *  can stand as one query value. */
  function Escape(s: string): (r: string)
    ensures forall i :: 0 <= i < |r| ==> Unreserved(r[i]) || r[i] == '%'
  {
    if s == [] then [] else EscapeChar(s[0]) + Escape(s[1..])
  }

  /** The inverse of `escape` on well-formed input (JavaScript `unescape`,
   *  rejecting malformed escapes and lone surrogates). */
  function Unescape(s: string): (r: Option<string>)
    decreases |s|
  {
    if s == [] then Some([])
    else if s[0] != '%' then Prepend(s[0], Unescape(s[1..]))
    else if |s| >= 6 && s[1] == 'u' then
      match Hex4(s[2], s[3], s[4], s[5])
      case None => None
      case Some(v) => if 0xD800 <= v < 0xE000 then None else Prepend(v as char, Unescape(s[6..]))
    else if |s| >= 3 then
      match (HexValue(s[1]), HexValue(s[2]))
      case (Some(h), Some(l)) => Prepend((h * 16 + l) as char, Unescape(s[3..]))
      case _ => None
    else None
  }

  function Hex4(a: char, b: char, c: char, d: char): (r: Option<nat>)
    ensures r.Some? ==> r.value < 0x10000
  {
    match (HexValue(a), HexValue(b), HexValue(c), HexValue(d))
    case (Some(w), Some(x), Some(y), Some(z)) => if w < 16 && x < 16 && y < 16 && z < 16 then Some(((w * 16 + x) * 16 + y) * 16 + z) else None
    case _ => None
  }

  function Prepend(c: char, r: Option<string>): Option<string>
  {
    match r
    case None => None
    case Some(t) => Some([c] + t)
  }

  lemma UnescapeChar(c: char, rest: string)
    requires c as int < 0x10000
    ensures Unescape(EscapeChar(c) + rest) == Prepend(c, Unescape(rest))
  {
    var s := EscapeChar(c) + rest;
    if Unreserved(c) {
      assert s[0] == c && s[1..] == rest;
    } else if c as int < 256 {
      UnescapeByte(c, rest);
    } else {
      UnescapeWide(c, rest);
    }
  }

  lemma UnescapeByte(c: char, rest: string)
    requires c as int < 256
    ensures Unescape(EscapeUnit(c as int) + rest) == Prepend(c, Unescape(rest))
  {
    var v := c as int;
    var s := EscapeUnit(v) + rest;
    HexRoundTrip(v / 16);
    HexRoundTrip(v % 16);
    assert s[0] == '%' && s[1] == HexDigit(v / 16) && s[2] == HexDigit(v % 16) && s[3..] == rest;
    assert (v / 16 * 16 + v % 16) as char == c;
  }

  lemma UnescapeWide(c: char, rest: string)
    requires 256 <= c as int < 0x10000
    ensures Unescape(EscapeUnit(c as int) + rest) == Prepend(c, Unescape(rest))
  {
    var v := c as int;
    var s := EscapeUnit(v) + rest;
    var q1 := v / 16;
    var q2 := q1 / 16;
    var d0, d1, d2, d3 := v % 16, q1 % 16, q2 % 16, q2 / 16;
    assert s[0] == '%' && s[1] == 'u' && s[6..] == rest;
    assert s[2] == HexDigit(d3) && s[3] == HexDigit(d2) && s[4] == HexDigit(d1) && s[5] == HexDigit(d0);
    Base16(v);
    Hex4OfDigits(d3, d2, d1, d0);
    assert Hex4(s[2], s[3], s[4], s[5]) == Some(v);
  }

  /** Four hexadecimal digits, most significant first, read back as their value. */
  lemma Hex4OfDigits(w: nat, x: nat, y: nat, z: nat)
    requires w < 16 && x < 16 && y < 16 && z < 16
    ensures Hex4(HexDigit(w), HexDigit(x), HexDigit(y), HexDigit(z)) == Some(((w * 16 + x) * 16 + y) * 16 + z)
  {
    HexRoundTrip(w);
    HexRoundTrip(x);
    HexRoundTrip(y);
    HexRoundTrip(z);
    Hex4Value(HexDigit(w), HexDigit(x), HexDigit(y), HexDigit(z), w, x, y, z);
  }

  /** A code unit in four hexadecimal digits, most significant first. */
  lemma Base16(v: nat)
    requires v < 0x10000
    ensures var q1 := v / 16; var q2 := q1 / 16;
      q2 / 16 < 16 && ((q2 / 16 * 16 + q2 % 16) * 16 + q1 % 16) * 16 + v % 16 == v
  {
    var q1 := v / 16;
    var q2 := q1 / 16;
    assert v == q1 * 16 + v % 16 && q1 == q2 * 16 + q1 % 16 && q2 == q2 / 16 * 16 + q2 % 16;
  }

  lemma Hex4Value(a: char, b: char, c: char, d: char, w: nat, x: nat, y: nat, z: nat)
    requires HexValue(a) == Some(w) && HexValue(b) == Some(x) && HexValue(c) == Some(y) && HexValue(d) == Some(z)
    requires w < 16 && x < 16 && y < 16 && z < 16
    ensures Hex4(a, b, c, d) == Some(((w * 16 + x) * 16 + y) * 16 + z)
  {
  }

  /** `unescape(escape(s)) == s` for text in the Basic Multilingual Plane. */
  lemma {:induction false} UnescapeEscape(s: string)
    requires forall i :: 0 <= i < |s| ==> s[i] as int < 0x10000
    ensures Unescape(Escape(s)) == Some(s)
  {
    if s != [] {
      UnescapeEscape(s[1..]);
      UnescapeChar(s[0], Escape(s[1..]));
      assert [s[0]] + s[1..] == s;
    }
  }

  // ---- `loginNext` -----------------------------------------------------------

  /** A boolean in a template literal. */
  function ShowBool(b: bool): string
  {
    if b then "true" else "false"
  }

  /** The vote URL that `loginNext` joins: the vote route, `?`, then the
   *  `id`, `entity`, `up` and `next` parameters in that order. */
  function ReplayUrl(voteRoute: string, id: string, entity: string, up: bool, pathname: string): string
  {
    voteRoute + "?" + "id=" + id + "&entity=" + entity + "&up=" + ShowBool(up) + "&next=" + pathname
  }

  /** `loginNext(id, entity, up)`; the two route URLs and the page's path are inputs. */
  function LoginNext(loginRoute: string, voteRoute: string, id: string, entity: string, up: bool, pathname: string): string
  {
    loginRoute + "?next=" + Escape(ReplayUrl(voteRoute, id, entity, up, pathname))
  }

  /** The login URL carries the replay URL as its single `next` value,
   *  which `unescape` turns back into the replay URL. */
  lemma LoginNextRecovers(loginRoute: string, voteRoute: string, id: string, entity: string, up: bool, pathname: string)
    requires var u := ReplayUrl(voteRoute, id, entity, up, pathname); forall i :: 0 <= i < |u| ==> u[i] as int < 0x10000
    ensures var url := LoginNext(loginRoute, voteRoute, id, entity, up, pathname);
      var n := |loginRoute| + 6;
      url[..n] == loginRoute + "?next=" && '&' !in url[n..] && '?' !in url[n..]
      && Unescape(url[n..]) == Some(ReplayUrl(voteRoute, id, entity, up, pathname))
  {
    var u := ReplayUrl(voteRoute, id, entity, up, pathname);
    var url := LoginNext(loginRoute, voteRoute, id, entity, up, pathname);
    var n := |loginRoute| + 6;
    var e := Escape(u);
    var head := loginRoute + "?next=";
    assert |head| == n;
    assert url == head + e;
    assert url[..n] == head && url[n..] == e;
    EscapeSeparators(u);
    UnescapeEscape(u);
  }

  /** Escaped text holds neither `&` nor `?`. */
  lemma EscapeSeparators(u: string)
    ensures '&' !in Escape(u) && '?' !in Escape(u)
  {
    var e := Escape(u);
    assert forall i :: 0 <= i < |e| ==> e[i] != '&' && e[i] != '?';
  }

  // ---- `modWeight` -----------------------------------------------------------

  /** `classList.add(c)`. */
  function AddClass(cl: seq<string>, c: string): (r: seq<string>)
    ensures c in r && forall x :: x != c ==> (x in r <==> x in cl)
  {
    if c in cl then cl else cl + [c]
  }

  /** `classList.remove(c)`. */
  function RemoveClass(cl: seq<string>, c: string): (r: seq<string>)
    ensures c !in r && forall x :: x != c ==> (x in r <==> x in cl)
  {
    if cl == [] then []
    else (if cl[0] == c then [] else [cl[0]]) + RemoveClass(cl[1..], c)
  }

  /** The weight element: its class list and its text. */
  datatype Weight = Weight(classes: seq<string>, html: string)

  /** The new total: `Number(text) + change`, `NaN` (`None`) when the text is not a number. */
  function NewTotal(w: Weight, change: int): Option<int>
  {
    AddChange(JsNumber(w.html), change)
  }

  /** `Number` plus a change, with `NaN` absorbing it. */
  function AddChange(n: Option<int>, change: int): Option<int>
  {
    if n.None? then None else Some(n.value + change)
  }

  /** The class a total is shown with; `NaN` is neither above nor below 0. */
  function SignClass(total: Option<int>): string
  {
    if total.Some? && total.value > 0 then "up"
    else if total.Some? && total.value < 0 then "down"
    else "nil"
  }

  function ShowTotal(total: Option<int>): string
  {
    match total
    case None => "NaN"
    case Some(n) => ShowInt(n)
  }

  predicate IsSignClass(c: string)
  {
    c == "up" || c == "down" || c == "nil"
  }

  /** `modWeight(weight, change)`: the pushed class is added, then the two
   *  popped ones are removed, then the text is replaced. */
  function Reweighed(w: Weight, change: int): Weight
  {
    var total := NewTotal(w, change);
    Weight(Resigned(w.classes, SignClass(total)), ShowTotal(total) + " ")
  }

  /** The two sign classes `modWeight` pops when it pushes `push`. */
  function Pops(push: string): seq<string>
  {
    if push == "up" then ["down", "nil"] else if push == "down" then ["up", "nil"] else ["up", "down"]
  }

  /** The class list after pushing one sign class and popping the other two. */
  function Resigned(cl: seq<string>, push: string): seq<string>
  {
    RemoveClass(RemoveClass(AddClass(cl, push), Pops(push)[0]), Pops(push)[1])
  }

  /** Exactly one sign class remains, the one of the new total, whatever the
   *  old classes were; every other class is kept. */
  lemma ReweighedClasses(w: Weight, change: int)
    ensures var r := Reweighed(w, change);
      (forall c :: IsSignClass(c) ==> (c in r.classes <==> c == SignClass(NewTotal(w, change))))
      && (forall c :: !IsSignClass(c) ==> (c in r.classes <==> c in w.classes))
  {
  }

  /** The new text is the new total followed by a space, and reads back as that total. */
  lemma ReweighedText(w: Weight, change: int)
    ensures var t := NewTotal(w, change);
      Reweighed(w, change).html == ShowTotal(t) + " " && JsNumber(Reweighed(w, change).html) == t
  {
    var t := NewTotal(w, change);
    ReweighedHtml(w, change);
    ShownTotalReads(t);
  }

  lemma ReweighedHtml(w: Weight, change: int)
    ensures Reweighed(w, change).html == ShowTotal(NewTotal(w, change)) + " "
  {
  }

  /** A shown total followed by a space reads back as that total. */
  lemma ShownTotalReads(t: Option<int>)
    ensures JsNumber(ShowTotal(t) + " ") == t
  {
    match t
    case Some(n) =>
      assert ShowTotal(t) + " " == ShowInt(n) + " ";
      ParseShowInt(n, " ");
    case None =>
      assert ShowTotal(t) + " " == "NaN ";
      NaNReads();
  }

  lemma NaNReads()
    ensures JsNumber("NaN ") == None
  {
    StripShown("NaN", " ", JsWhitespace);
    assert !IsDigit('N');
  }

  /** Two weight changes in a row show the same total and sign as their sum. */
  lemma ReweighTwice(w: Weight, a: int, b: int)
    ensures var twice := Reweighed(Reweighed(w, a), b);
      NewTotal(Reweighed(w, a), b) == NewTotal(w, a + b)
      && twice.html == Reweighed(w, a + b).html
      && SignClass(NewTotal(Reweighed(w, a), b)) == SignClass(NewTotal(w, a + b))
  {
    var r := Reweighed(w, a);
    ReweighedText(w, a);
    ReweighedText(r, b);
    ReweighedText(w, a + b);
    AddTwice(JsNumber(w.html), a, b);
  }

  /** Two changes in a row add up. */
  lemma AddTwice(n: Option<int>, a: int, b: int)
    ensures AddChange(AddChange(n, a), b) == AddChange(n, a + b)
  {
  }

  // ---- `vote` ----------------------------------------------------------------

  /** The JSON answer of the vote request: `status`, `rollback`, `success`
   *  and the optional `change` (absent fields are falsy). */
  datatype Answer = Answer(status: string, rollback: bool, success: bool, change: Option<int>)

  /** The controls' class names by id, the weight element, and the page the
   *  browser is sent to, if any. */
  datatype VoteState = VoteState(controls: map<string, string>, weight: Weight, location: Option<string>)

  /** The id of the other arrow of the same entity. */
  function OppositeId(up: bool, parent: string): string
  {
    (if up then "down" else "up") + "-" + parent
  }

  /** The `onload` handler for a click on the control `self` (whose
   *  `data-parent` is `parent` and `data-entity` is `entity`), where `login`
   *  is the URL `loginNext` builds for that click. A missing opposite arrow
   *  throws after this control has been updated. */
  function Reconciled(s: VoteState, self: string, parent: string, up: bool, login: string, answer: Answer): (Outcome, VoteState)
  {
    if answer.status == "login" then (Applied, s.(location := Some(login)))
    else
      var controls :=
        if answer.rollback then s.controls[self := if answer.success then (if up then "up" else "down") else ""]
        else if answer.success then s.controls[self := "up"]
        else s.controls;
      var opp := OppositeId(up, parent);
      if answer.rollback && answer.success && opp !in controls then (Threw(TypeError), s.(controls := controls))
      else
        var controls' := if answer.rollback && answer.success then controls[opp := ""] else controls;
        var weight := if answer.change.Some? then Reweighed(s.weight, answer.change.value) else s.weight;
        (Applied, s.(controls := controls', weight := weight))
  }

  /** A login answer only navigates: no control or weight changes. */
  lemma LoginOnlyRedirects(s: VoteState, self: string, parent: string, up: bool, login: string, answer: Answer)
    requires answer.status == "login"
    ensures var r := Reconciled(s, self, parent, up, login, answer).1;
      r.controls == s.controls && r.weight == s.weight && r.location == Some(login)
  {
  }

  /** The four cases of the reconciliation, as seen on the clicked control and its opposite. */
  lemma ReconciledControls(s: VoteState, self: string, parent: string, up: bool, login: string, answer: Answer)
    requires answer.status != "login"
    requires self != OppositeId(up, parent)
    ensures var (o, r) := Reconciled(s, self, parent, up, login, answer);
      r.location == s.location
      && (answer.rollback && answer.success ==>
            r.controls[self] == (if up then "up" else "down")
            && (o.Threw? <==> OppositeId(up, parent) !in s.controls)
            && (o == Applied ==> r.controls[OppositeId(up, parent)] == ""))
      && (answer.rollback && !answer.success ==> r.controls[self] == "" && o == Applied)
      && (!answer.rollback && answer.success ==> r.controls[self] == "up" && o == Applied)
      && (!answer.rollback && !answer.success ==> r.controls == s.controls && o == Applied)
  {
  }

  /** The weight changes only when the answer has a `change` and nothing throws. */
  lemma ReconciledWeight(s: VoteState, self: string, parent: string, up: bool, login: string, answer: Answer)
    ensures var (o, r) := Reconciled(s, self, parent, up, login, answer);
      r.weight == (if o == Applied && answer.status != "login" && answer.change.Some?
                   then Reweighed(s.weight, answer.change.value) else s.weight)
  {
  }

  /** One entity's vote arrows and weight on the page. */
  class VoteView {
    var controls: map<string, string>
    var weight: Weight
    var location: Option<string>

    function State(): VoteState
      reads this
    {
      VoteState(controls, weight, location)
    }

    constructor(arrows: map<string, string>, w: Weight)
      ensures State() == VoteState(arrows, w, None)
    {
      controls := arrows;
      weight := w;
      location := None;
    }

    /** `modWeight(weight, change)`. */
    method ModWeight(change: int)
      modifies this
      ensures weight == Reweighed(old(weight), change)
      ensures controls == old(controls) && location == old(location)
    {
      var w := weight;
      var points := JsNumber(w.html);
      var newPoints := AddChange(points, change);
      var poppers, pushers;
      if newPoints.Some? && newPoints.value > 0 {
        poppers, pushers := ["down", "nil"], ["up"];
      } else if newPoints.Some? && newPoints.value < 0 {
        poppers, pushers := ["up", "nil"], ["down"];
      } else {
        poppers, pushers := ["up", "down"], ["nil"];
      }
      var classes := AddClass(w.classes, pushers[0]);
      classes := RemoveClass(classes, poppers[0]);
      classes := RemoveClass(classes, poppers[1]);
      assert classes == Resigned(w.classes, SignClass(NewTotal(w, change)));
      weight := Weight(classes, ShowTotal(newPoints) + " ");
    }

    /** The `onload` handler of `vote(x, up)`. */
    method OnLoad(self: string, parent: string, up: bool, login: string, answer: Answer) returns (outcome: Outcome)
      modifies this
      ensures (outcome, State()) == Reconciled(old(State()), self, parent, up, login, answer)
    {
      if answer.status == "login" {
        location := Some(login);
        return Applied;
      }
      if answer.rollback {
        if answer.success {
          controls := controls[self := if up then "up" else "down"];
          var opposite := OppositeId(up, parent);
          if opposite !in controls {
            return Threw(TypeError);
          }
          controls := controls[opposite := ""];
        } else {
          controls := controls[self := ""];
        }
      } else if answer.success {
        controls := controls[self := "up"];
      }
      if answer.change.Some? {
        ModWeight(answer.change.value);
      }
      outcome := Applied;
    }
  }
}
