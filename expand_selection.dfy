/**
 * The context expander of the annotate page.
 *
 * The page holds a contiguous run of numbered line elements inside one
 * block. Two expander elements sit inside that run: the top one just before
 * the first selected line, the bottom one just after the last. Between them
 * every line carries the `selection` class. The hidden `first_line` and
 * `last_line` inputs hold the numbers of the first and last selected lines.
 * `expand` grows the selection by one line on one side and asks the server
 * for one more line at that outer edge of the run. `contract` shrinks the
 * selection by one line and evicts the outermost line once three or more
 * unselected lines lay beyond the released one.
 *
 * The block is modelled by the sequence of its line elements together with
 * the positions of the two expanders: `top` is the number of line elements
 * before the top expander, `bot` the number before the bottom one. The
 * server's answer to the line request is an input.
 */
module ExpandSelection {
  import opened Wrappers

  /** A line element: its id (and its line-number span) is `num`, its class
   *  list is `line <cls>` plus `selection` when `selected`. */
  datatype Line = Line(num: int, cls: string, text: string, selected: bool)

  /** The JSON answer of the line request: `success` with the line's enum
   *  and text, or no success. */
  datatype Reply = Found(enum: string, line: string) | Missing

  /** The block: line elements, expander positions, and the two input values. */
  datatype Window = Window(lines: seq<Line>, top: nat, bot: nat, first: int, last: int)

  /** `newLine(cls, num, line)`: an unselected line element; an `hr` line shows a rule. */
  function NewLine(cls: string, num: int, line: string): Line
  {
    Line(num, cls, if cls == "hr" then "<hr>" else line, false)
  }

  /** Line numbers increase by one from element to element. */
  predicate Contiguous(lines: seq<Line>)
  {
    forall i :: 0 <= i < |lines| ==> lines[i].num == lines[0].num + i
  }

  /** The invariant the page keeps between events. */
  predicate WindowValid(w: Window)
  {
    && |w.lines| > 0
    && Contiguous(w.lines)
    && w.top < w.bot <= |w.lines|
    && w.lines[w.top].num == w.first
    && w.lines[w.bot - 1].num == w.last
    && Flags(w.lines, w.top, w.bot)
  }

  /** Exactly the elements at positions a..b-1 carry `selection`. */
  predicate Flags(lines: seq<Line>, a: int, b: int)
  {
    forall i :: 0 <= i < |lines| ==> (lines[i].selected <==> a <= i < b)
  }

  /** `byID(n)` restricted to the line elements: the first element with id `n`. */
  function Find(lines: seq<Line>, n: int): (r: Option<nat>)
    ensures r.Some? ==> r.value < |lines| && lines[r.value].num == n
    ensures r.Some? ==> forall i :: 0 <= i < r.value ==> lines[i].num != n
    ensures r.None? ==> forall i :: 0 <= i < |lines| ==> lines[i].num != n
  {
    if lines == [] then None
    else if lines[0].num == n then Some(0)
    else match Find(lines[1..], n)
      case None => None
      case Some(k) => Some(k + 1)
  }

  /** The number of line elements without the `selection` class. */
  function Unselected(lines: seq<Line>): (n: nat)
    ensures n <= |lines|
  {
    if lines == [] then 0 else (if lines[0].selected then 0 else 1) + Unselected(lines[1..])
  }

  /** Unselected lines before the top expander and after the bottom one. */
  function PadAbove(w: Window): nat
    requires w.top <= |w.lines|
  {
    Unselected(w.lines[..w.top])
  }

  function PadBelow(w: Window): nat
    requires w.bot <= |w.lines|
  {
    Unselected(w.lines[w.bot..])
  }

  /** The set of resident line numbers. */
  function Nums(lines: seq<Line>): set<int>
  {
    set i | 0 <= i < |lines| :: lines[i].num
  }

  /** `contract`, on the top expander when `up`, else on the bottom one. */
  function Contracted(w: Window, up: bool): Window
    requires WindowValid(w)
  {
    if w.first == w.last then w
    else if up then
      var ls := w.lines[w.top := w.lines[w.top].(selected := false)];
      if Unselected(ls[..w.top]) >= 3 then Window(ls[1..], w.top, w.bot - 1, w.first + 1, w.last)
      else Window(ls, w.top + 1, w.bot, w.first + 1, w.last)
    else
      var ls := w.lines[w.bot - 1 := w.lines[w.bot - 1].(selected := false)];
      if Unselected(ls[w.bot..]) >= 3 then Window(ls[..|ls| - 1], w.top, w.bot - 1, w.first, w.last - 1)
      else Window(ls, w.top, w.bot - 1, w.first, w.last - 1)
  }

  /** The line number `expand` wants to add to the selection. */
  function Target(w: Window, up: bool): int
  {
    if up then w.first - 1 else w.last + 1
  }

  /** The line number `expand` requests from the server. */
  function LineToGet(w: Window, up: bool): int
    requires |w.lines| > 0
  {
    if up then w.lines[0].num - 1 else w.lines[|w.lines| - 1].num + 1
  }

  /** `expand` followed by the response handler. The line to highlight is
   *  looked up before anything is inserted; when it is not resident, `byID`
   *  yields null and the handler throws before changing the page. */
  function Expanded(w: Window, up: bool, totalLines: int, reply: Reply): (Outcome, Window)
    requires WindowValid(w)
  {
    var target := Target(w, up);
    if target > totalLines || target < 1 then (Ignored, w)
    else if Find(w.lines, target).None? then (Threw(TypeError), w)
    else if up then
      var ls := w.lines[w.top - 1 := w.lines[w.top - 1].(selected := true)];
      match reply
      case Found(e, t) =>
        (Applied, Window([NewLine(e, LineToGet(w, up), t)] + ls, w.top, w.bot + 1, target, w.last))
      case Missing =>
        (Applied, Window(ls, w.top - 1, w.bot, target, w.last))
    else
      var ls := w.lines[w.bot := w.lines[w.bot].(selected := true)];
      match reply
      case Found(e, t) =>
        (Applied, Window(ls + [NewLine(e, LineToGet(w, up), t)], w.top, w.bot + 1, w.first, target))
      case Missing =>
        (Applied, Window(ls, w.top, w.bot + 1, w.first, target))
  }

  /** What the page load leaves in the block: both expanders placed, or the
   *  `TypeError` of `line.parentNode` with the lines untouched and the top
   *  expander at `top` when it had already been inserted. */
  datatype Placement = Ready(w: Window) | Halted(top: Option<nat>)

  /** `genExpander(true)` then `genExpander(false)`: the top expander goes
   *  before the element of the first line, the bottom one after the element
   *  of the last; a missing element makes `line.parentNode` throw, after
   *  the top expander is in place when only the last line is missing. */
  function Placed(lines: seq<Line>, first: int, last: int): (r: Placement)
    ensures r.Ready? <==> Find(lines, first).Some? && Find(lines, last).Some?
    ensures r.Ready? ==> r.w.lines == lines && r.w.first == first && r.w.last == last
    ensures r.Ready? ==> r.w.top < |lines| && lines[r.w.top].num == first
                         && 0 < r.w.bot <= |lines| && lines[r.w.bot - 1].num == last
    ensures r.Halted? ==> (r.top.Some? <==> Find(lines, first).Some?)
    ensures r.Halted? && r.top.Some? ==> r.top.value < |lines| && lines[r.top.value].num == first
  {
    match (Find(lines, first), Find(lines, last))
    case (Some(i), Some(j)) => Ready(Window(lines, i, j + 1, first, last))
    case (Some(i), None) => Halted(Some(i))
    case (None, _) => Halted(None)
  }

  // ---- lemmas about the specification ---------------------------------

  lemma {:induction false} UnselectedAppend(a: seq<Line>, b: seq<Line>)
    ensures Unselected(a + b) == Unselected(a) + Unselected(b)
  {
    if a == [] {
      assert a + b == b;
    } else {
      assert (a + b)[1..] == a[1..] + b;
      UnselectedAppend(a[1..], b);
    }
  }

  lemma {:induction false} UnselectedNone(s: seq<Line>)
    requires forall i :: 0 <= i < |s| ==> !s[i].selected
    ensures Unselected(s) == |s|
  {
    if s != [] { UnselectedNone(s[1..]); }
  }

  /** In a contiguous run, `byID(n)` finds the element at offset `n - first number`. */
  lemma {:induction false} FindContiguous(lines: seq<Line>, n: int)
    requires |lines| > 0 && Contiguous(lines)
    ensures lines[0].num <= n < lines[0].num + |lines| ==> Find(lines, n) == Some(n - lines[0].num)
    ensures !(lines[0].num <= n < lines[0].num + |lines|) ==> Find(lines, n) == None
  {
    if lines[0].num != n && |lines| > 1 {
      ContiguousSlice(lines, 1, |lines|);
      FindContiguous(lines[1..], n);
    }
  }

  /** The padding counts are the expander offsets, and `byID` finds the first
   *  and last selected lines at the expanders. */
  lemma WindowShape(w: Window)
    requires WindowValid(w)
    ensures PadAbove(w) == w.top && PadBelow(w) == |w.lines| - w.bot
    ensures Find(w.lines, w.first) == Some(w.top) && Find(w.lines, w.last) == Some(w.bot - 1)
    ensures w.first <= w.last
  {
    UnselectedNone(w.lines[..w.top]);
    UnselectedNone(w.lines[w.bot..]);
    FindContiguous(w.lines, w.first);
    FindContiguous(w.lines, w.last);
  }

  /** The line `expand` would highlight is resident exactly when there is an
   *  unselected line on that side. */
  lemma TargetResident(w: Window, up: bool)
    requires WindowValid(w)
    ensures Find(w.lines, Target(w, up)).Some? <==> (if up then w.top > 0 else w.bot < |w.lines|)
    ensures Find(w.lines, Target(w, up)).Some? ==> Find(w.lines, Target(w, up)).value == (if up then w.top - 1 else w.bot)
  {
    FindContiguous(w.lines, Target(w, up));
  }

  lemma ContiguousUpdate(lines: seq<Line>, k: nat, b: bool)
    requires k < |lines| && Contiguous(lines)
    ensures Contiguous(lines[k := lines[k].(selected := b)])
  {
  }

  lemma ContiguousSlice(lines: seq<Line>, a: nat, b: nat)
    requires a < b <= |lines| && Contiguous(lines)
    ensures Contiguous(lines[a..b]) && lines[a..b][0].num == lines[0].num + a
  {
    forall i | 0 <= i < b - a ensures lines[a..b][i].num == lines[a..b][0].num + i {
      assert lines[a..b][i] == lines[a + i];
    }
  }

  lemma ContiguousPrepend(l: Line, lines: seq<Line>)
    requires |lines| > 0 && Contiguous(lines) && l.num == lines[0].num - 1
    ensures Contiguous([l] + lines)
  {
    var ls := [l] + lines;
    forall i | 0 <= i < |ls| ensures ls[i].num == ls[0].num + i {
      if i > 0 { assert ls[i] == lines[i - 1]; }
    }
  }

  lemma ContiguousAppend(lines: seq<Line>, l: Line)
    requires |lines| > 0 && Contiguous(lines) && l.num == lines[|lines| - 1].num + 1
    ensures Contiguous(lines + [l])
  {
    var ls := lines + [l];
    forall i | 0 <= i < |ls| ensures ls[i].num == ls[0].num + i {
      if i < |lines| { assert ls[i] == lines[i]; }
    }
  }

  lemma FlagsShrink(lines: seq<Line>, a: nat, b: nat)
    requires Flags(lines, a, b) && a < b <= |lines|
    ensures Flags(lines[a := lines[a].(selected := false)], a + 1, b)
    ensures Flags(lines[b - 1 := lines[b - 1].(selected := false)], a, b - 1)
  {
  }

  lemma FlagsGrow(lines: seq<Line>, a: nat, b: nat)
    requires Flags(lines, a, b) && a <= b <= |lines|
    ensures a > 0 ==> Flags(lines[a - 1 := lines[a - 1].(selected := true)], a - 1, b)
    ensures b < |lines| ==> Flags(lines[b := lines[b].(selected := true)], a, b + 1)
  {
  }

  lemma FlagsDropFirst(lines: seq<Line>, a: int, b: int)
    requires Flags(lines, a, b) && |lines| > 0 && a > 0
    ensures Flags(lines[1..], a - 1, b - 1)
  {
    forall i | 0 <= i < |lines| - 1 ensures (lines[1..][i].selected <==> a - 1 <= i < b - 1) {
      assert lines[1..][i] == lines[i + 1];
    }
  }

  lemma FlagsDropLast(lines: seq<Line>, a: int, b: int)
    requires Flags(lines, a, b) && |lines| > 0 && b < |lines|
    ensures Flags(lines[..|lines| - 1], a, b)
  {
  }

  lemma FlagsPrepend(l: Line, lines: seq<Line>, a: int, b: int)
    requires Flags(lines, a, b) && !l.selected && 0 <= a
    ensures Flags([l] + lines, a + 1, b + 1)
  {
    var ls := [l] + lines;
    forall i | 0 <= i < |ls| ensures (ls[i].selected <==> a + 1 <= i < b + 1) {
      if i > 0 { assert ls[i] == lines[i - 1]; }
    }
  }

  lemma FlagsAppend(lines: seq<Line>, l: Line, a: int, b: int)
    requires Flags(lines, a, b) && !l.selected && b <= |lines|
    ensures Flags(lines + [l], a, b)
  {
    var ls := lines + [l];
    forall i | 0 <= i < |ls| ensures (ls[i].selected <==> a <= i < b) {
      if i < |lines| { assert ls[i] == lines[i]; }
    }
  }

  lemma ContractValidUp(w: Window)
    requires WindowValid(w) && w.first != w.last
    ensures WindowValid(Contracted(w, true))
  {
    WindowShape(w);
    var ls := w.lines[w.top := w.lines[w.top].(selected := false)];
    ContiguousUpdate(w.lines, w.top, false);
    FlagsShrink(w.lines, w.top, w.bot);
    assert w.lines[w.top + 1].num == w.lines[w.top].num + 1;
    assert ls[..w.top] == w.lines[..w.top];
    if Unselected(ls[..w.top]) >= 3 {
      ContiguousSlice(ls, 1, |ls|);
      FlagsDropFirst(ls, w.top + 1, w.bot);
      assert ls[1..][w.top] == ls[w.top + 1];
      assert ls[1..][w.bot - 2] == ls[w.bot - 1];
    }
  }

  lemma ContractValidDown(w: Window)
    requires WindowValid(w) && w.first != w.last
    ensures WindowValid(Contracted(w, false))
  {
    WindowShape(w);
    var ls := w.lines[w.bot - 1 := w.lines[w.bot - 1].(selected := false)];
    ContiguousUpdate(w.lines, w.bot - 1, false);
    FlagsShrink(w.lines, w.top, w.bot);
    assert w.lines[w.bot - 2].num + 1 == w.lines[w.bot - 1].num;
    assert ls[w.bot..] == w.lines[w.bot..];
    if Unselected(ls[w.bot..]) >= 3 {
      ContiguousSlice(ls, 0, |ls| - 1);
      FlagsDropLast(ls, w.top, w.bot - 1);
    }
  }

  /** `contract` keeps the page invariant. */
  lemma ContractValid(w: Window, up: bool)
    requires WindowValid(w)
    ensures WindowValid(Contracted(w, up))
  {
    if w.first != w.last {
      if up { ContractValidUp(w); } else { ContractValidDown(w); }
    }
  }

  /** What `contract` does: nothing when the two inputs are equal; otherwise
   *  the released boundary line loses `selection` and the boundary moves one
   *  line inward, the other boundary staying put. */
  lemma ContractMovesBoundary(w: Window, up: bool)
    requires WindowValid(w)
    ensures w.first == w.last ==> Contracted(w, up) == w
    ensures w.first != w.last && up ==>
      var r := Contracted(w, up);
      r.first == w.first + 1 && r.last == w.last &&
      (forall i :: 0 <= i < |r.lines| && r.lines[i].num == w.first ==> !r.lines[i].selected) &&
      w.first in Nums(r.lines)
    ensures w.first != w.last && !up ==>
      var r := Contracted(w, up);
      r.last == w.last - 1 && r.first == w.first &&
      (forall i :: 0 <= i < |r.lines| && r.lines[i].num == w.last ==> !r.lines[i].selected) &&
      w.last in Nums(r.lines)
  {
    ContractValid(w, up);
    WindowShape(w);
    var r := Contracted(w, up);
    if w.first != w.last {
      if up {
        var j := if PadAbove(w) >= 3 then w.top - 1 else w.top;
        assert r.lines[j].num == w.first;
        FindContiguous(r.lines, w.first);
      } else {
        assert r.lines[w.bot - 1].num == w.last;
        FindContiguous(r.lines, w.last);
      }
    }
  }

  /** `contract` evicts the outermost line on its side exactly when three or
   *  more unselected lines lay beyond the released line, so the padding on
   *  that side never grows past max(before, 3); the other side is untouched. */
  lemma ContractPadding(w: Window, up: bool)
    requires WindowValid(w) && w.first != w.last
    ensures var r := Contracted(w, up);
      && (up ==> |r.lines| == |w.lines| - (if PadAbove(w) >= 3 then 1 else 0))
      && (!up ==> |r.lines| == |w.lines| - (if PadBelow(w) >= 3 then 1 else 0))
      && (up ==> PadAbove(r) == (if PadAbove(w) >= 3 then PadAbove(w) else PadAbove(w) + 1)
                 && PadBelow(r) == PadBelow(w))
      && (!up ==> PadBelow(r) == (if PadBelow(w) >= 3 then PadBelow(w) else PadBelow(w) + 1)
                  && PadAbove(r) == PadAbove(w))
      && (up ==> PadAbove(r) <= if PadAbove(w) > 3 then PadAbove(w) else 3)
      && (!up ==> PadBelow(r) <= if PadBelow(w) > 3 then PadBelow(w) else 3)
  {
    WindowShape(w);
    ContractValid(w, up);
    WindowShape(Contracted(w, up));
    var k := if up then w.top else w.bot - 1;
    var ls := w.lines[k := w.lines[k].(selected := false)];
    assert up ==> ls[..w.top] == w.lines[..w.top];
    assert !up ==> ls[w.bot..] == w.lines[w.bot..];
  }

  /** `expand` changes nothing when the line beyond the boundary is outside
   *  1..totalLines, and throws without changing anything when that line is
   *  not resident. */
  lemma ExpandGuards(w: Window, up: bool, totalLines: int, reply: Reply)
    requires WindowValid(w)
    ensures var t := Target(w, up);
      (t > totalLines || t < 1) ==> Expanded(w, up, totalLines, reply) == (Ignored, w)
    ensures var t := Target(w, up);
      (1 <= t <= totalLines && !(if up then w.top > 0 else w.bot < |w.lines|)) ==>
        Expanded(w, up, totalLines, reply) == (Threw(TypeError), w)
    ensures Expanded(w, up, totalLines, reply).0 != Ignored ==> 1 <= Target(w, up) <= totalLines
  {
    TargetResident(w, up);
  }

  lemma ExpandValidUp(w: Window, totalLines: int, reply: Reply)
    requires WindowValid(w) && w.top > 0
    ensures WindowValid(Expanded(w, true, totalLines, reply).1)
  {
    TargetResident(w, true);
    var t := Target(w, true);
    if 1 <= t <= totalLines {
      var ls := w.lines[w.top - 1 := w.lines[w.top - 1].(selected := true)];
      ContiguousUpdate(w.lines, w.top - 1, true);
      FlagsGrow(w.lines, w.top, w.bot);
      assert w.lines[w.top - 1].num + 1 == w.lines[w.top].num;
      if reply.Found? {
        var l := NewLine(reply.enum, LineToGet(w, true), reply.line);
        ContiguousPrepend(l, ls);
        FlagsPrepend(l, ls, w.top - 1, w.bot);
        assert ([l] + ls)[w.top] == ls[w.top - 1];
        assert ([l] + ls)[w.bot] == ls[w.bot - 1];
      }
    }
  }

  lemma ExpandValidDown(w: Window, totalLines: int, reply: Reply)
    requires WindowValid(w) && w.bot < |w.lines|
    ensures WindowValid(Expanded(w, false, totalLines, reply).1)
  {
    TargetResident(w, false);
    var t := Target(w, false);
    if 1 <= t <= totalLines {
      var ls := w.lines[w.bot := w.lines[w.bot].(selected := true)];
      ContiguousUpdate(w.lines, w.bot, true);
      FlagsGrow(w.lines, w.top, w.bot);
      assert w.lines[w.bot - 1].num + 1 == w.lines[w.bot].num;
      if reply.Found? {
        var l := NewLine(reply.enum, LineToGet(w, false), reply.line);
        ContiguousAppend(ls, l);
        FlagsAppend(ls, l, w.top, w.bot + 1);
        assert (ls + [l])[w.top] == ls[w.top];
        assert (ls + [l])[w.bot] == ls[w.bot];
      }
    }
  }

  /** `expand` keeps the page invariant. */
  lemma ExpandValid(w: Window, up: bool, totalLines: int, reply: Reply)
    requires WindowValid(w)
    ensures WindowValid(Expanded(w, up, totalLines, reply).1)
  {
    TargetResident(w, up);
    if up && w.top > 0 { ExpandValidUp(w, totalLines, reply); }
    if !up && w.bot < |w.lines| { ExpandValidDown(w, totalLines, reply); }
  }

  /** When `expand` takes effect (found or not): the line beyond the
   *  boundary is selected, the boundary input holds its number, the other
   *  input is unchanged, and no resident line is removed. On success the
   *  requested line (first number - 1 upward, last number + 1 downward) is
   *  added at that edge of the run. */
  lemma ExpandGrows(w: Window, up: bool, totalLines: int, reply: Reply)
    requires WindowValid(w)
    ensures var (o, r) := Expanded(w, up, totalLines, reply);
      o == Applied ==>
        && (up ==> r.first == w.first - 1 && r.last == w.last)
        && (!up ==> r.last == w.last + 1 && r.first == w.first)
        && (exists i :: 0 <= i < |r.lines| && r.lines[i].num == Target(w, up) && r.lines[i].selected)
        && Nums(w.lines) <= Nums(r.lines)
        && |r.lines| == |w.lines| + (if reply.Found? then 1 else 0)
        && (reply.Found? && up ==> r.lines[0].num == w.lines[0].num - 1)
        && (reply.Found? && !up ==> r.lines[|r.lines| - 1].num == w.lines[|w.lines| - 1].num + 1)
  {
    TargetResident(w, up);
    var (o, r) := Expanded(w, up, totalLines, reply);
    if o == Applied {
      var k := if up then w.top - 1 else w.bot;
      var shift := if up && reply.Found? then 1 else 0;
      assert r.lines[k + shift].num == Target(w, up) && r.lines[k + shift].selected;
      forall n | n in Nums(w.lines) ensures n in Nums(r.lines) {
        var i :| 0 <= i < |w.lines| && w.lines[i].num == n;
        assert r.lines[i + shift].num == n;
      }
    }
  }

  /** On the grown side, success leaves the count of unselected lines
   *  unchanged (one line added at the edge, one converted to selected); the
   *  not-found branch lowers it by one. The other side is untouched. */
  lemma ExpandPadding(w: Window, up: bool, totalLines: int, reply: Reply)
    requires WindowValid(w)
    ensures var (o, r) := Expanded(w, up, totalLines, reply);
      o == Applied ==>
        && (up ==> PadAbove(r) == PadAbove(w) - (if reply.Found? then 0 else 1) && PadBelow(r) == PadBelow(w))
        && (!up ==> PadBelow(r) == PadBelow(w) - (if reply.Found? then 0 else 1) && PadAbove(r) == PadAbove(w))
  {
    TargetResident(w, up);
    WindowShape(w);
    ExpandValid(w, up, totalLines, reply);
    WindowShape(Expanded(w, up, totalLines, reply).1);
  }

  /** A successful upward or downward `expand` followed by `contract` on the
   *  same expander restores the page exactly when at least three unselected
   *  lines lay on that side: the line `expand` fetched is the one `contract`
   *  evicts. With fewer, the fetched line stays and the selection is back. */
  lemma ExpandThenContract(w: Window, up: bool, totalLines: int, e: string, t: string)
    requires WindowValid(w)
    requires 1 <= Target(w, up) <= totalLines
    requires (if up then PadAbove(w) else PadBelow(w)) >= 3
    ensures var (o, r) := Expanded(w, up, totalLines, Found(e, t));
      o == Applied && WindowValid(r) && Contracted(r, up) == w
  {
    if up {
      ExpandThenContractUp(w, totalLines, e, t);
    } else {
      ExpandThenContractDown(w, totalLines, e, t);
    }
  }

  lemma ExpandThenContractUp(w: Window, totalLines: int, e: string, t: string)
    requires WindowValid(w)
    requires 1 <= Target(w, true) <= totalLines
    requires PadAbove(w) >= 3
    ensures var (o, r) := Expanded(w, true, totalLines, Found(e, t));
      o == Applied && WindowValid(r) && Contracted(r, true) == w
  {
    WindowShape(w);
    TargetResident(w, true);
    ExpandValid(w, true, totalLines, Found(e, t));
    var (o, r) := Expanded(w, true, totalLines, Found(e, t));
    var wl := w.lines[w.top - 1 := w.lines[w.top - 1].(selected := true)];
    assert r == Window([NewLine(e, LineToGet(w, true), t)] + wl, w.top, w.bot + 1, w.first - 1, w.last);
    ContractUndoesPrepend(w, r);
  }

  /** Contracting the top of a window that `expand` grew upwards by a
   *  fetched line drops that line and releases the one it selected. */
  lemma ContractUndoesPrepend(w: Window, r: Window)
    requires WindowValid(w) && WindowValid(r) && w.top >= 3
    requires r.lines[1..] == w.lines[w.top - 1 := w.lines[w.top - 1].(selected := true)]
    requires r.top == w.top && r.bot == w.bot + 1 && r.first == w.first - 1 && r.last == w.last
    ensures Contracted(r, true) == w
  {
    WindowShape(r);
    var ls := r.lines[r.top := r.lines[r.top].(selected := false)];
    assert ls[..r.top] == r.lines[..r.top];
    assert Unselected(ls[..r.top]) >= 3;
    assert !w.lines[w.top - 1].selected;
    assert ls[1..] == w.lines;
  }

  lemma ExpandThenContractDown(w: Window, totalLines: int, e: string, t: string)
    requires WindowValid(w)
    requires 1 <= Target(w, false) <= totalLines
    requires PadBelow(w) >= 3
    ensures var (o, r) := Expanded(w, false, totalLines, Found(e, t));
      o == Applied && WindowValid(r) && Contracted(r, false) == w
  {
    WindowShape(w);
    TargetResident(w, false);
    ExpandValid(w, false, totalLines, Found(e, t));
    var (o, r) := Expanded(w, false, totalLines, Found(e, t));
    var wl := w.lines[w.bot := w.lines[w.bot].(selected := true)];
    assert r == Window(wl + [NewLine(e, LineToGet(w, false), t)], w.top, w.bot + 1, w.first, w.last + 1);
    ContractUndoesAppend(w, r);
  }

  /** Contracting the bottom of a window that `expand` grew downwards by a
   *  fetched line drops that line and releases the one it selected. */
  lemma ContractUndoesAppend(w: Window, r: Window)
    requires WindowValid(w) && WindowValid(r) && |w.lines| - w.bot >= 3
    requires r.lines[..|r.lines| - 1] == w.lines[w.bot := w.lines[w.bot].(selected := true)]
    requires r.top == w.top && r.bot == w.bot + 1 && r.first == w.first && r.last == w.last + 1
    ensures Contracted(r, false) == w
  {
    WindowShape(r);
    var ls := r.lines[r.bot - 1 := r.lines[r.bot - 1].(selected := false)];
    assert ls[r.bot..] == r.lines[r.bot..];
    assert Unselected(ls[r.bot..]) >= 3;
    assert !w.lines[w.bot].selected;
    assert ls[..|ls| - 1] == w.lines;
  }

  /** A not-found `expand` followed by `contract` on the same expander
   *  restores the page when fewer than four unselected lines lay on that side. */
  lemma ExpandMissingThenContract(w: Window, up: bool, totalLines: int)
    requires WindowValid(w)
    requires 1 <= Target(w, up) <= totalLines
    requires 1 <= (if up then PadAbove(w) else PadBelow(w)) <= 3
    ensures var (o, r) := Expanded(w, up, totalLines, Missing);
      o == Applied && WindowValid(r) && Contracted(r, up) == w
  {
    WindowShape(w);
    TargetResident(w, up);
    ExpandValid(w, up, totalLines, Missing);
    var r := Expanded(w, up, totalLines, Missing).1;
    if up {
      assert r == Window(w.lines[w.top - 1 := w.lines[w.top - 1].(selected := true)], w.top - 1, w.bot, w.first - 1, w.last);
      ContractUndoesSelectUp(w, r);
    } else {
      assert r == Window(w.lines[w.bot := w.lines[w.bot].(selected := true)], w.top, w.bot + 1, w.first, w.last + 1);
      ContractUndoesSelectDown(w, r);
    }
  }

  /** Contracting the top of a window that a not-found `expand` grew
   *  upwards releases the line it selected and keeps every element. */
  lemma ContractUndoesSelectUp(w: Window, r: Window)
    requires WindowValid(w) && WindowValid(r) && 1 <= w.top <= 3
    requires r.lines == w.lines[w.top - 1 := w.lines[w.top - 1].(selected := true)]
    requires r.top == w.top - 1 && r.bot == w.bot && r.first == w.first - 1 && r.last == w.last
    ensures Contracted(r, true) == w
  {
    WindowShape(r);
    var ls := r.lines[r.top := r.lines[r.top].(selected := false)];
    assert ls[..r.top] == r.lines[..r.top];
    assert !w.lines[w.top - 1].selected;
    assert ls == w.lines;
  }

  /** Contracting the bottom of a window that a not-found `expand` grew
   *  downwards releases the line it selected and keeps every element. */
  lemma ContractUndoesSelectDown(w: Window, r: Window)
    requires WindowValid(w) && WindowValid(r) && 1 <= |w.lines| - w.bot <= 3
    requires r.lines == w.lines[w.bot := w.lines[w.bot].(selected := true)]
    requires r.top == w.top && r.bot == w.bot + 1 && r.first == w.first && r.last == w.last + 1
    ensures Contracted(r, false) == w
  {
    WindowShape(r);
    var ls := r.lines[r.bot - 1 := r.lines[r.bot - 1].(selected := false)];
    assert ls[r.bot..] == r.lines[r.bot..];
    assert !w.lines[w.bot].selected;
    assert ls == w.lines;
  }

  /** The expanders placed on a rendered, contiguous run whose `selection`
   *  classes cover exactly the lines first..last give a valid page. */
  lemma PlacedValid(lines: seq<Line>, first: int, last: int)
    requires |lines| > 0 && Contiguous(lines)
    requires lines[0].num <= first <= last < lines[0].num + |lines|
    requires forall i :: 0 <= i < |lines| ==> (lines[i].selected <==> first <= lines[i].num <= last)
    ensures Placed(lines, first, last).Ready? && WindowValid(Placed(lines, first, last).w)
  {
    FindContiguous(lines, first);
    FindContiguous(lines, last);
  }

  // ---- the counting loops of `contract` -------------------------------

  /** `for (i = 0; i < [...lines].indexOf(line); i++)`: unselected lines before index k. */
  method CountAbove(lines: seq<Line>, k: nat) returns (count: nat)
    requires k <= |lines|
    ensures count == Unselected(lines[..k])
  {
    count := 0;
    var i := 0;
    while i < k
      invariant 0 <= i <= k
      invariant count == Unselected(lines[..i])
    {
      UnselectedAppend(lines[..i], [lines[i]]);
      assert lines[..i + 1] == lines[..i] + [lines[i]];
      if !lines[i].selected { count := count + 1; }
      i := i + 1;
    }
  }

  /** `for (i = lines.length-1; i > [...lines].indexOf(line); i--)`: unselected lines after index k. */
  method CountBelow(lines: seq<Line>, k: nat) returns (count: nat)
    requires k < |lines|
    ensures count == Unselected(lines[k + 1..])
  {
    count := 0;
    var i := |lines| - 1;
    while i > k
      invariant k <= i < |lines|
      invariant count == Unselected(lines[i + 1..])
    {
      UnselectedAppend([lines[i]], lines[i + 1..]);
      assert lines[i..] == [lines[i]] + lines[i + 1..];
      if !lines[i].selected { count := count + 1; }
      i := i - 1;
    }
  }

  /** The block on the page, with the two hidden inputs and `totalLines`. */
  class SelectionBlock {
    var lines: seq<Line>
    var top: nat
    var bot: nat
    var first: int
    var last: int
    const totalLines: int

    function State(): Window
      reads this
    {
      Window(lines, top, bot, first, last)
    }

    predicate Valid()
      reads this
    {
      WindowValid(State())
    }

    /** The page load: the rendered lines and the two inputs, then both expanders. */
    constructor (rendered: seq<Line>, firstLine: int, lastLine: int, total: int)
      requires Placed(rendered, firstLine, lastLine).Ready?
      requires WindowValid(Placed(rendered, firstLine, lastLine).w)
      ensures Valid() && State() == Placed(rendered, firstLine, lastLine).w
      ensures totalLines == total
    {
      var w := Placed(rendered, firstLine, lastLine).w;
      lines, top, bot, first, last := w.lines, w.top, w.bot, w.first, w.last;
      totalLines := total;
    }

    /** `contract` on the top expander (`up`) or the bottom one. */
    method Contract(up: bool)
      requires Valid()
      modifies this
      ensures Valid()
      ensures State() == Contracted(old(State()), up)
    {
      ContractValid(State(), up);
      if first == last { return; }
      if up { ContractTop(); } else { ContractBottom(); }
    }

    /** The top branch of `contract`. */
    method ContractTop()
      requires Valid() && first != last
      modifies this
      ensures State() == Contracted(old(State()), true)
    {
      ghost var w := State();
      WindowShape(w);
      var k := Find(lines, first).value;
      var ls := lines[k := lines[k].(selected := false)];
      var countAbove := CountAbove(ls, k);
      if countAbove >= 3 {
        // the line moves below the expander, then `lines[0]` is evicted
        lines, top, bot := ls[1..], k, bot - 1;
      } else {
        lines, top := ls, k + 1;
      }
      first := first + 1;
    }

    /** The bottom branch of `contract`. */
    method ContractBottom()
      requires Valid() && first != last
      modifies this
      ensures State() == Contracted(old(State()), false)
    {
      ghost var w := State();
      WindowShape(w);
      var k := Find(lines, last).value;
      var ls := lines[k := lines[k].(selected := false)];
      var countBelow := CountBelow(ls, k);
      if countBelow >= 3 {
        // the expander moves above the line, then the last line is evicted
        lines, bot := ls[..|ls| - 1], k;
      } else {
        lines, bot := ls, k;
      }
      last := last - 1;
    }

    /** `expand` on the top expander (`up`) or the bottom one, with the
     *  server's reply to the line request. */
    method Expand(up: bool, reply: Reply) returns (outcome: Outcome)
      requires Valid()
      modifies this
      ensures Valid()
      ensures (outcome, State()) == Expanded(old(State()), up, totalLines, reply)
    {
      ExpandValid(State(), up, totalLines, reply);
      if up { outcome := ExpandTop(reply); } else { outcome := ExpandBottom(reply); }
    }

    /** The top branch of `expand` and its response handler. */
    method ExpandTop(reply: Reply) returns (outcome: Outcome)
      requires Valid()
      modifies this
      ensures (outcome, State()) == Expanded(old(State()), true, totalLines, reply)
    {
      ghost var w := State();
      TargetResident(w, true);
      var target := first - 1;
      if target > totalLines || target < 1 {
        return Ignored;
      }
      var lineToGet := lines[0].num - 1;
      var found := Find(lines, target);
      if found.None? {
        return Threw(TypeError);
      }
      var k := found.value;
      assert k == w.top - 1;
      var ls := lines[k := lines[k].(selected := true)];
      match reply {
        case Found(e, t) =>
          lines, top, bot := [NewLine(e, lineToGet, t)] + ls, k + 1, bot + 1;
        case Missing =>
          lines, top := ls, k;
      }
      first := target;
      outcome := Applied;
    }

    /** The bottom branch of `expand` and its response handler. */
    method ExpandBottom(reply: Reply) returns (outcome: Outcome)
      requires Valid()
      modifies this
      ensures (outcome, State()) == Expanded(old(State()), false, totalLines, reply)
    {
      ghost var w := State();
      TargetResident(w, false);
      var target := last + 1;
      if target > totalLines || target < 1 {
        return Ignored;
      }
      var lineToGet := lines[|lines| - 1].num + 1;
      var found := Find(lines, target);
      if found.None? {
        return Threw(TypeError);
      }
      var k := found.value;
      assert k == w.bot;
      var ls := lines[k := lines[k].(selected := true)];
      match reply {
        case Found(e, t) =>
          lines, bot := ls + [NewLine(e, lineToGet, t)], k + 1;
        case Missing =>
          lines, bot := ls, k + 1;
      }
      last := target;
      outcome := Applied;
    }
  }
}
