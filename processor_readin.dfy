/**
 * The first pass of the text processor (`readin`): each line of the
 * prepared text becomes a tuple (emphasis code, line class, text). The
 * class comes from the first pattern of the search space the line matches;
 * a ``` fence switches preformatted mode on and off instead, and every
 * line inside it is `pre`. The emphasis code follows the underscores:
 * a line with an odd number of them advances the nem, oem, em, cem cycle,
 * and `oem` and `cem` are advanced once more after their line.
 */
module ReadIn {
  import opened Wrappers
  import opened Strings
  import opened Emphasis
  import opened OrderedDicts

  /** The line without the one final newline that `$` may stand before. */
  function Body(line: string): string
  {
    if |line| > 0 && line[|line| - 1] == '\n' then line[..|line| - 1] else line
  }

  predicate Spaces(s: string)
  {
    forall i :: 0 <= i < |s| ==> s[i] == ' '
  }

  /** The five syntax patterns, and a pattern of the matches file. */
  datatype Regex = Blank | Rule | Quote | Fence | Indent | Pattern(source: string)

  /** `re.search(regex, line)`. The matches file's patterns are searched by
   *  `search`, which stands for the regular-expression engine. */
  predicate Found(search: (string, string) -> bool, rx: Regex, line: string)
  {
    match rx
    case Blank => Spaces(Body(line))
    case Rule => Body(line) == "***"
    case Quote => |line| > 0 && line[0] == '>'
    case Fence => Contains(line, "```")
    case Indent => |line| > 0 && line[0] == '#'
    case Pattern(p) => search(p, line)
  }

  /** What the lambda stored under a pattern does. */
  datatype Action = AddBlank | AddRule | AddQuote | SwitchPre | AddIndent | AddToc(precedence: int) | AddSpecial(enum: string)

  /** The class of a line: a name, or the precedence of a heading. */
  datatype Class = Word(name: string) | Level(precedence: int)

  datatype InLine = InLine(emphasis: Emph, cls: Class, text: string)

  const Syntax: seq<(Regex, Action)> :=
    [(Blank, AddBlank), (Rule, AddRule), (Quote, AddQuote), (Fence, SwitchPre), (Indent, AddIndent)]

  /** The table-of-contents entries (pattern, precedence) as items. */
  function TocItems(toc: seq<(string, int)>): (r: seq<(Regex, Action)>)
    ensures |r| == |toc|
    ensures forall i :: 0 <= i < |toc| ==> r[i] == (Pattern(toc[i].0), AddToc(toc[i].1))
  {
    seq(|toc|, i requires 0 <= i < |toc| => (Pattern(toc[i].0), AddToc(toc[i].1)))
  }

  /** The special designators (pattern, enum) as items. */
  function SpecialItems(specials: seq<(string, string)>): (r: seq<(Regex, Action)>)
    ensures |r| == |specials|
    ensures forall i :: 0 <= i < |specials| ==> r[i] == (Pattern(specials[i].0), AddSpecial(specials[i].1))
  {
    seq(|specials|, i requires 0 <= i < |specials| => (Pattern(specials[i].0), AddSpecial(specials[i].1)))
  }

  /** `{**syntaxspace, **tocspace, **specialsspace}`. */
  function SearchSpace(toc: seq<(string, int)>, specials: seq<(string, string)>): seq<(Regex, Action)>
  {
    PutAll(PutAll(Syntax, TocItems(toc)), SpecialItems(specials))
  }

  /** The search space tries the five syntax patterns first, in their
   *  order, and no pattern twice. */
  lemma SyntaxFirst(toc: seq<(string, int)>, specials: seq<(string, string)>)
    ensures var ss := SearchSpace(toc, specials);
      UniqueKeys(ss) && |ss| >= 5 && ss[..5] == Syntax
  {
    var t := TocItems(toc);
    var sp := SpecialItems(specials);
    var m := PutAll(Syntax, t);
    var ss := PutAll(m, sp);
    PutAllGrows(Syntax, t);
    PutAllGrows(m, sp);
    forall i | 0 <= i < 5 ensures ss[i] == Syntax[i] {
      PutAllKeeps(Syntax, t, i);
      PutAllKeeps(m, sp, i);
    }
  }

  /** Every heading pattern is tried before every special pattern that is
   *  not also a heading pattern. */
  lemma HeadingsBeforeSpecials(toc: seq<(string, int)>, specials: seq<(string, string)>, i: nat, j: nat)
    requires i < |toc| && j < |specials|
    requires LastValue(TocItems(toc), Pattern(specials[j].0)).None?
    ensures var ss := SearchSpace(toc, specials);
      && KeyIndex(ss, Pattern(toc[i].0)).Some? && KeyIndex(ss, Pattern(specials[j].0)).Some?
      && KeyIndex(ss, Pattern(toc[i].0)).value < KeyIndex(ss, Pattern(specials[j].0)).value
  {
    var t := TocItems(toc);
    var sp := SpecialItems(specials);
    var m := PutAll(Syntax, t);
    var ss := PutAll(m, sp);
    var a := Pattern(toc[i].0);
    var b := Pattern(specials[j].0);
    assert t[i].0 == a && sp[j].0 == b;
    PutAllAt(Syntax, t, a);
    PutAllAt(Syntax, t, b);
    UniqueLookup(Syntax, b);
    assert KeyIndex(m, b).None?;
    var ia := KeyIndex(m, a).value;
    PutAllSpec(m, sp);
    UniqueIndex(ss, ia);
    assert Lookup(ss, b).Some?;
  }

  /** A special pattern takes the action of its last entry, and a heading
   *  pattern that is not also a special one that of its last entry. */
  lemma SearchSpaceActions(toc: seq<(string, int)>, specials: seq<(string, string)>, p: string)
    ensures var ss := SearchSpace(toc, specials);
      var fromSpecials := LastValue(SpecialItems(specials), Pattern(p));
      && (fromSpecials.Some? ==> Lookup(ss, Pattern(p)) == fromSpecials)
      && (fromSpecials.None? ==> Lookup(ss, Pattern(p)) == LastValue(TocItems(toc), Pattern(p)))
  {
    var m := PutAll(Syntax, TocItems(toc));
    PutAllAt(Syntax, TocItems(toc), Pattern(p));
    PutAllAt(m, SpecialItems(specials), Pattern(p));
    UniqueLookup(Syntax, Pattern(p));
  }

  /** Only the fence switches preformatted mode. */
  lemma OnlyFenceSwitchesHolds(toc: seq<(string, int)>, specials: seq<(string, string)>)
    ensures OnlyFenceSwitches(SearchSpace(toc, specials))
  {
    var t := TocItems(toc);
    var sp := SpecialItems(specials);
    var m := PutAll(Syntax, t);
    var ss := PutAll(m, sp);
    forall k | 0 <= k < |ss| && ss[k].1 == SwitchPre ensures ss[k].0 == Fence {
      var key := ss[k].0;
      PutAllAt(Syntax, t, key);
      PutAllAt(m, sp, key);
      UniqueLookup(ss, key);
      assert Lookup(ss, key) == Some(SwitchPre);
      NoLastValue(sp, key, SwitchPre);
      assert Lookup(m, key) == Some(SwitchPre);
      NoLastValue(t, key, SwitchPre);
      SyntaxSwitch(key);
    }
  }

  /** In the syntax space only the fence switches the mode. */
  lemma SyntaxSwitch(key: Regex)
    requires Lookup(Syntax, key) == Some(SwitchPre)
    ensures key == Fence
  {
    UniqueLookup(Syntax, key);
  }

  /** The only pattern whose action switches preformatted mode is the fence. */
  predicate OnlyFenceSwitches(ss: seq<(Regex, Action)>)
  {
    forall k :: 0 <= k < |ss| && ss[k].1 == SwitchPre ==> ss[k].0 == Fence
  }

  /** Where the loop over the search space stops: the first pattern found. */
  function FirstMatch(search: (string, string) -> bool, ss: seq<(Regex, Action)>, line: string): (r: Option<nat>)
    ensures r.Some? ==> r.value < |ss| && Found(search, ss[r.value].0, line)
                        && forall j :: 0 <= j < r.value ==> !Found(search, ss[j].0, line)
    ensures r.None? ==> forall j :: 0 <= j < |ss| ==> !Found(search, ss[j].0, line)
  {
    if ss == [] then None
    else if Found(search, ss[0].0, line) then Some(0)
    else match FirstMatch(search, ss[1..], line)
      case None => None
      case Some(i) => Some(i + 1)
  }

  datatype InState = InState(lines: seq<InLine>, pre: bool, emphasis: Emph)

  /** The lambda of an action, called with the emphasis `e` of the line. */
  function Apply(a: Action, e: Emph, line: string, st: InState): InState
  {
    match a
    case AddBlank => st.(lines := st.lines + [InLine(e, Word("blank"), Strip(line))])
    case AddRule => st.(lines := st.lines + [InLine(e, Word("hr"), "<hr>")])
    case AddQuote => st.(lines := st.lines + [InLine(e, Word("quo"), Strip(StripChars(line, {'>'})))])
    case SwitchPre => st.(pre := !st.pre)
    case AddIndent =>
      st.(lines := st.lines + [InLine(e, Word("ind" + ShowInt(CountChar(line, '#'))), Strip(StripChars(line, {'#'})))])
    case AddToc(p) => st.(lines := st.lines + [InLine(e, Level(p), Strip(line))])
    case AddSpecial(en) => st.(lines := st.lines + [InLine(e, Word(en), Strip(line))])
  }

  /** The emphasis a line is recorded with. */
  function LineEmphasis(carried: Emph, line: string): Emph
  {
    if Odd(CountChar(line, '_')) then EmSwitch(carried) else carried
  }

  /** A line outside preformatted mode: the action of the first pattern
   *  found, or a `text` tuple. */
  function Unformatted(search: (string, string) -> bool, ss: seq<(Regex, Action)>, e: Emph, st: InState, line: string): InState
  {
    match FirstMatch(search, ss, line)
    case None => st.(lines := st.lines + [InLine(e, Word("text"), Strip(line))])
    case Some(k) => Apply(ss[k].1, e, line, st)
  }

  /** A line inside preformatted mode: a fence switches the mode off. */
  function Preformatted(search: (string, string) -> bool, e: Emph, st: InState, line: string): InState
  {
    if Found(search, Fence, line) then st.(pre := !st.pre)
    else st.(lines := st.lines + [InLine(e, Word("pre"), Strip(line))])
  }

  /** The lambdas never touch the carried emphasis. */
  lemma UnformattedKeepsEmphasis(search: (string, string) -> bool, ss: seq<(Regex, Action)>, e: Emph, st: InState, line: string)
    ensures Unformatted(search, ss, e, st.(emphasis := e), line) == Unformatted(search, ss, e, st, line).(emphasis := e)
  {
    match FirstMatch(search, ss, line)
    case None =>
    case Some(k) =>
      ApplyKeepsEmphasis(ss[k].1, e, line, st);
  }

  lemma ApplyKeepsEmphasis(a: Action, e: Emph, line: string, st: InState)
    ensures Apply(a, e, line, st.(emphasis := e)) == Apply(a, e, line, st).(emphasis := e)
  {
  }

  /** `process_line` on the state `st`. */
  function Step(search: (string, string) -> bool, ss: seq<(Regex, Action)>, st: InState, line: string): InState
  {
    var e := LineEmphasis(st.emphasis, line);
    var mid := if st.pre then Preformatted(search, e, st, line) else Unformatted(search, ss, e, st, line);
    mid.(emphasis := if e == Oem || e == Cem then EmSwitch(e) else e)
  }

  /** The state after the lines of `fin`, from a fresh switch. */
  function ReadAll(search: (string, string) -> bool, ss: seq<(Regex, Action)>, fin: seq<string>): InState
  {
    if fin == [] then InState([], false, Nem)
    else Step(search, ss, ReadAll(search, ss, fin[..|fin| - 1]), fin[|fin| - 1])
  }

  /** Nem and em swapped: what two steps of the cycle do to a carried code. */
  function Flip(e: Emph): Emph
  {
    if e == Nem then Em else Nem
  }

  /** One line: from a carried nem or em, the line is recorded with the
   *  next code of the cycle when it has an odd number of underscores, and
   *  the carried code is then nem or em again; either exactly one tuple is
   *  added and the mode stays, or none is and the mode switches, the
   *  latter exactly for a fence in preformatted mode or for a line whose
   *  first pattern is the fence outside it. Inside preformatted mode
   *  every other line is `pre`; outside, a line matching no pattern is `text`. */
  lemma StepShape(search: (string, string) -> bool, ss: seq<(Regex, Action)>, st: InState, line: string)
    requires st.emphasis == Nem || st.emphasis == Em
    ensures var r := Step(search, ss, st, line);
      var e := LineEmphasis(st.emphasis, line);
      var toggles := if st.pre then Found(search, Fence, line)
                     else FirstMatch(search, ss, line).Some? && ss[FirstMatch(search, ss, line).value].1 == SwitchPre;
      && r.emphasis == (if Odd(CountChar(line, '_')) then Flip(st.emphasis) else st.emphasis)
      && (toggles ==> r.lines == st.lines && r.pre == !st.pre)
      && (!toggles ==> |r.lines| == |st.lines| + 1 && r.lines[..|st.lines|] == st.lines && r.pre == st.pre
                       && r.lines[|st.lines|].emphasis == e)
      && (st.pre && !toggles ==> r.lines[|st.lines|].cls == Word("pre"))
      && (!st.pre && FirstMatch(search, ss, line).None? ==> r.lines[|st.lines|].cls == Word("text"))
  {
    var e := LineEmphasis(st.emphasis, line);
    var mid := if st.pre then Preformatted(search, e, st, line) else Unformatted(search, ss, e, st, line);
    assert Step(search, ss, st, line) == mid.(emphasis := if e == Oem || e == Cem then EmSwitch(e) else e);
    if !st.pre {
      UnformattedShape(search, ss, e, st, line);
    }
  }

  /** Outside preformatted mode a line either switches the mode (its first
   *  pattern is the fence's) or adds one tuple, `text` when no pattern is found. */
  lemma UnformattedShape(search: (string, string) -> bool, ss: seq<(Regex, Action)>, e: Emph, st: InState, line: string)
    ensures var r := Unformatted(search, ss, e, st, line);
      var toggles := FirstMatch(search, ss, line).Some? && ss[FirstMatch(search, ss, line).value].1 == SwitchPre;
      && (toggles ==> r.lines == st.lines && r.pre == !st.pre)
      && (!toggles ==> |r.lines| == |st.lines| + 1 && r.lines[..|st.lines|] == st.lines && r.pre == st.pre
                       && r.lines[|st.lines|].emphasis == e)
      && (FirstMatch(search, ss, line).None? ==> r.lines[|st.lines|].cls == Word("text"))
  {
    match FirstMatch(search, ss, line)
    case None =>
    case Some(k) =>
      ApplyShape(ss[k].1, e, line, st);
  }

  /** A lambda either switches the mode or adds one tuple with the line's emphasis. */
  lemma ApplyShape(a: Action, e: Emph, line: string, st: InState)
    ensures var r := Apply(a, e, line, st);
      && (a == SwitchPre ==> r.lines == st.lines && r.pre == !st.pre)
      && (a != SwitchPre ==> |r.lines| == |st.lines| + 1 && r.lines[..|st.lines|] == st.lines && r.pre == st.pre
                             && r.lines[|st.lines|].emphasis == e)
  {
  }

  /** The part of `StepShape` about the carried code. */
  lemma StepCarries(search: (string, string) -> bool, ss: seq<(Regex, Action)>, st: InState, line: string)
    requires st.emphasis == Nem || st.emphasis == Em
    ensures var r := Step(search, ss, st, line);
      && r.emphasis == (if Odd(CountChar(line, '_')) then Flip(st.emphasis) else st.emphasis)
  {
    var e := LineEmphasis(st.emphasis, line);
    assert Step(search, ss, st, line).emphasis == if e == Oem || e == Cem then EmSwitch(e) else e;
  }

  /** The number of lines with an odd number of underscores. */
  function OddLines(fin: seq<string>): nat
  {
    if fin == [] then 0 else OddLines(fin[..|fin| - 1]) + (if Odd(CountChar(fin[|fin| - 1], '_')) then 1 else 0)
  }

  /** After any lines, the carried code is em exactly when an odd number of
   *  them had an odd number of underscores, and nem otherwise: `oem` and
   *  `cem` are never carried. */
  lemma {:induction false} CarriedEmphasis(search: (string, string) -> bool, ss: seq<(Regex, Action)>, fin: seq<string>)
    ensures var r := ReadAll(search, ss, fin);
      && r.emphasis == (if Odd(OddLines(fin)) then Em else Nem)
  {
    if fin != [] {
      var front := fin[..|fin| - 1];
      var line := fin[|fin| - 1];
      CarriedEmphasis(search, ss, front);
      ReadAllCarries(search, ss, fin);
      var odd := Odd(CountChar(line, '_'));
      assert OddLines(fin) == OddLines(front) + (if odd then 1 else 0);
      CarriedParity(OddLines(front), odd, OddLines(fin), ReadAll(search, ss, front).emphasis, ReadAll(search, ss, fin).emphasis);
    }
  }

  /** The carried code after one more line. */
  lemma ReadAllCarries(search: (string, string) -> bool, ss: seq<(Regex, Action)>, fin: seq<string>)
    requires fin != []
    requires var c := ReadAll(search, ss, fin[..|fin| - 1]).emphasis; c == Nem || c == Em
    ensures var c := ReadAll(search, ss, fin[..|fin| - 1]).emphasis;
      ReadAll(search, ss, fin).emphasis == if Odd(CountChar(fin[|fin| - 1], '_')) then Flip(c) else c
  {
    StepCarries(search, ss, ReadAll(search, ss, fin[..|fin| - 1]), fin[|fin| - 1]);
  }

  /** One more line keeps the carried code in step with the parity of the count. */
  lemma CarriedParity(n: nat, odd: bool, m: nat, c: Emph, r: Emph)
    requires m == n + (if odd then 1 else 0)
    requires c == (if Odd(n) then Em else Nem)
    requires r == (if odd then Flip(c) else c)
    ensures r == (if Odd(m) then Em else Nem)
  {
    OddSum(n, 1);
  }

  /** At most one tuple per line is produced. */
  lemma {:induction false} ReadAllLength(search: (string, string) -> bool, ss: seq<(Regex, Action)>, fin: seq<string>)
    ensures |ReadAll(search, ss, fin).lines| <= |fin|
  {
    if fin != [] {
      var front := fin[..|fin| - 1];
      ReadAllLength(search, ss, front);
      CarriedEmphasis(search, ss, front);
      StepShape(search, ss, ReadAll(search, ss, front), fin[|fin| - 1]);
    }
  }

  /** Without a fence in the text, every line gives exactly one tuple, in
   *  order, and preformatted mode is never entered. */
  lemma {:induction false} OneTuplePerLine(search: (string, string) -> bool, ss: seq<(Regex, Action)>, fin: seq<string>)
    requires OnlyFenceSwitches(ss)
    requires forall i :: 0 <= i < |fin| ==> !Contains(fin[i], "```")
    ensures var r := ReadAll(search, ss, fin); |r.lines| == |fin| && !r.pre
  {
    if fin != [] {
      var front := fin[..|fin| - 1];
      OneTuplePerLine(search, ss, front);
      CarriedEmphasis(search, ss, front);
      var st := ReadAll(search, ss, front);
      var line := fin[|fin| - 1];
      StepShape(search, ss, st, line);
      NoFenceNoSwitch(search, ss, line);
    }
  }

  /** `readin` on a text without fences gives one tuple per line. */
  lemma ReadInOneTuplePerLine(search: (string, string) -> bool, toc: seq<(string, int)>,
                              specials: seq<(string, string)>, fin: seq<string>)
    requires forall i :: 0 <= i < |fin| ==> !Contains(fin[i], "```")
    ensures |ReadAll(search, SearchSpace(toc, specials), fin).lines| == |fin|
  {
    OnlyFenceSwitchesHolds(toc, specials);
    OneTuplePerLine(search, SearchSpace(toc, specials), fin);
  }

  lemma NoFenceNoSwitch(search: (string, string) -> bool, ss: seq<(Regex, Action)>, line: string)
    requires OnlyFenceSwitches(ss) && !Contains(line, "```")
    ensures forall k :: 0 <= k < |ss| && Found(search, ss[k].0, line) ==> ss[k].1 != SwitchPre
  {
  }

  /** The switch of `readin`. */
  class InSwitch {
    const search: (string, string) -> bool
    const searchspace: seq<(Regex, Action)>
    var lines: seq<InLine>
    var pre: bool
    var emphasis: Emph

    function State(): InState
      reads this
    {
      InState(lines, pre, emphasis)
    }

    /** `Switch(matches)`: the matches file gives the heading and special
     *  patterns, in the order of the file. */
    constructor (toc: seq<(string, int)>, specials: seq<(string, string)>, search: (string, string) -> bool)
      ensures this.search == search && searchspace == SearchSpace(toc, specials)
      ensures State() == InState([], false, Nem)
    {
      this.search := search;
      searchspace := SearchSpace(toc, specials);
      lines := [];
      pre := false;
      emphasis := Nem;
    }

    /** The lambda stored under a pattern. */
    method Fire(a: Action, line: string)
      modifies this
      ensures State() == Apply(a, old(emphasis), line, old(State()))
    {
      match a
      case AddBlank => lines := lines + [InLine(emphasis, Word("blank"), Strip(line))];
      case AddRule => lines := lines + [InLine(emphasis, Word("hr"), "<hr>")];
      case AddQuote => lines := lines + [InLine(emphasis, Word("quo"), Strip(StripChars(line, {'>'})))];
      case SwitchPre => SwitchPre();
      case AddIndent =>
        lines := lines + [InLine(emphasis, Word("ind" + ShowInt(CountChar(line, '#'))), Strip(StripChars(line, {'#'})))];
      case AddToc(p) => lines := lines + [InLine(emphasis, Level(p), Strip(line))];
      case AddSpecial(en) => lines := lines + [InLine(emphasis, Word(en), Strip(line))];
    }

    /** `switch_pre`. */
    method SwitchPre()
      modifies this
      ensures State() == old(State()).(pre := !old(pre))
    {
      pre := !pre;
    }

    /** The loop of `process_line` over the search space. */
    method Dispatch(line: string)
      modifies this
      ensures State() == Unformatted(search, searchspace, old(emphasis), old(State()), line)
    {
      var triggered := false;
      var i := 0;
      while i < |searchspace|
        invariant 0 <= i <= |searchspace|
        invariant State() == old(State())
        invariant forall j :: 0 <= j < i ==> !Found(search, searchspace[j].0, line)
      {
        if Found(search, searchspace[i].0, line) {
          assert FirstMatch(search, searchspace, line) == Some(i);
          Fire(searchspace[i].1, line);
          triggered := true;
          break;
        }
        i := i + 1;
      }
      if !triggered {
        assert FirstMatch(search, searchspace, line).None?;
        lines := lines + [InLine(emphasis, Word("text"), Strip(line))];
      }
    }

    /** `process_line`. */
    method ProcessLine(line: string)
      modifies this
      ensures State() == Step(search, searchspace, old(State()), line)
    {
      ghost var st := State();
      if CountChar(line, '_') % 2 == 1 {
        emphasis := EmSwitch(emphasis);
      }
      ghost var e := emphasis;
      assert e == LineEmphasis(st.emphasis, line);
      if pre {
        if Found(search, Fence, line) {
          SwitchPre();
        } else {
          lines := lines + [InLine(emphasis, Word("pre"), Strip(line))];
        }
        assert State() == Preformatted(search, e, st, line).(emphasis := e);
      } else {
        Dispatch(line);
        UnformattedKeepsEmphasis(search, searchspace, e, st, line);
        assert State() == Unformatted(search, searchspace, e, st, line).(emphasis := e);
      }
      if emphasis == Oem || emphasis == Cem {
        emphasis := EmSwitch(emphasis);
      }
    }
  }

  /** `readin(fin, matches)`. */
  method ReadInLines(fin: seq<string>, toc: seq<(string, int)>, specials: seq<(string, string)>,
                     search: (string, string) -> bool)
    returns (lines: seq<InLine>)
    ensures lines == ReadAll(search, SearchSpace(toc, specials), fin).lines
  {
    var switcher := new InSwitch(toc, specials, search);
    for i := 0 to |fin|
      invariant switcher.State() == ReadAll(search, switcher.searchspace, fin[..i])
    {
      assert fin[..i + 1][..i] == fin[..i];
      switcher.ProcessLine(fin[i]);
    }
    assert fin[..|fin|] == fin;
    lines := switcher.lines;
  }
}
