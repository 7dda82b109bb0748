/**
 * The second pass of the text processor (`readout`): the tuples of
 * `readin` become line records with a running line number and a list of
 * attributes. Blank lines are numbered out and produce no record; a
 * heading line advances its level of the table of contents and resets the
 * deeper levels that do not aggregate; every record carries the levels
 * whose counters are above 0, in order of precedence, and a text line is
 * the first line of a paragraph exactly when the line before it was blank.
 */
module ReadOut {
  import opened Wrappers
  import opened Strings
  import opened Emphasis
  import opened OrderedDicts
  import opened ReadIn

  /** A key of the second search space: a name, the compiled pattern
   *  `ind[0-9]*`, or the integer precedence of a heading. */
  datatype Key = Name(name: string) | IndentKey | Prec(precedence: int)

  /** What the lambda stored under a key does with a line. */
  datatype OutAction = Skip | HrOut | QuoOut | PreOut | IndentOut | TocOut | SpecialOut(enum: string, display: string)

  datatype Attr = Attr(enum: string, display: string, num: int, precedence: int, primary: bool)

  datatype OutLine = OutLine(line: string, emphasis: Emph, num: int, attributes: seq<Attr>)

  /** A counter of the table of contents. */
  datatype TocLevel = TocLevel(num: int, aggregate: bool, display: string)

  /** A heading entry and a special entry of the matches file. */
  datatype TocEntry = TocEntry(precedence: int, aggregate: bool, display: string)
  datatype SpecialEntry = SpecialEntry(enum: string, display: string)

  /** `str(line[1])`. */
  function ClassText(c: Class): string
  {
    match c
    case Word(s) => s
    case Level(p) => ShowInt(p)
  }

  /** `re.match(key, str(line[1]))`: a name is matched at the start of the
   *  class (names are taken literally); for a precedence `re.match` raises
   *  `TypeError` and the `except` tests `str(key) in str(line[1])` instead. */
  predicate KeyMatches(key: Key, c: Class)
  {
    match key
    case Name(n) => StartsWith(ClassText(c), n)
    case IndentKey => StartsWith(ClassText(c), "ind")
    case Prec(p) => Contains(ClassText(c), ShowInt(p))
  }

  const OutSyntax: seq<(Key, OutAction)> :=
    [(Name("blank"), Skip), (Name("hr"), HrOut), (Name("quo"), QuoOut), (Name("pre"), PreOut), (IndentKey, IndentOut)]

  function TocKeys(toc: seq<TocEntry>): (r: seq<(Key, OutAction)>)
    ensures |r| == |toc|
    ensures forall i :: 0 <= i < |toc| ==> r[i] == (Prec(toc[i].precedence), TocOut)
  {
    seq(|toc|, i requires 0 <= i < |toc| => (Prec(toc[i].precedence), TocOut))
  }

  function SpecialKeys(specials: seq<SpecialEntry>): (r: seq<(Key, OutAction)>)
    ensures |r| == |specials|
    ensures forall i :: 0 <= i < |specials| ==>
      r[i] == (Name(specials[i].enum), SpecialOut(specials[i].enum, specials[i].display))
  {
    seq(|specials|, i requires 0 <= i < |specials| =>
      (Name(specials[i].enum), SpecialOut(specials[i].enum, specials[i].display)))
  }

  /** `{**syntaxspace, **tocspace, **specialsspace}`. */
  function OutSearchSpace(toc: seq<TocEntry>, specials: seq<SpecialEntry>): seq<(Key, OutAction)>
  {
    PutAll(PutAll(OutSyntax, TocKeys(toc)), SpecialKeys(specials))
  }

  /** Only the `blank` key skips a line. */
  lemma OnlyBlankSkips(toc: seq<TocEntry>, specials: seq<SpecialEntry>)
    ensures SkipsOnlyBlank(OutSearchSpace(toc, specials))
  {
    var t := TocKeys(toc);
    var sp := SpecialKeys(specials);
    var m := PutAll(OutSyntax, t);
    var ss := PutAll(m, sp);
    forall k | 0 <= k < |ss| && ss[k].1 == Skip ensures ss[k].0 == Name("blank") {
      var key := ss[k].0;
      PutAllAt(OutSyntax, t, key);
      PutAllAt(m, sp, key);
      UniqueLookup(ss, key);
      assert Lookup(ss, key) == Some(Skip);
      NoLastValue(sp, key, Skip);
      assert Lookup(m, key) == Some(Skip);
      NoLastValue(t, key, Skip);
      assert Lookup(OutSyntax, key) == Some(Skip);
      SyntaxSkip(key);
    }
  }

  /** In the syntax space only `blank` skips. */
  lemma SyntaxSkip(key: Key)
    requires Lookup(OutSyntax, key) == Some(Skip)
    ensures key == Name("blank")
  {
    UniqueLookup(OutSyntax, key);
  }

  /** The `blank` key is tried first, and it skips unless a special
   *  designator is itself named `blank`. */
  lemma BlankKeyFirst(toc: seq<TocEntry>, specials: seq<SpecialEntry>)
    ensures var ss := OutSearchSpace(toc, specials);
      && UniqueKeys(ss) && |ss| >= 5 && ss[0].0 == Name("blank")
      && ((forall j :: 0 <= j < |specials| ==> specials[j].enum != "blank") ==> ss[0].1 == Skip)
  {
    var t := TocKeys(toc);
    var sp := SpecialKeys(specials);
    var m := PutAll(OutSyntax, t);
    var ss := PutAll(m, sp);
    PutAllGrows(OutSyntax, t);
    PutAllGrows(m, sp);
    assert forall j :: 0 <= j < |t| ==> t[j].0 != Name("blank");
    PutAllKeeps(OutSyntax, t, 0);
    PutAllPlace(m, sp, 0);
    if forall j :: 0 <= j < |specials| ==> specials[j].enum != "blank" {
      assert forall j :: 0 <= j < |sp| ==> sp[j].0 != Name("blank");
      PutAllKeeps(m, sp, 0);
    }
  }

  /** `tocnums`: every precedence of the matches file with its counter at 0;
   *  a precedence listed twice keeps its last entry. */
  function TocNums(toc: seq<TocEntry>): (m: map<int, TocLevel>)
    ensures forall i :: 0 <= i < |toc| ==> toc[i].precedence in m
    ensures forall p :: p in m ==> m[p].num == 0 && exists i :: 0 <= i < |toc| && toc[i].precedence == p
  {
    if toc == [] then map[]
    else
      var e := toc[|toc| - 1];
      TocNums(toc[..|toc| - 1])[e.precedence := TocLevel(0, e.aggregate, e.display)]
  }

  /** `maxtoc = max(self.tocnums.keys())`. */
  function MaxPrecedence(toc: seq<TocEntry>): (r: int)
    requires toc != []
    ensures forall i :: 0 <= i < |toc| ==> toc[i].precedence <= r
    ensures exists i :: 0 <= i < |toc| && toc[i].precedence == r
  {
    if |toc| == 1 then toc[0].precedence
    else
      var m := MaxPrecedence(toc[..|toc| - 1]);
      var p := toc[|toc| - 1].precedence;
      if p > m then p else m
  }

  // ---- hierarchy -------------------------------------------------------

  /** `hierarchy(line)` over the levels `1..n`: the levels whose counter is
   *  above 0; `KeyError` when a level has no counter. */
  function Hierarchy(t: map<int, TocLevel>, n: int, c: Class): Result<seq<Attr>>
    decreases n
  {
    if n < 1 then Ok([])
    else match Hierarchy(t, n - 1, c)
      case Err(e) => Err(e)
      case Ok(attrs) =>
        if n !in t then Err(KeyError)
        else if t[n].num > 0 then Ok(attrs + [Attr("lvl" + ShowInt(n), t[n].display, t[n].num, n, c == Level(n))])
        else Ok(attrs)
  }

  /** The attribute of level `i`. */
  predicate LevelAttr(t: map<int, TocLevel>, c: Class, a: Attr)
  {
    a.precedence in t && a.num == t[a.precedence].num > 0 && a.display == t[a.precedence].display
    && a.enum == "lvl" + ShowInt(a.precedence) && a.primary == (c == Level(a.precedence))
  }

  /** The hierarchy exists exactly when every level `1..n` has a counter. */
  lemma {:induction false} HierarchyDefined(t: map<int, TocLevel>, n: int, c: Class)
    ensures var r := Hierarchy(t, n, c);
      && (r.Ok? <==> forall i :: 1 <= i <= n ==> i in t)
      && (r.Err? ==> r.error == KeyError)
    decreases n
  {
    if n >= 1 {
      HierarchyDefined(t, n - 1, c);
    }
  }

  /** The hierarchy lists levels `1..n` with counters above 0, each once and
   *  in ascending precedence, and marks primary exactly the level the line
   *  is a heading of. */
  lemma {:induction false} HierarchyLevels(t: map<int, TocLevel>, n: int, c: Class)
    ensures var r := Hierarchy(t, n, c);
      r.Ok? ==>
        && (forall k :: 0 <= k < |r.value| ==> 1 <= r.value[k].precedence <= n && LevelAttr(t, c, r.value[k]))
        && (forall a, b :: 0 <= a < b < |r.value| ==> r.value[a].precedence < r.value[b].precedence)
    decreases n
  {
    if n >= 1 {
      HierarchyLevels(t, n - 1, c);
    }
  }

  /** Every level `1..n` whose counter is above 0 is listed. */
  lemma {:induction false} HierarchyComplete(t: map<int, TocLevel>, n: int, c: Class)
    ensures var r := Hierarchy(t, n, c);
      r.Ok? ==> forall i :: 1 <= i <= n && i in t && t[i].num > 0 ==>
                  exists k :: 0 <= k < |r.value| && r.value[k].precedence == i
    decreases n
  {
    if n >= 1 {
      HierarchyComplete(t, n - 1, c);
      var r0 := Hierarchy(t, n - 1, c);
      if r0.Ok? && n in t && t[n].num > 0 {
        var r := r0.value + [Attr("lvl" + ShowInt(n), t[n].display, t[n].num, n, c == Level(n))];
        assert Hierarchy(t, n, c) == Ok(r);
        forall i | 1 <= i <= n && i in t && t[i].num > 0 ensures exists k :: 0 <= k < |r| && r[k].precedence == i {
          if i < n {
            var k :| 0 <= k < |r0.value| && r0.value[k].precedence == i;
            assert r[k] == r0.value[k];
          } else {
            assert r[|r| - 1].precedence == i;
          }
        }
      }
    }
  }

  // ---- table-of-contents counters ----------------------------------------

  /** The loop of `update_toc_nums` over the levels `lo..hi`: each level that
   *  does not aggregate is reset to 0; `KeyError` at a level without a counter. */
  function ResetBelow(t: map<int, TocLevel>, lo: int, hi: int): Result<map<int, TocLevel>>
    decreases hi - lo
  {
    if hi < lo then Ok(t)
    else match ResetBelow(t, lo, hi - 1)
      case Err(e) => Err(e)
      case Ok(u) =>
        if hi !in u then Err(KeyError)
        else if !u[hi].aggregate then Ok(u[hi := u[hi].(num := 0)])
        else Ok(u)
  }

  /** `update_toc_nums(line)`: `KeyError` when the class of the line is not
   *  a precedence with a counter. */
  function TocUpdated(t: map<int, TocLevel>, c: Class, maxtoc: int): Result<map<int, TocLevel>>
  {
    match c
    case Word(_) => Err(KeyError)
    case Level(p) =>
      if p !in t then Err(KeyError)
      else ResetBelow(t[p := t[p].(num := t[p].num + 1)], p + 1, maxtoc)
  }

  lemma {:induction false} ResetBelowSpec(t: map<int, TocLevel>, lo: int, hi: int)
    ensures var r := ResetBelow(t, lo, hi);
      && (r.Ok? <==> forall i :: lo <= i <= hi ==> i in t)
      && (r.Err? ==> r.error == KeyError)
      && (r.Ok? ==>
            && r.value.Keys == t.Keys
            && forall i :: i in t ==>
                 r.value[i] == if lo <= i <= hi && !t[i].aggregate then t[i].(num := 0) else t[i])
    decreases hi - lo
  {
    if hi >= lo {
      ResetBelowSpec(t, lo, hi - 1);
    }
  }

  /** A heading of level `p` advances counter `p` by one, resets every deeper
   *  level up to `maxtoc` that does not aggregate, and leaves every other
   *  counter as it was. */
  lemma TocUpdatedSpec(t: map<int, TocLevel>, p: int, maxtoc: int)
    ensures var r := TocUpdated(t, Level(p), maxtoc);
      && (r.Ok? <==> p in t && forall i :: p < i <= maxtoc ==> i in t)
      && (r.Err? ==> r.error == KeyError)
      && (r.Ok? ==>
            && r.value.Keys == t.Keys
            && r.value[p] == t[p].(num := t[p].num + 1)
            && (forall i :: i in t && p < i <= maxtoc ==>
                  r.value[i] == if t[i].aggregate then t[i] else t[i].(num := 0))
            && (forall i :: i in t && i != p && (i < p || maxtoc < i) ==> r.value[i] == t[i]))
  {
    if p in t {
      var t' := t[p := t[p].(num := t[p].num + 1)];
      assert t'.Keys == t.Keys;
      ResetBelowSpec(t', p + 1, maxtoc);
    }
  }

  /** A heading line followed by the hierarchy: the line's own level is
   *  listed as primary with its advanced counter, and no deeper level that
   *  does not aggregate is listed. */
  lemma HeadingHierarchy(t: map<int, TocLevel>, p: int, maxtoc: int)
    requires 1 <= p <= maxtoc
    requires forall i :: 1 <= i <= maxtoc ==> i in t
    requires t[p].num >= 0
    ensures TocUpdated(t, Level(p), maxtoc).Ok?
    ensures var u := TocUpdated(t, Level(p), maxtoc).value;
      Hierarchy(u, maxtoc, Level(p)).Ok? &&
      var h := Hierarchy(u, maxtoc, Level(p)).value;
      && (exists k :: 0 <= k < |h| && h[k].precedence == p && h[k].primary && h[k].num == t[p].num + 1)
      && (forall i :: p < i <= maxtoc && !t[i].aggregate ==> forall k :: 0 <= k < |h| ==> h[k].precedence != i)
  {
    TocUpdatedSpec(t, p, maxtoc);
    var u := TocUpdated(t, Level(p), maxtoc).value;
    HierarchyDefined(u, maxtoc, Level(p));
    HierarchyLevels(u, maxtoc, Level(p));
    HierarchyComplete(u, maxtoc, Level(p));
  }

  // ---- one line ------------------------------------------------------------

  datatype OutState = OutState(lines: seq<OutLine>, num: int, prevline: Key, tocnums: map<int, TocLevel>)

  /** Where the loop over the search space stops: the first key that matches. */
  function FirstKey(ss: seq<(Key, OutAction)>, c: Class): (r: Option<nat>)
    ensures r.Some? ==> r.value < |ss| && KeyMatches(ss[r.value].0, c)
                        && forall j :: 0 <= j < r.value ==> !KeyMatches(ss[j].0, c)
    ensures r.None? ==> forall j :: 0 <= j < |ss| ==> !KeyMatches(ss[j].0, c)
  {
    if ss == [] then None
    else if KeyMatches(ss[0].0, c) then Some(0)
    else match FirstKey(ss[1..], c)
      case None => None
      case Some(i) => Some(i + 1)
  }

  /** The attribute an action adds after the hierarchy. */
  function Extra(a: OutAction, c: Class): seq<Attr>
  {
    match a
    case Skip => []
    case HrOut => [Attr("hr", "Horizontal Rule", 0, 0, true)]
    case QuoOut => [Attr("quo", "Quote", 0, 0, true)]
    case PreOut => [Attr("pre", "Preformatted Text", 0, 0, true)]
    case IndentOut => [Attr(ClassText(c), "Indent", 0, 0, true)]
    case TocOut => []
    case SpecialOut(e, d) => [Attr(e, d, 0, 0, true)]
  }

  /** The lambda of an action: `blank` adds nothing and does not compute the
   *  hierarchy; a rule is always recorded as `nem`. */
  function OutFire(a: OutAction, st: OutState, line: InLine, maxtoc: int): Result<OutState>
  {
    if a == Skip then Ok(st)
    else match Hierarchy(st.tocnums, maxtoc, line.cls)
      case Err(e) => Err(e)
      case Ok(h) =>
        var em := if a == HrOut then Nem else line.emphasis;
        Ok(st.(lines := st.lines + [OutLine(line.text, em, st.num, h + Extra(a, line.cls))]))
  }

  /** The record of a line that no key matches. */
  function TextLine(st: OutState, line: InLine, num: int, h: seq<Attr>): OutState
  {
    var cl := if st.prevline == Name("blank") then Attr("fl", "First Text Line of Paragraph", num, 0, true)
              else Attr("l", "Text Line", num, 0, true);
    OutState(st.lines + [OutLine(line.text, line.emphasis, num, h + [cl])], num, Name(cl.enum), st.tocnums)
  }

  /** `process_line` on the state `st`. */
  function OutStep(ss: seq<(Key, OutAction)>, maxtoc: int, st: OutState, line: InLine): Result<OutState>
  {
    var num := if line.cls != Word("blank") then st.num + 1 else st.num;
    match FirstKey(ss, line.cls)
    case Some(k) =>
      var key := ss[k].0;
      var counted := if key.Prec? && key.precedence in st.tocnums then TocUpdated(st.tocnums, line.cls, maxtoc)
                     else Ok(st.tocnums);
      (match counted
       case Err(e) => Err(e)
       case Ok(t) =>
         match OutFire(ss[k].1, st.(num := num, tocnums := t), line, maxtoc)
         case Err(e) => Err(e)
         case Ok(r) => Ok(r.(prevline := key)))
    case None =>
      match Hierarchy(st.tocnums, maxtoc, line.cls)
      case Err(e) => Err(e)
      case Ok(h) => Ok(TextLine(st, line, num, h))
  }

  /** One line: the number advances exactly for a line that is not blank;
   *  either nothing is added (the line's first key skips it) or one record
   *  numbered with the new number. */
  lemma OutStepCount(ss: seq<(Key, OutAction)>, maxtoc: int, st: OutState, line: InLine)
    ensures var r := OutStep(ss, maxtoc, st, line);
      var fk := FirstKey(ss, line.cls);
      var skips := fk.Some? && ss[fk.value].1 == Skip;
      r.Ok? ==>
        && r.value.num == (if line.cls != Word("blank") then st.num + 1 else st.num)
        && (skips ==> r.value.lines == st.lines)
        && (!skips ==> |r.value.lines| == |st.lines| + 1 && r.value.lines[..|st.lines|] == st.lines
                       && r.value.lines[|st.lines|].num == r.value.num
                       && r.value.lines[|st.lines|].line == line.text)
  {
  }

  /** A line no key matches is a text line, the first of its paragraph
   *  exactly when the line before it was blank; a class that is not a
   *  precedence but is caught by a precedence key raises `KeyError`. */
  lemma OutStepText(ss: seq<(Key, OutAction)>, maxtoc: int, st: OutState, line: InLine)
    ensures var r := OutStep(ss, maxtoc, st, line);
      var fk := FirstKey(ss, line.cls);
      && (fk.None? && r.Ok? ==>
            && |r.value.lines| == |st.lines| + 1
            && var attrs := r.value.lines[|st.lines|].attributes;
            |attrs| > 0 && (attrs[|attrs| - 1].enum == "fl" <==> st.prevline == Name("blank"))
            && r.value.prevline == Name(attrs[|attrs| - 1].enum))
      && (fk.Some? && ss[fk.value].0.Prec? && ss[fk.value].0.precedence in st.tocnums && line.cls.Word? ==>
            r == Err(KeyError))
  {
  }

  /** A blank line under a `blank` key that skips: nothing is added, the
   *  number stays and the next text line starts a paragraph. */
  lemma BlankLineSkipped(ss: seq<(Key, OutAction)>, maxtoc: int, st: OutState, line: InLine)
    requires |ss| > 0 && ss[0] == (Name("blank"), Skip)
    requires line.cls == Word("blank")
    ensures OutStep(ss, maxtoc, st, line) == Ok(st.(prevline := Name("blank")))
  {
    assert KeyMatches(ss[0].0, line.cls);
  }

  // ---- all lines -----------------------------------------------------------

  function Initial(toc: seq<TocEntry>): OutState
  {
    OutState([], 0, Name(""), TocNums(toc))
  }

  /** The state after the lines, or the exception that stopped them. */
  function ReadOutAll(ss: seq<(Key, OutAction)>, maxtoc: int, init: OutState, lines: seq<InLine>): Result<OutState>
  {
    if lines == [] then Ok(init)
    else match ReadOutAll(ss, maxtoc, init, lines[..|lines| - 1])
      case Err(e) => Err(e)
      case Ok(st) => OutStep(ss, maxtoc, st, lines[|lines| - 1])
  }

  /** `readout(lines, matches)`: `max` of no precedence raises `ValueError`. */
  function ReadOutResult(lines: seq<InLine>, toc: seq<TocEntry>, specials: seq<SpecialEntry>): Result<seq<OutLine>>
  {
    if toc == [] then Err(ValueError)
    else match ReadOutAll(OutSearchSpace(toc, specials), MaxPrecedence(toc), Initial(toc), lines)
      case Err(e) => Err(e)
      case Ok(st) => Ok(st.lines)
  }

  /** The lines that are not blank. */
  function NonBlank(lines: seq<InLine>): nat
  {
    if lines == [] then 0
    else NonBlank(lines[..|lines| - 1]) + (if lines[|lines| - 1].cls != Word("blank") then 1 else 0)
  }

  /** Only a blank line, or one whose class begins with `blank`, can be skipped. */
  predicate SkipsOnlyBlank(ss: seq<(Key, OutAction)>)
  {
    forall k :: 0 <= k < |ss| && ss[k].1 == Skip ==> ss[k].0 == Name("blank")
  }

  /** After the lines, the number counts the lines that are not blank,
   *  and, when blank lines are skipped, the records carry increasing
   *  numbers up to it. */
  lemma {:induction false} ReadOutNumbers(ss: seq<(Key, OutAction)>, maxtoc: int, init: OutState, lines: seq<InLine>)
    requires init.lines == [] && init.num == 0
    requires |ss| > 0 && ss[0] == (Name("blank"), Skip)
    ensures var r := ReadOutAll(ss, maxtoc, init, lines);
      r.Ok? ==>
        && r.value.num == NonBlank(lines)
        && |r.value.lines| <= r.value.num
        && (forall k :: 0 <= k < |r.value.lines| ==> 1 <= r.value.lines[k].num <= r.value.num)
        && (forall a, b :: 0 <= a < b < |r.value.lines| ==> r.value.lines[a].num < r.value.lines[b].num)
  {
    if lines != [] {
      var front := lines[..|lines| - 1];
      var line := lines[|lines| - 1];
      ReadOutNumbers(ss, maxtoc, init, front);
      var r0 := ReadOutAll(ss, maxtoc, init, front);
      if r0.Ok? {
        OutStepCount(ss, maxtoc, r0.value, line);
        assert ReadOutAll(ss, maxtoc, init, lines) == OutStep(ss, maxtoc, r0.value, line);
        assert NonBlank(lines) == NonBlank(front) + (if line.cls != Word("blank") then 1 else 0);
        if line.cls == Word("blank") {
          BlankLineSkipped(ss, maxtoc, r0.value, line);
        }
      }
    }
  }

  /** The classes that can be skipped: blank lines, and any other class
   *  beginning with `blank`. */
  predicate NoFalseBlank(lines: seq<InLine>)
  {
    forall i :: 0 <= i < |lines| ==> lines[i].cls == Word("blank") || !StartsWith(ClassText(lines[i].cls), "blank")
  }

  /** When blank lines are skipped, only the `blank` key skips and no other
   *  class begins with `blank`, every line that is not blank gives exactly
   *  one record and the k-th record is numbered k+1. */
  lemma {:induction false} ReadOutDense(ss: seq<(Key, OutAction)>, maxtoc: int, init: OutState, lines: seq<InLine>)
    requires init.lines == [] && init.num == 0
    requires |ss| > 0 && ss[0] == (Name("blank"), Skip) && SkipsOnlyBlank(ss)
    requires NoFalseBlank(lines)
    ensures var r := ReadOutAll(ss, maxtoc, init, lines);
      r.Ok? ==> |r.value.lines| == r.value.num && forall k :: 0 <= k < |r.value.lines| ==> r.value.lines[k].num == k + 1
  {
    if lines != [] {
      var front := lines[..|lines| - 1];
      var line := lines[|lines| - 1];
      assert NoFalseBlank(front) by {
        forall i | 0 <= i < |front| ensures front[i].cls == Word("blank") || !StartsWith(ClassText(front[i].cls), "blank") {
          assert front[i] == lines[i];
        }
      }
      ReadOutDense(ss, maxtoc, init, front);
      var r0 := ReadOutAll(ss, maxtoc, init, front);
      if r0.Ok? {
        var st := r0.value;
        assert ReadOutAll(ss, maxtoc, init, lines) == OutStep(ss, maxtoc, st, line);
        OutStepCount(ss, maxtoc, st, line);
        if line.cls == Word("blank") {
          BlankLineSkipped(ss, maxtoc, st, line);
        } else {
          assert !StartsWith(ClassText(line.cls), "blank");
          NotSkipped(ss, line.cls);
        }
      }
    }
  }

  /** `readout` on a matches file with no special designator named
   *  `blank`: the records are the lines that are not blank, numbered 1, 2,
   *  and so on, as long as no other class begins with `blank`. */
  lemma ReadOutRecords(lines: seq<InLine>, toc: seq<TocEntry>, specials: seq<SpecialEntry>)
    requires toc != []
    requires forall j :: 0 <= j < |specials| ==> specials[j].enum != "blank"
    requires NoFalseBlank(lines)
    ensures var r := ReadOutResult(lines, toc, specials);
      r.Ok? ==> |r.value| == NonBlank(lines) && forall k :: 0 <= k < |r.value| ==> r.value[k].num == k + 1
  {
    var ss := OutSearchSpace(toc, specials);
    BlankKeyFirst(toc, specials);
    OnlyBlankSkips(toc, specials);
    ReadOutNumbers(ss, MaxPrecedence(toc), Initial(toc), lines);
    ReadOutDense(ss, MaxPrecedence(toc), Initial(toc), lines);
  }

  /** A class not beginning with `blank` is never skipped when only the
   *  `blank` key skips. */
  lemma NotSkipped(ss: seq<(Key, OutAction)>, c: Class)
    requires SkipsOnlyBlank(ss) && !StartsWith(ClassText(c), "blank")
    ensures FirstKey(ss, c).Some? ==> ss[FirstKey(ss, c).value].1 != Skip
  {
  }

  // ---- the switch ------------------------------------------------------------

  /** The switch of `readout`. */
  class OutSwitch {
    const searchspace: seq<(Key, OutAction)>
    const maxtoc: int
    var lines: seq<OutLine>
    var num: int
    var prevline: Key
    var tocnums: map<int, TocLevel>

    function State(): OutState
      reads this
    {
      OutState(lines, num, prevline, tocnums)
    }

    /** `Switch(matches)`, for a matches file with at least one heading. */
    constructor (toc: seq<TocEntry>, specials: seq<SpecialEntry>)
      requires toc != []
      ensures searchspace == OutSearchSpace(toc, specials) && maxtoc == MaxPrecedence(toc)
      ensures State() == Initial(toc)
    {
      searchspace := OutSearchSpace(toc, specials);
      maxtoc := MaxPrecedence(toc);
      lines := [];
      num := 0;
      prevline := Name("");
      tocnums := TocNums(toc);
    }

    /** `hierarchy(line)`. */
    method HierarchyOf(c: Class) returns (r: Result<seq<Attr>>)
      ensures r == Hierarchy(tocnums, maxtoc, c)
    {
      var attrs := [];
      var i := 1;
      while i <= maxtoc
        invariant 1 <= i <= if maxtoc >= 1 then maxtoc + 1 else 1
        invariant Hierarchy(tocnums, i - 1, c) == Ok(attrs)
      {
        if i !in tocnums {
          NoCounterStops(tocnums, i, maxtoc, c);
          return Err(KeyError);
        }
        if tocnums[i].num > 0 {
          attrs := attrs + [Attr("lvl" + ShowInt(i), tocnums[i].display, tocnums[i].num, i, c == Level(i))];
        }
        i := i + 1;
      }
      if maxtoc < 1 {
        assert Hierarchy(tocnums, maxtoc, c) == Ok([]);
      } else {
        assert i - 1 == maxtoc;
      }
      r := Ok(attrs);
    }

    /** `update_toc_nums(line)`. */
    method UpdateTocNums(c: Class) returns (failure: Option<Failure>)
      modifies this
      ensures failure.None? <==> TocUpdated(old(tocnums), c, maxtoc).Ok?
      ensures failure.Some? ==> Err(failure.value) == TocUpdated(old(tocnums), c, maxtoc)
      ensures failure.None? ==> State() == old(State()).(tocnums := TocUpdated(old(tocnums), c, maxtoc).value)
    {
      if c.Word? || c.precedence !in tocnums {
        return Some(KeyError);
      }
      var p := c.precedence;
      tocnums := tocnums[p := tocnums[p].(num := tocnums[p].num + 1)];
      ghost var t0 := tocnums;
      var i := p + 1;
      while i <= maxtoc
        invariant p + 1 <= i <= if p + 1 <= maxtoc then maxtoc + 1 else p + 1
        invariant ResetBelow(t0, p + 1, i - 1) == Ok(tocnums)
        invariant tocnums.Keys == t0.Keys
        invariant lines == old(lines) && num == old(num) && prevline == old(prevline)
      {
        if i !in tocnums {
          ResetStops(t0, p + 1, i, maxtoc);
          return Some(KeyError);
        }
        if !tocnums[i].aggregate {
          tocnums := tocnums[i := tocnums[i].(num := 0)];
        }
        i := i + 1;
      }
      if maxtoc < p + 1 {
        assert ResetBelow(t0, p + 1, maxtoc) == Ok(t0);
      } else {
        assert i - 1 == maxtoc;
      }
      failure := None;
    }

    /** The lambda stored under a key. */
    method Fire(a: OutAction, line: InLine) returns (failure: Option<Failure>)
      modifies this
      ensures failure.None? <==> OutFire(a, old(State()), line, maxtoc).Ok?
      ensures failure.Some? ==> Err(failure.value) == OutFire(a, old(State()), line, maxtoc)
      ensures failure.None? ==> State() == OutFire(a, old(State()), line, maxtoc).value
    {
      if a == Skip {
        return None;
      }
      var h := HierarchyOf(line.cls);
      if h.Err? {
        return Some(h.error);
      }
      var em := if a == HrOut then Nem else line.emphasis;
      lines := lines + [OutLine(line.text, em, num, h.value + Extra(a, line.cls))];
      failure := None;
    }

    /** The loop of `process_line` over the search space. */
    method FindKey(c: Class) returns (k: Option<nat>)
      ensures k == FirstKey(searchspace, c)
    {
      var i := 0;
      while i < |searchspace|
        invariant 0 <= i <= |searchspace|
        invariant forall j :: 0 <= j < i ==> !KeyMatches(searchspace[j].0, c)
      {
        if KeyMatches(searchspace[i].0, c) {
          FirstKeyAt(searchspace, c, i);
          return Some(i);
        }
        i := i + 1;
      }
      FirstKeyNone(searchspace, c);
      k := None;
    }

    /** `process_line(line)`; an exception stops `readout`. */
    method ProcessLine(line: InLine) returns (failure: Option<Failure>)
      modifies this
      ensures OutStep(searchspace, maxtoc, old(State()), line) ==
        if failure.Some? then Err(failure.value) else Ok(State())
    {
      ghost var st := State();
      var n := if line.cls != Word("blank") then num + 1 else num;
      var fk := FindKey(line.cls);
      if fk.Some? {
        var key := searchspace[fk.value].0;
        num := n;
        if key.Prec? && key.precedence in tocnums {
          failure := UpdateTocNums(line.cls);
          if failure.Some? {
            return;
          }
        }
        failure := Fire(searchspace[fk.value].1, line);
        if failure.Some? {
          return;
        }
        prevline := key;
      } else {
        var h := HierarchyOf(line.cls);
        if h.Err? {
          return Some(h.error);
        }
        var cl := if prevline == Name("blank") then Attr("fl", "First Text Line of Paragraph", n, 0, true)
                  else Attr("l", "Text Line", n, 0, true);
        lines := lines + [OutLine(line.text, line.emphasis, n, h.value + [cl])];
        num := n;
        prevline := Name(cl.enum);
        failure := None;
      }
    }
  }

  lemma NoCounterStops(t: map<int, TocLevel>, i: int, maxtoc: int, c: Class)
    requires 1 <= i <= maxtoc && i !in t && Hierarchy(t, i - 1, c).Ok?
    ensures Hierarchy(t, maxtoc, c) == Err(KeyError)
  {
    HierarchyDefined(t, maxtoc, c);
  }

  lemma ResetStops(t: map<int, TocLevel>, lo: int, i: int, hi: int)
    requires lo <= i <= hi && i !in t && ResetBelow(t, lo, i - 1).Ok?
    ensures ResetBelow(t, lo, hi) == Err(KeyError)
  {
    ResetBelowSpec(t, lo, hi);
  }

  lemma FirstKeyAt(ss: seq<(Key, OutAction)>, c: Class, i: nat)
    requires i < |ss| && KeyMatches(ss[i].0, c) && forall j :: 0 <= j < i ==> !KeyMatches(ss[j].0, c)
    ensures FirstKey(ss, c) == Some(i)
  {
  }

  lemma FirstKeyNone(ss: seq<(Key, OutAction)>, c: Class)
    requires forall j :: 0 <= j < |ss| ==> !KeyMatches(ss[j].0, c)
    ensures FirstKey(ss, c).None?
  {
  }

  /** `readout(lines, matches)`. */
  method ReadOutLines(lines: seq<InLine>, toc: seq<TocEntry>, specials: seq<SpecialEntry>)
    returns (r: Result<seq<OutLine>>)
    ensures r == ReadOutResult(lines, toc, specials)
  {
    if toc == [] {
      return Err(ValueError);
    }
    var switcher := new OutSwitch(toc, specials);
    ghost var ss, maxtoc, init := switcher.searchspace, switcher.maxtoc, Initial(toc);
    var i := 0;
    while i < |lines|
      invariant 0 <= i <= |lines|
      invariant ReadOutAll(ss, maxtoc, init, lines[..i]) == Ok(switcher.State())
    {
      ghost var pre := switcher.State();
      var failure := switcher.ProcessLine(lines[i]);
      ReadOutNext(ss, maxtoc, init, lines, i, pre, if failure.Some? then Err(failure.value) else Ok(switcher.State()));
      if failure.Some? {
        RunStops(ss, maxtoc, init, lines, i + 1, failure.value);
        return Err(failure.value);
      }
      i := i + 1;
    }
    assert lines[..i] == lines;
    r := Ok(switcher.lines);
  }

  /** The run over one more line is the run so far followed by that line's step. */
  lemma ReadOutNext(ss: seq<(Key, OutAction)>, maxtoc: int, init: OutState, lines: seq<InLine>, i: nat,
                    pre: OutState, post: Result<OutState>)
    requires i < |lines| && ReadOutAll(ss, maxtoc, init, lines[..i]) == Ok(pre)
    requires OutStep(ss, maxtoc, pre, lines[i]) == post
    ensures ReadOutAll(ss, maxtoc, init, lines[..i + 1]) == post
  {
    assert lines[..i + 1][..i] == lines[..i];
  }

  /** Once a line raises, so does the whole run. */
  lemma {:induction false} RunStops(ss: seq<(Key, OutAction)>, maxtoc: int, init: OutState, lines: seq<InLine>, i: nat, e: Failure)
    requires i <= |lines| && ReadOutAll(ss, maxtoc, init, lines[..i]) == Err(e)
    ensures ReadOutAll(ss, maxtoc, init, lines) == Err(e)
    decreases |lines| - i
  {
    if i < |lines| {
      assert lines[..i + 1][..i] == lines[..i];
      RunStops(ss, maxtoc, init, lines, i + 1, e);
    } else {
      assert lines[..i] == lines;
    }
  }
}
