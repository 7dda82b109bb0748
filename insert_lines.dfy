/**
 * The insert script's line loader: the processor's line records become
 * `Line` rows of an edition, each with its attributes keyed by precedence.
 * An attribute names its `LineEnum` by `"enum>display"`; the loader keeps a
 * dictionary from those keys to enum objects, starting from the enums
 * already stored and adding one object for every key it meets that is not
 * there yet, so that all lines share one object per key.
 */
module InsertLines {
  import opened Wrappers
  import Strings
  import Content
  import Emphasis
  import ReadOut

  /** A `LineEnum` row; which row an attribute points to is the object's
   *  identity. */
  class LineEnum {
    const enum: string
    const display: string

    constructor (enum: string, display: string)
      ensures this.enum == enum && this.display == display
    {
      this.enum := enum;
      this.display := display;
    }
  }

  /** A `LineAttribute` before it is stored. */
  datatype LineAttribute = LineAttribute(enumObj: LineEnum, num: int, precedence: int, primary: bool)

  /** A line record as the processor's json holds it: the emphasis is a code. */
  datatype LineJson = LineJson(line: string, emphasis: string, num: int, attributes: seq<ReadOut.Attr>)

  /** A `Line` added to the session. */
  datatype LineRow = LineRow(edition: nat, num: int, emId: int, line: string, attrs: map<int, LineAttribute>)

  /** The json record of a processed line. */
  function ToJson(l: ReadOut.OutLine): (j: LineJson)
    ensures j.emphasis in Content.EmphasisReverse
    ensures Content.LineEmphasis(Content.EmphasisReverse[j.emphasis]) == Ok(Emphasis.Code(l.emphasis))
  {
    Content.StoredEnumsLoadBack(Emphasis.Code(l.emphasis), "", l.emphasis);
    LineJson(l.line, Emphasis.Code(l.emphasis), l.num, l.attributes)
  }

  /** The dictionary key of an enum: `f"{enum}>{display}"`. */
  function EnumKey(enum: string, display: string): string
  {
    enum + ">" + display
  }

  /** Every entry sits under its own enum's key. */
  predicate Keyed(d: map<string, LineEnum>)
  {
    forall k :: k in d ==> EnumKey(d[k].enum, d[k].display) == k
  }

  /** `get_enums_dict` over the stored enums: one entry per key, a later
   *  enum with the same key replacing an earlier one. */
  function EnumsDict(enums: seq<LineEnum>): (d: map<string, LineEnum>)
    ensures Keyed(d)
    ensures d.Keys == set e | e in enums :: EnumKey(e.enum, e.display)
    ensures forall k :: k in d ==> d[k] in enums
  {
    if enums == [] then map[]
    else
      var front := enums[..|enums| - 1];
      var e := enums[|enums| - 1];
      assert enums == front + [e];
      EnumsDict(front)[EnumKey(e.enum, e.display) := e]
  }

  /** The keys the attributes of a line name. */
  function AttrKeys(attrs: seq<ReadOut.Attr>): (keys: set<string>)
    ensures forall a :: a in attrs ==> EnumKey(a.enum, a.display) in keys
  {
    if attrs == [] then {}
    else
      var a := attrs[|attrs| - 1];
      assert attrs == attrs[..|attrs| - 1] + [a];
      AttrKeys(attrs[..|attrs| - 1]) + {EnumKey(a.enum, a.display)}
  }

  /** The precedences of the attributes of a line. */
  function Precedences(attrs: seq<ReadOut.Attr>): (ps: set<int>)
    ensures forall j :: 0 <= j < |attrs| ==> attrs[j].precedence in ps
    ensures forall p :: p in ps ==> exists j :: 0 <= j < |attrs| && attrs[j].precedence == p
  {
    if attrs == [] then {}
    else Precedences(attrs[..|attrs| - 1]) + {attrs[|attrs| - 1].precedence}
  }

  /** The attribute stored for `a` once every key is in `d`. */
  function Attribute(a: ReadOut.Attr, d: map<string, LineEnum>): (r: LineAttribute)
    requires EnumKey(a.enum, a.display) in d
    ensures r.enumObj == d[EnumKey(a.enum, a.display)]
    ensures (r.num, r.precedence, r.primary) == (a.num, a.precedence, a.primary)
  {
    LineAttribute(d[EnumKey(a.enum, a.display)], a.num, a.precedence, a.primary)
  }

  /** `attrs[a.precedence] = a` for the attributes in turn. */
  function AttrsFor(attrs: seq<ReadOut.Attr>, d: map<string, LineEnum>): map<int, LineAttribute>
    requires AttrKeys(attrs) <= d.Keys
  {
    if attrs == [] then map[]
    else
      var front := attrs[..|attrs| - 1];
      var a := attrs[|attrs| - 1];
      AttrsFor(front, d)[a.precedence := Attribute(a, d)]
  }

  /** The attributes are keyed by precedence. */
  lemma {:induction false} AttrsForKeys(attrs: seq<ReadOut.Attr>, d: map<string, LineEnum>)
    requires AttrKeys(attrs) <= d.Keys
    ensures AttrsFor(attrs, d).Keys == Precedences(attrs)
  {
    if attrs != [] {
      AttrsForKeys(attrs[..|attrs| - 1], d);
    }
  }

  /** Each precedence holds the last attribute that has it (a later one
   *  overwrites an earlier one), pointing at the enum object of its key. */
  lemma {:induction false} AttrsForLast(attrs: seq<ReadOut.Attr>, d: map<string, LineEnum>, j: int)
    requires AttrKeys(attrs) <= d.Keys
    requires 0 <= j < |attrs|
    requires forall k :: j < k < |attrs| ==> attrs[k].precedence != attrs[j].precedence
    ensures EnumKey(attrs[j].enum, attrs[j].display) in d
    ensures attrs[j].precedence in AttrsFor(attrs, d)
    ensures AttrsFor(attrs, d)[attrs[j].precedence] == Attribute(attrs[j], d)
  {
    assert attrs[j] in attrs;
    var front := attrs[..|attrs| - 1];
    if j < |front| {
      assert front[j] == attrs[j];
      forall k | j < k < |front| ensures front[k].precedence != front[j].precedence {
        assert front[k] == attrs[k];
      }
      AttrsForLast(front, d, j);
    }
  }

  /** The attributes only depend on the entries for their own keys, so a
   *  dictionary that only gained entries gives the same attributes: the
   *  objects a line points to stay those of the later lines' dictionary. */
  lemma {:induction false} AttrsForExtend(attrs: seq<ReadOut.Attr>, d: map<string, LineEnum>, d': map<string, LineEnum>)
    requires AttrKeys(attrs) <= d.Keys
    requires forall k :: k in d ==> k in d' && d'[k] == d[k]
    ensures AttrKeys(attrs) <= d'.Keys
    ensures AttrsFor(attrs, d') == AttrsFor(attrs, d)
  {
    if attrs != [] {
      AttrsForExtend(attrs[..|attrs| - 1], d, d');
    }
  }

  /** One more attribute, with its key now in the dictionary. */
  lemma AttrsForStep(done: seq<ReadOut.Attr>, a: ReadOut.Attr, d: map<string, LineEnum>, d': map<string, LineEnum>)
    requires AttrKeys(done) <= d.Keys
    requires forall k :: k in d ==> k in d' && d'[k] == d[k]
    requires EnumKey(a.enum, a.display) in d'
    ensures AttrKeys(done + [a]) == AttrKeys(done) + {EnumKey(a.enum, a.display)}
    ensures AttrKeys(done + [a]) <= d'.Keys
    ensures AttrsFor(done + [a], d') == AttrsFor(done, d)[a.precedence := Attribute(a, d')]
  {
    assert (done + [a])[..|done|] == done;
    AttrsForExtend(done, d, d');
  }

  /** Inside one line two attributes with the same key share one enum
   *  object, and an enum object whose fields have no `>` belongs to the
   *  attribute's own enum and display. */
  lemma AttributeEnum(a: ReadOut.Attr, d: map<string, LineEnum>)
    requires Keyed(d) && EnumKey(a.enum, a.display) in d
    requires '>' !in a.enum && '>' !in d[EnumKey(a.enum, a.display)].enum
    ensures Attribute(a, d).enumObj.enum == a.enum && Attribute(a, d).enumObj.display == a.display
  {
    var e := d[EnumKey(a.enum, a.display)];
    EnumKeyInjective(e.enum, e.display, a.enum, a.display);
  }

  /** Without `>` in the enum names, a key names one enum and display. */
  lemma EnumKeyInjective(e1: string, d1: string, e2: string, d2: string)
    requires '>' !in e1 && '>' !in e2
    ensures EnumKey(e1, d1) == EnumKey(e2, d2) ==> e1 == e2 && d1 == d2
  {
    var k := EnumKey(e1, d1);
    if k == EnumKey(e2, d2) {
      KeyChars(e1, d1);
      KeyChars(e2, d2);
      if |e1| == |e2| {
        assert e1 == k[..|e1|] == e2;
        assert d1 == k[|e1| + 1..] == d2;
      }
    }
  }

  lemma KeyChars(e: string, d: string)
    ensures |EnumKey(e, d)| > |e| && EnumKey(e, d)[|e|] == '>'
    ensures forall i :: 0 <= i < |e| ==> EnumKey(e, d)[i] == e[i]
  {
  }

  /** With a `>` inside an enum name, two different attributes share a key,
   *  and the second one gets the first one's enum object. */
  lemma EnumKeysCollide()
    ensures EnumKey("a>b", "c") == EnumKey("a", "b>c")
  {
  }

  /** `process_attributes(attrs_dict, enums_dict)`. The caller's dictionary
   *  is updated in place and returned; here the updated one is returned. */
  method ProcessAttributes(attrsIn: seq<ReadOut.Attr>, enumsDict: map<string, LineEnum>)
    returns (attrs: map<int, LineAttribute>, enums: map<string, LineEnum>)
    ensures forall k :: k in enumsDict ==> k in enums && enums[k] == enumsDict[k]
    ensures enums.Keys == enumsDict.Keys + AttrKeys(attrsIn)
    ensures forall k :: k in enums && k !in enumsDict ==> fresh(enums[k])
    ensures Keyed(enumsDict) ==> Keyed(enums)
    ensures attrs == AttrsFor(attrsIn, enums)
  {
    attrs := map[];
    enums := enumsDict;
    var i := 0;
    while i < |attrsIn|
      invariant 0 <= i <= |attrsIn|
      invariant forall k :: k in enumsDict ==> k in enums && enums[k] == enumsDict[k]
      invariant enums.Keys == enumsDict.Keys + AttrKeys(attrsIn[..i])
      invariant forall k :: k in enums && k !in enumsDict ==> fresh(enums[k])
      invariant Keyed(enumsDict) ==> Keyed(enums)
      invariant attrs == AttrsFor(attrsIn[..i], enums)
    {
      var a := attrsIn[i];
      var key := EnumKey(a.enum, a.display);
      var e: LineEnum;
      ghost var before := enums;
      if key in enums {
        e := enums[key];
      } else {
        e := new LineEnum(a.enum, a.display);
        enums := enums[EnumKey(e.enum, e.display) := e];
      }
      Strings.PrefixSnoc(attrsIn, i);
      DictStep(enumsDict, before, enums, attrsIn[..i], a, e);
      AttrsForStep(attrsIn[..i], a, before, enums);
      attrs := attrs[a.precedence := LineAttribute(e, a.num, a.precedence, a.primary)];
      i := i + 1;
    }
    assert attrsIn[..i] == attrsIn;
  }

  /** One turn of the loop of `process_attributes` on the dictionary: the
   *  key is found, or a new enum goes in under its own key. */
  lemma DictStep(enumsDict: map<string, LineEnum>, before: map<string, LineEnum>, after: map<string, LineEnum>,
                 done: seq<ReadOut.Attr>, a: ReadOut.Attr, e: LineEnum)
    requires forall k :: k in enumsDict ==> k in before && before[k] == enumsDict[k]
    requires before.Keys == enumsDict.Keys + AttrKeys(done)
    requires Keyed(enumsDict) ==> Keyed(before)
    requires var key := EnumKey(a.enum, a.display);
      (key in before && after == before) || (key !in before && after == before[EnumKey(e.enum, e.display) := e] && e.enum == a.enum && e.display == a.display)
    ensures forall k :: k in before ==> k in after && after[k] == before[k]
    ensures forall k :: k in enumsDict ==> k in after && after[k] == enumsDict[k]
    ensures after.Keys == enumsDict.Keys + AttrKeys(done + [a])
    ensures Keyed(enumsDict) ==> Keyed(after)
  {
    assert (done + [a])[..|done|] == done;
  }

  /** The database session: the rows added, in order. */
  class Session {
    var added: seq<LineRow>

    constructor ()
      ensures added == []
    {
      added := [];
    }

    method Add(row: LineRow)
      modifies this
      ensures added == old(added) + [row]
    {
      added := added + [row];
    }
  }

  /** How many leading records have a known emphasis code: the loop gets
   *  that far before `EMPHASIS_REVERSE[...]` raises `KeyError`. */
  function KnownPrefix(lines: seq<LineJson>): (n: nat)
    ensures n <= |lines|
    ensures forall j :: 0 <= j < n ==> lines[j].emphasis in Content.EmphasisReverse
    ensures n < |lines| ==> lines[n].emphasis !in Content.EmphasisReverse
  {
    if lines == [] || lines[0].emphasis !in Content.EmphasisReverse then 0
    else 1 + KnownPrefix(lines[1..])
  }

  /** Every record has a known emphasis code and its keys in `d`. */
  predicate Insertable(lines: seq<LineJson>, d: map<string, LineEnum>)
  {
    forall j :: 0 <= j < |lines| ==> lines[j].emphasis in Content.EmphasisReverse && AttrKeys(lines[j].attributes) <= d.Keys
  }

  /** The `Line` a record becomes. */
  function Row(line: LineJson, edition: nat, d: map<string, LineEnum>): (row: LineRow)
    requires line.emphasis in Content.EmphasisReverse && AttrKeys(line.attributes) <= d.Keys
    ensures (row.edition, row.num, row.line) == (edition, line.num, line.line)
    ensures Content.LineEmphasis(row.emId) == Ok(line.emphasis)
    ensures row.attrs.Keys == Precedences(line.attributes)
  {
    Content.StoredEnumsLoadBack(line.emphasis, "", Emphasis.Nem);
    AttrsForKeys(line.attributes, d);
    LineRow(edition, line.num, Content.EmphasisReverse[line.emphasis], line.line, AttrsFor(line.attributes, d))
  }

  /** The rows the records become, in order. */
  function Rows(lines: seq<LineJson>, edition: nat, d: map<string, LineEnum>): (rows: seq<LineRow>)
    requires Insertable(lines, d)
    ensures |rows| == |lines|
  {
    if lines == [] then []
    else Rows(lines[..|lines| - 1], edition, d) + [Row(lines[|lines| - 1], edition, d)]
  }

  /** `populate_lines(lines, edition)` over the stored enums `stored`. It
   *  returns the count of lines added, which is all of them unless a
   *  record's emphasis code is unknown (`KeyError`, with the lines before it
   *  added). `enums` is the loader's dictionary at the end. */
  method PopulateLines(session: Session, lines: seq<LineJson>, edition: nat, stored: seq<LineEnum>)
    returns (r: Result<int>, ghost enums: map<string, LineEnum>)
    modifies session
    ensures r.Ok? <==> KnownPrefix(lines) == |lines|
    ensures r.Ok? ==> r.value == |lines|
    ensures r.Err? ==> r.error == KeyError
    ensures Keyed(enums)
    ensures forall k :: k in EnumsDict(stored) ==> k in enums && enums[k] == EnumsDict(stored)[k]
    ensures Insertable(lines[..KnownPrefix(lines)], enums)
    ensures session.added == old(session.added) + Rows(lines[..KnownPrefix(lines)], edition, enums)
  {
    var d := EnumsDict(stored);
    var current := d;
    var i := 0;
    while i < |lines|
      invariant 0 <= i <= |lines| && i <= KnownPrefix(lines)
      invariant Keyed(current)
      invariant forall k :: k in d ==> k in current && current[k] == d[k]
      invariant Insertable(lines[..i], current)
      invariant session.added == old(session.added) + Rows(lines[..i], edition, current)
    {
      var line := lines[i];
      ghost var before := current;
      var attrs;
      attrs, current := ProcessAttributes(line.attributes, current);
      KnownPrefixAt(lines, i);
      if line.emphasis !in Content.EmphasisReverse {
        RowsExtend(lines[..i], edition, before, current);
        return Err(KeyError), current;
      }
      PopulateStep(lines, i, edition, before, current, old(session.added), session.added);
      var row := LineRow(edition, line.num, Content.EmphasisReverse[line.emphasis], line.line, attrs);
      assert row == Row(line, edition, current);
      session.Add(row);
      i := i + 1;
    }
    assert lines[..i] == lines;
    return Ok(i), current;
  }

  /** One turn of the `populate_lines` loop: with the record's enums added
   *  to the dictionary, its row follows the rows built so far. */
  lemma PopulateStep(lines: seq<LineJson>, i: nat, edition: nat, d: map<string, LineEnum>, d': map<string, LineEnum>,
                     added0: seq<LineRow>, added: seq<LineRow>)
    requires i < |lines| && lines[i].emphasis in Content.EmphasisReverse
    requires Insertable(lines[..i], d)
    requires forall k :: k in d ==> k in d' && d'[k] == d[k]
    requires AttrKeys(lines[i].attributes) <= d'.Keys
    requires added == added0 + Rows(lines[..i], edition, d)
    ensures Insertable(lines[..i + 1], d')
    ensures added + [Row(lines[i], edition, d')] == added0 + Rows(lines[..i + 1], edition, d')
  {
    RowsExtend(lines[..i], edition, d, d');
    RowsStep(lines, i, edition, d');
  }

  /** The loop of `populate_lines` stops at a record exactly when it is the
   *  first with an unknown emphasis code. */
  lemma KnownPrefixAt(lines: seq<LineJson>, i: nat)
    requires i < |lines| && i <= KnownPrefix(lines)
    ensures lines[i].emphasis !in Content.EmphasisReverse <==> KnownPrefix(lines) == i
  {
  }

  /** The rows built so far read the same against a dictionary that only
   *  gained entries. */
  lemma {:induction false} RowsExtend(lines: seq<LineJson>, edition: nat, d: map<string, LineEnum>, d': map<string, LineEnum>)
    requires Insertable(lines, d)
    requires forall k :: k in d ==> k in d' && d'[k] == d[k]
    ensures Insertable(lines, d')
    ensures Rows(lines, edition, d') == Rows(lines, edition, d)
  {
    if lines != [] {
      var front := lines[..|lines| - 1];
      assert Insertable(front, d) by {
        forall j | 0 <= j < |front| ensures front[j] == lines[j] { }
      }
      RowsExtend(front, edition, d, d');
      AttrsForExtend(lines[|lines| - 1].attributes, d, d');
    }
  }

  /** One more record, insertable against `d`, adds its row. */
  lemma RowsStep(lines: seq<LineJson>, i: nat, edition: nat, d: map<string, LineEnum>)
    requires i < |lines|
    requires Insertable(lines[..i], d)
    requires lines[i].emphasis in Content.EmphasisReverse && AttrKeys(lines[i].attributes) <= d.Keys
    ensures Insertable(lines[..i + 1], d)
    ensures Rows(lines[..i + 1], edition, d) == Rows(lines[..i], edition, d) + [Row(lines[i], edition, d)]
  {
    assert lines[..i + 1][..i] == lines[..i];
  }

  /** The records the processor writes all have a known emphasis code, so
   *  every one of them is added and the count is their number. */
  lemma ProcessedLinesAllAdded(out: seq<ReadOut.OutLine>)
    ensures KnownPrefix(seq(|out|, j requires 0 <= j < |out| => ToJson(out[j]))) == |out|
  {
    var lines := seq(|out|, j requires 0 <= j < |out| => ToJson(out[j]));
    KnownPrefixAll(lines);
  }

  lemma {:induction false} KnownPrefixAll(lines: seq<LineJson>)
    requires forall j :: 0 <= j < |lines| ==> lines[j].emphasis in Content.EmphasisReverse
    ensures KnownPrefix(lines) == |lines|
  {
    if lines != [] {
      KnownPrefixAll(lines[1..]);
    }
  }
}
