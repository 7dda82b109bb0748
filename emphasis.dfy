/**
 * Emphasis as the text pipeline stores it. Every line carries one of four
 * codes saying which `<em>` tags it needs so that an emphasis opened by an
 * underscore on one line and closed on a later one renders as balanced
 * HTML, line by line.
 */
module Emphasis {
  import opened Strings

  /** `nem`: none, `oem`: opens (append `</em>`), `em`: inside (wrap),
   *  `cem`: closes (prepend `<em>`). */
  datatype Emph = Nem | Oem | Em | Cem

  /** The code stored in the line tuples and dictionaries. */
  function Code(e: Emph): string
  {
    match e
    case Nem => "nem"
    case Oem => "oem"
    case Em => "em"
    case Cem => "cem"
  }

  lemma CodeInjective(a: Emph, b: Emph)
    ensures Code(a) == Code(b) ==> a == b
  {
  }

  /** The processor's `emswitch`: nem, oem, em, cem, and around again. */
  function EmSwitch(e: Emph): Emph
  {
    match e
    case Nem => Oem
    case Oem => Em
    case Em => Cem
    case Cem => Nem
  }

  /** An emphasis is open where the line begins. */
  predicate OpenBefore(e: Emph) { e == Em || e == Cem }

  /** An emphasis is still open where the line ends. */
  predicate OpenAfter(e: Emph) { e == Oem || e == Em }

  /** Whatever one line leaves open, the next code of the cycle expects
   *  open, and a line closed at both ends is followed by one that is too
   *  only after a full turn. */
  lemma EmSwitchChains(e: Emph)
    ensures OpenBefore(EmSwitch(e)) == OpenAfter(e)
    ensures EmSwitch(EmSwitch(EmSwitch(EmSwitch(e)))) == e
    ensures EmSwitch(e) != e
  {
  }

  /** The read view's `emdict`: the tags a line gets for its code. */
  function Wrap(e: Emph, line: string): string
  {
    match e
    case Nem => line
    case Oem => line + "</em>"
    case Em => "<em>" + line + "</em>"
    case Cem => "<em>" + line
  }

  /** A wrapped line reopens the emphasis it starts inside and closes the
   *  one it ends inside, and its text is otherwise unchanged. */
  lemma WrapTags(e: Emph, line: string)
    ensures Wrap(e, line) == (if OpenBefore(e) then "<em>" else "") + line + (if OpenAfter(e) then "</em>" else "")
  {
    if !OpenBefore(e) {
      assert "" + line == line;
    }
    if !OpenAfter(e) {
      assert (if OpenBefore(e) then "<em>" else "") + line + "" == (if OpenBefore(e) then "<em>" else "") + line;
    }
  }

  /** The tag one underscore stands for: an opening one unless an emphasis is open. */
  function UsTag(us: bool): string
  {
    if us then "</em>" else "<em>"
  }

  predicate Odd(n: nat) { n % 2 == 1 }

  lemma OddSum(a: nat, b: nat)
    ensures Odd(a + b) == (Odd(a) != Odd(b))
  {
  }

  /** `OddSum` for a sum already named, so that callers keep `%` out of
   *  their own context. */
  lemma OddSplit(n: nat, k: nat, m: nat)
    requires m == n + k
    ensures Odd(m) == (Odd(n) != Odd(k))
  {
    OddSum(n, k);
  }

  /** Every `_` of `s` replaced by alternating `<em>` and `</em>`, starting
   *  from the open state `us`; also the open state after `s`. */
  function ToEms(s: string, us: bool): (string, bool)
  {
    if s == [] then ([], us)
    else
      var (t, u) := ToEms(s[..|s| - 1], us);
      var c := s[|s| - 1];
      if c == '_' then (t + UsTag(u), !u) else (t + [c], u)
  }

  /** The open state flips once per underscore. */
  lemma {:induction false} ToEmsParity(s: string, us: bool)
    ensures ToEms(s, us).1 == (us != Odd(CountChar(s, '_')))
  {
    if s != [] {
      var p := s[..|s| - 1];
      var c := s[|s| - 1];
      assert s == p + [c];
      CountCharAppend(p, [c], '_');
      ToEmsParity(p, us);
      OddSplit(CountChar(p, '_'), CountChar([c], '_'), CountChar(s, '_'));
    }
  }

  /** No underscore is left behind. */
  lemma {:induction false} ToEmsNoUnderscore(s: string, us: bool)
    ensures '_' !in ToEms(s, us).0
  {
    if s != [] {
      ToEmsNoUnderscore(s[..|s| - 1], us);
    }
  }

  /** Text without underscores passes through unchanged. */
  lemma {:induction false} ToEmsPlain(s: string, us: bool)
    requires '_' !in s
    ensures ToEms(s, us) == (s, us)
  {
    if s != [] {
      var p := s[..|s| - 1];
      ToEmsPlain(p, us);
      assert p + [s[|s| - 1]] == s;
    }
  }

  /** The conversion runs left to right: converting `a + b` converts `a`,
   *  then `b` from the state `a` leaves, so every other character keeps its
   *  place. */
  lemma {:induction false} ToEmsAppend(a: string, b: string, us: bool)
    ensures var (ta, ua) := ToEms(a, us); var (tb, ub) := ToEms(b, ua);
      ToEms(a + b, us) == (ta + tb, ub)
    decreases |b|
  {
    var ta, ua := ToEms(a, us).0, ToEms(a, us).1;
    if b != [] {
      var p := b[..|b| - 1];
      var c := b[|b| - 1];
      assert b == p + [c];
      assert a + b == (a + p) + [c];
      ToEmsAppend(a, p, us);
      var tp, up := ToEms(p, ua).0, ToEms(p, ua).1;
      ToEmsSnoc(a + p, c, us);
      ToEmsSnoc(p, c, ua);
      ConcatAssoc(ta, tp, if c == '_' then UsTag(up) else [c]);
    } else {
      assert a + b == a && ta + [] == ta;
    }
  }

  /** One more character converts on its own, from the state so far. */
  lemma ToEmsSnoc(s: string, c: char, us: bool)
    ensures ToEms(s + [c], us).0 == ToEms(s, us).0 + (if c == '_' then UsTag(ToEms(s, us).1) else [c])
    ensures ToEms(s + [c], us).1 == (if c == '_' then !ToEms(s, us).1 else ToEms(s, us).1)
  {
    assert (s + [c])[..|s|] == s;
  }

  /** The character loop shared by the read view and `preplines`. */
  method UnderscoresToTags(s: string, us: bool) returns (t: string, u: bool)
    ensures (t, u) == ToEms(s, us)
  {
    t, u := [], us;
    var i := 0;
    while i < |s|
      invariant 0 <= i <= |s|
      invariant (t, u) == ToEms(s[..i], us)
    {
      assert s[..i + 1][..i] == s[..i];
      if s[i] == '_' {
        t := t + UsTag(u);
        u := !u;
      } else {
        t := t + [s[i]];
      }
      i := i + 1;
    }
    assert s[..i] == s;
  }
}
