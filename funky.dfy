/**
 * Helpers of the application: the normalisation of a line range typed into
 * the line form, the "is this form field filled" test, and the choice of
 * the page to return to after a form.
 */
module Funky {
  import opened Wrappers
  import opened Strings

  function Max1(n: int): int { if n < 1 then 1 else n }

  /** `line_check(fl, ll)`: both raised to at least 1, then put in order. */
  function LineCheck(fl: int, ll: int): (r: (int, int))
    ensures r.0 >= 1 && r.1 >= 1 && r.0 <= r.1
    ensures multiset{r.0, r.1} == multiset{Max1(fl), Max1(ll)}
  {
    var fl', ll' := Max1(fl), Max1(ll);
    if ll' < fl' then (ll', fl') else (fl', ll')
  }

  /** A range that is already normal is left alone, so normalising is idempotent. */
  lemma LineCheckIdempotent(fl: int, ll: int)
    ensures var (a, b) := LineCheck(fl, ll); LineCheck(a, b) == (a, b)
    ensures 1 <= fl <= ll ==> LineCheck(fl, ll) == (fl, ll)
  {
  }

  /** A form field's data: text, a number (the data of an `IntegerField`),
   *  or a missing value. */
  datatype FieldData = Text(s: string) | Number(n: int) | NoData

  /** `is_filled(data)`: `data.strip()` comes first, so a number or a
   *  missing value, neither of which has `strip`, raises. */
  function IsFilled(data: FieldData): (r: Result<bool>)
    ensures !data.Text? <==> r == Err(AttributeError)
    ensures data.Text? ==> r.Ok?
  {
    match data
    case Text(s) => Ok(Strip(s) != "")
    case _ => Err(AttributeError)
  }

  /** Text is filled exactly when some character of it is not white space. */
  lemma IsFilledIff(s: string)
    ensures IsFilled(Text(s)) == Ok(exists i :: 0 <= i < |s| && s[i] !in Whitespace)
  {
    StripCharsEmpty(s, Whitespace);
  }

  /** `generate_next(alt_url)`: the `next` argument when it is present,
   *  non-empty and has no network location; the alternative otherwise.
   *  `netloc` stands for `url_parse(...).netloc`. */
  function GenerateNext(next: Option<string>, netloc: string -> string, altUrl: string): (r: string)
    ensures r == altUrl || (next == Some(r) && r != "" && netloc(r) == "")
    ensures (next.Some? && next.value != "" && netloc(next.value) == "") ==> r == next.value
  {
    if next.Some? && next.value != "" && netloc(next.value) == "" then next.value else altUrl
  }

  /** The redirect never leaves the site unless the alternative does. */
  lemma GenerateNextStaysLocal(next: Option<string>, netloc: string -> string, altUrl: string)
    requires netloc(altUrl) == ""
    ensures netloc(GenerateNext(next, netloc, altUrl)) == ""
  {
  }
}
