/**
 * Wikis in the model package: a wiki keeps the history of its edits, whose
 * content is the body text. Its first edit is number 1 (the column default),
 * approved and current. A new edit is numbered one past the current edit;
 * an editor holding the immediate-wiki-edit right applies it at once. There
 * is no duplicate check for wikis.
 */
module WikiModel {
  import opened Wrappers
  import opened EditHistory
  import opened Strings

  const BlankWiki := "This wiki is currently blank."

  /** `Wiki.edit` on the history `s`. */
  function WikiEdited(s: seq<EditRow<string>>, body: string, authorized: bool): seq<EditRow<string>>
    requires HeadIndex(s).Some?
  {
    Appended(s, body, authorized)
  }

  /** The new edit is numbered `current.num + 1`; an authorised edit becomes
   *  the only current edit, any other leaves the current edit in place and
   *  stays pending. */
  lemma WikiEditCases(s: seq<EditRow<string>>, body: string, authorized: bool)
    requires OneCurrent(s)
    ensures HeadIndex(s).Some?
    ensures var r := WikiEdited(s, body, authorized);
      var h := HeadIndex(s).value;
      && OneCurrent(r)
      && |r| == |s| + 1 && r[|s|].num == s[h].num + 1 && r[|s|].content == body
      && (authorized ==> HeadIndex(r) == Some(|s|) && r[|s|].approved && !r[h].current)
      && (!authorized ==> HeadIndex(r) == Some(h) && r[h] == s[h] && !r[|s|].approved && !r[|s|].rejected)
  {
    AppendedShape(s, body, authorized);
    HeadIsOnly(WikiEdited(s, body, authorized));
  }

  class Wiki {
    const history: History<string>

    predicate Valid()
      reads history
    {
      OneCurrent(history.edits)
    }

    /** `Wiki.__init__`: exactly one edit, current and approved. */
    constructor (body: Option<string>)
      ensures Valid()
      ensures history.edits == [EditRow(1, true, true, false, Defaulted(body, BlankWiki))]
    {
      history := new History(1, Defaulted(body, BlankWiki));
    }

    /** `edit(editor, body, reason)`. */
    method Edit(body: string, authorized: bool)
      requires Valid()
      modifies history
      ensures history.edits == WikiEdited(old(history.edits), body, authorized)
      ensures Valid()
    {
      history.Add(body, authorized);
      AppendedShape(old(history.edits), body, authorized);
    }
  }

  /** The wiki's `entity`: the first of the back-references (writer, text,
   *  tag, edition, text request, tag request) that is set; with none set,
   *  the `[0]` raises `IndexError`. */
  function Entity<E>(backrefs: seq<Option<E>>): (r: Result<E>)
    ensures r.Err? <==> forall k :: 0 <= k < |backrefs| ==> backrefs[k].None?
    ensures r.Err? ==> r.error == IndexError
    ensures r.Ok? ==> exists k :: 0 <= k < |backrefs| && backrefs[k] == Some(r.value)
                                   && forall j :: 0 <= j < k ==> backrefs[j].None?
  {
    if backrefs == [] then Err(IndexError)
    else if backrefs[0].Some? then Ok(backrefs[0].value)
    else
      var r := Entity(backrefs[1..]);
      assert r.Ok? ==> exists k :: 1 <= k < |backrefs| && backrefs[k] == Some(r.value)
                                   && forall j :: 0 <= j < k ==> backrefs[j].None? by {
        if r.Ok? {
          var k :| 0 <= k < |backrefs[1..]| && backrefs[1..][k] == Some(r.value)
                   && forall j :: 0 <= j < k ==> backrefs[1..][j].None?;
          assert backrefs[k + 1] == Some(r.value);
          assert forall j :: 1 <= j < k + 1 ==> backrefs[j] == backrefs[1..][j - 1];
        }
      }
      r
  }
}
