# Anno-Wiki (icc) in Dafny

Anno-Wiki is a Flask application for annotating public-domain texts line by
line. Readers select a passage, annotate it, vote on annotations and on the
edits other users propose to annotations and wikis, build a reputation from
those votes, and follow texts, writers, tags and users. The texts themselves
come from a two-pass text processor (`readin`, then `readout`) and an
insert script that loads its line records into the database.

This project models the bookkeeping at the centre of that application, one
Dafny module per part:

- the reading page's scripts: the context expander that grows and shrinks a
  selection inside a window of resident lines (`ExpandSelection`), the
  selection-to-anchor resolution of both highlight scripts (`Highlight`,
  `HighlightForm`), the ancestor search of `utils.js` (`DomUtils`), the vote
  widget's reconciliation of a server reply (`VoteWidget`) and the inline
  annotation overlay (`AnnotationDisplay`);
- line ranges and emphasis on the server: `line_check` and its helpers
  (`Funky`), the older `preplines` balancing (`LegacyFunky`), the read
  view's underscore conversion and section default (`ReadRoute`), the
  shared emphasis codes (`Emphasis`), and the older routes' bound handling,
  tag checks and vote toggles (`LegacyRoutes`);
- the text processor: Python's insertion-ordered dictionaries
  (`OrderedDicts`), the emphasis and preformatted switch of `readin`
  (`ReadIn`) and the table-of-contents numbering of `readout` (`ReadOut`);
  the insert script's enum cache and line rows (`InsertLines`); and the
  content models' enumerations, urls, titles and line ranges (`Content`);
- edits, votes and reputation: ballots and vote toggles (`Ballots`,
  `Mixins`, `Requests`), reputation changes and rights (`Reputation`),
  follows (`Follow`), edit construction and application for annotations and
  wikis (`AnnotationModel`, `WikiModel`, `EditHistory`), the edit review
  merges (`Merges`), the annotation routes (`AnnotationRoutes`), the admin
  review queues (`AdminQueues`), and the older single-file models
  (`LegacyModels`).

The parts the source changes in place are classes whose methods are proved
against a specification function of their state (`State()`); the rest are
functions and lemmas. Python exceptions are modelled as `Result` errors,
the DOM as records and sequences, server replies and query results as
parameters, and content hashes by equality of the hashed fields. `Wrappers`
and `Strings` hold the shared results and the string operations of Python
and JavaScript the models use.

Where the documented behaviour and the code disagree, the model follows the
code, as listed below. Where the code fails at run time in a way its authors
evidently did not intend (an unbound name, a property called as a method, a
string method applied to a number), "## Findings" models the code as written
beside the intended behaviour, and the rest of the model uses the intended
behaviour; smaller slips of this kind are listed here and under "## Left out".

- `expand` in `icc/main/templates/includes/js/_expand_selection.js` never
  evicts a line; only `contract` does.
- Deleting an edit (`icc/admin/edits.py:109-122`, `icc/admin/wikis.py:184-195`)
  decrements the numbers of the later edits, but deleting the current edit
  leaves a gap (`EditHistory.DeleteCurrentLeavesGap`), although the
  confirmation text says every later edit moves down.
- `preplines` is called with one argument at `app/routes.py:446` but takes
  two; the model takes both.

## Model

| member | source | states |
|---|---|---|
| DomUtils.Nearest | icc/static/scripts/utils.js:10-17 | the node found is the first one up the chain whose id matches `^prefix\d+`, none below it matches, and the climb fails (a `TypeError` on the missing parent) exactly when no node of the chain matches |
| DomUtils.GetParent | icc/static/scripts/utils.js:10-17 | the `while` loop that climbs `parentNode` returns the position `Nearest` names, or the `TypeError` |
| DomUtils.NearestNone | icc/static/scripts/utils.js:13-15 | when no id of the chain matches, the climb runs off the root and raises `TypeError` |
| DomUtils.NearestIs | icc/static/scripts/utils.js:13-16 | any matching node with no match below it is the one returned |
| DomUtils.GetParentId | icc/static/scripts/utils.js:18-20 | `get_parent_id` succeeds exactly when `get_parent` does, and gives that node's id, which matches the pattern |
| DomUtils.AnchoredAtStart | icc/static/scripts/utils.js:11-13 | the pattern is anchored at the start only (`a12-js` matches prefix `a`), an empty prefix needs leading digits, and the nearest match wins over one further up |
| DomUtils.WithClass | icc/static/scripts/utils.js:2 | `getElementsByClassName` lists only descendants that carry the class, and every descendant carrying it |
| DomUtils.ClassPositions | icc/static/scripts/utils.js:2 | the positions of the descendants carrying the class, ascending, each such position once |
| DomUtils.WithClassInOrder | icc/static/scripts/utils.js:2 | the list is exactly the descendants at those positions, in document order, each once |
| DomUtils.ByClass | icc/static/scripts/utils.js:2-3 | `byClass` of a falsy element is the empty list; otherwise an element is listed exactly when it carries the class |
| DomUtils.NewEl | icc/static/scripts/utils.js:4-8 | `newEl` returns a fresh element of the given tag with `className` set to the given class |
| Highlight.ShowBtn | icc/main/templates/includes/js/_highlight.js:2-14 | the button is hidden (`""`) exactly when the selection text is empty, and shown as `block` otherwise |
| Highlight.AnchorIgnoresMiddle | icc/main/templates/includes/js/_highlight.js:25-30 | only the first and the last range decide the anchor: the ranges between them can be anything |
| Highlight.AnchorOfOneRange | icc/main/templates/includes/js/_highlight.js:25-30 | a single range gives both line ids and both offsets of that one range |
| Highlight.CollectRanges | icc/main/templates/includes/js/_highlight.js:19-23 | the counting loop copies every range of the selection, in order |
| Highlight.ProcSel | icc/main/templates/includes/js/_highlight.js:16-31 | `procSel` sets `fl`/`ll`/`fc`/`lc` from the first range's start and the last range's end, and throws (`ranges[0]` undefined) exactly when the selection has no range |
| Highlight.ShowIntNoSeparator | icc/main/templates/includes/js/_highlight.js:35 | a rendered number never holds `/`, `?` or `&`, so the joined url splits back at them |
| Highlight.AnchorPartParses | icc/main/templates/includes/js/_highlight.js:35-36 | the tail `fl/ll?fc=..&lc=..` of the annotate url splits back into its four parts |
| Highlight.SubmitUrlParses | icc/main/templates/includes/js/_highlight.js:33-37 | the url `submit` navigates to reads back as text, edition, toc id, first and last line and both offsets when the title and line ids hold no separator |
| HighlightForm.SelectAgreesWithProcSel | icc/main/templates/includes/_highlight.js:2-39 | the form's `select` fills the same anchor as `procSel` (its line id is the id two levels up), and throws exactly when there is no range |
| HighlightForm.LineForm.Select | icc/main/templates/includes/_highlight.js:2-39 | an empty selection only hides the form; otherwise the four fields get the anchor and the form is shown; a throw changes nothing |
| ExpandSelection.Find | icc/main/templates/includes/js/_expand_selection.js:48 | `byID(n)` finds the first element whose id is `n`, or reports that none has it |
| ExpandSelection.UnselectedAppend | icc/main/templates/includes/js/_expand_selection.js:53-56 | the count of lines without `selection` adds up over concatenated runs |
| ExpandSelection.FindContiguous | icc/main/templates/includes/js/_expand_selection.js:48 | in a contiguous run, line `n` is resident exactly when it lies in the run's range, at position `n - first number` |
| ExpandSelection.WindowShape | icc/main/templates/includes/js/_expand_selection.js:47-68 | on a valid page the elements of the first and last selected lines sit right inside the two expanders, and the padding counts are the unselected lines outside them |
| ExpandSelection.TargetResident | icc/main/templates/includes/js/_expand_selection.js:78-92 | the line `expand` would highlight is resident exactly when an unselected line lies on that side, and it is the one next to the expander |
| ExpandSelection.ContractValid | icc/main/templates/includes/js/_expand_selection.js:39-70 | `contract` keeps the page valid: a contiguous run, the `selection` class exactly between the expanders, the inputs naming the first and last selected lines |
| ExpandSelection.ContractMovesBoundary | icc/main/templates/includes/js/_expand_selection.js:40-69 | with a one-line selection `contract` changes nothing; otherwise it moves the input on its side inward by one and the released line stays resident without `selection` |
| ExpandSelection.ContractPadding | icc/main/templates/includes/js/_expand_selection.js:52-68 | `contract` evicts the outermost line on its side exactly when the count beyond the released line is at least 3, so that side's padding becomes at most the larger of its old value and 3, and the other side is untouched |
| ExpandSelection.ExpandGuards | icc/main/templates/includes/js/_expand_selection.js:78-107 | a target outside `1..totalLines` changes nothing; a target that is not resident throws before any change; any other outcome has the target in range |
| ExpandSelection.ExpandValid | icc/main/templates/includes/js/_expand_selection.js:72-121 | every outcome of `expand` and its response handler leaves a valid page |
| ExpandSelection.ExpandGrows | icc/main/templates/includes/js/_expand_selection.js:83-116 | an applied `expand` moves the input on its side outward by one, the target line carries `selection`, no resident line is lost, and a found line is added at the outer edge with the next number |
| ExpandSelection.ExpandPadding | icc/main/templates/includes/js/_expand_selection.js:88-116 | on the grown side a found line keeps the padding count, the not-found branch lowers it by one, and the other side is untouched |
| ExpandSelection.ExpandThenContract | icc/main/templates/includes/js/_expand_selection.js:39-116 | with three or more padding lines on that side, a successful `expand` followed by `contract` on the same side restores the page exactly |
| ExpandSelection.ExpandMissingThenContract | icc/main/templates/includes/js/_expand_selection.js:39-116 | with one to three padding lines, a not-found `expand` followed by `contract` restores the page exactly |
| ExpandSelection.Placed | icc/main/templates/includes/js/_expand_selection.js:123-149 | both expanders are placed exactly when the elements of the first and last lines exist, around those lines with the lines and inputs kept; otherwise `line.parentNode` throws, and the top expander stays before the first line when only the last is missing |
| ExpandSelection.PlacedValid | icc/main/templates/includes/js/_expand_selection.js:123-149 | placing the expanders around a contiguous run whose selected lines are exactly `first..last` gives a valid page |
| ExpandSelection.CountAbove | icc/main/templates/includes/js/_expand_selection.js:53-56 | the counting loop above the released line counts the unselected lines before it |
| ExpandSelection.CountBelow | icc/main/templates/includes/js/_expand_selection.js:61-64 | the counting loop below the released line counts the unselected lines after it |
| ExpandSelection.SelectionBlock.constructor | icc/main/templates/includes/js/_expand_selection.js:2-24 | the page after load is the placed window, which is valid |
| ExpandSelection.SelectionBlock.Contract | icc/main/templates/includes/js/_expand_selection.js:39-70 | the page after `contract` is `Contracted` of the page before, and stays valid |
| ExpandSelection.SelectionBlock.ContractTop | icc/main/templates/includes/js/_expand_selection.js:50-69 | the top branch: the first selected line is released, moved above the expander, and the first line evicted when the count reaches 3 |
| ExpandSelection.SelectionBlock.ContractBottom | icc/main/templates/includes/js/_expand_selection.js:50-69 | the bottom branch: the expander moves above the last selected line, and the last line is evicted when the count reaches 3 |
| ExpandSelection.SelectionBlock.Expand | icc/main/templates/includes/js/_expand_selection.js:72-121 | the outcome and the page after `expand` and its response handler are `Expanded` of the page before, and the page stays valid |
| ExpandSelection.SelectionBlock.ExpandTop | icc/main/templates/includes/js/_expand_selection.js:72-121 | the top branch: outcome and page are `Expanded` upwards; a fetched line goes first, the line above the selection joins it and the top expander moves above that line |
| ExpandSelection.SelectionBlock.ExpandBottom | icc/main/templates/includes/js/_expand_selection.js:72-121 | the bottom branch: outcome and page are `Expanded` downwards; a fetched line goes last, the line below the selection joins it and moves above the bottom expander |
| AnnotationDisplay.FindId | icc/main/templates/includes/js/_annotation_display.js:9-12 | `document.getElementById` finds the first block with the id in document order, or none exactly when no block has it |
| AnnotationDisplay.AnnotationId | icc/main/templates/includes/js/_annotation_display.js:8 | the annotation id is `a` followed by the marker's text with every `[` and `]` removed |
| AnnotationDisplay.Blasted | icc/main/templates/includes/js/_annotation_display.js:32-36 | an element child of `.center` keeps its class, and keeps its content only when its class is `footnote`; a text node, whose `className` is undefined, keeps its text |
| AnnotationDisplay.Prepared | icc/main/templates/includes/js/_annotation_display.js:18-36 | the clone gets id `<id>-js`, every `.collapse` becomes a kill button, every element child of `.center` other than the footnote is emptied, the footnote and text nodes are kept as they were, and a clone without `.center` throws |
| AnnotationDisplay.KillButtons | icc/main/templates/includes/js/_annotation_display.js:24-28 | the loop over `.collapse` turns every one of them into the `&times;` kill button |
| AnnotationDisplay.BlastAll | icc/main/templates/includes/js/_annotation_display.js:32-36 | the loop over all child nodes of `.center`, text nodes included, blasts each of them, in place |
| AnnotationDisplay.ShownInsertsClone | icc/main/templates/includes/js/_annotation_display.js:38-40 | a successful `show_annotation` inserts exactly one block, the prepared clone with id `<aid>-js`, right after the line's block, and leaves every other block in place |
| AnnotationDisplay.ShowIdempotent | icc/main/templates/includes/js/_annotation_display.js:11-15 | showing the same annotation again, from any spot, changes nothing |
| AnnotationDisplay.ShowThenKill | icc/main/templates/includes/js/_annotation_display.js:2-41 | killing from inside the clone removes exactly the clone (its id matches `^a\d+`), giving back the page before `show_annotation` |
| AnnotationDisplay.ShownFailsCleanly | icc/main/templates/includes/js/_annotation_display.js:9-32 | `show_annotation` returns early exactly when `<aid>-js` already exists, and an early return or a throw leaves the page unchanged |
| AnnotationDisplay.PrepareClone | icc/main/templates/includes/js/_annotation_display.js:18-36 | the two loops of `show_annotation` compute `Prepared` of the template |
| AnnotationDisplay.Page.constructor | icc/main/templates/includes/js/_annotation_display.js:42-48 | the page holds the given blocks and annotation templates |
| AnnotationDisplay.Page.ShowAnnotation | icc/main/templates/includes/js/_annotation_display.js:6-41 | the outcome and the page after `show_annotation` are `Shown` of the page before |
| AnnotationDisplay.Page.KillAnnotation | icc/main/templates/includes/js/_annotation_display.js:2-5 | the outcome and the page after `kill_annotation` are `Killed` of the page before |
| VoteWidget.HexDigit | icc/templates/includes/_vote.js:25 | a hexadecimal digit of `escape` is itself left unescaped and is never `u` |
| VoteWidget.HexRoundTrip | icc/templates/includes/_vote.js:25 | reading a hexadecimal digit back gives its value |
| VoteWidget.Units | icc/templates/includes/_vote.js:25 | a character is one UTF-16 code unit exactly when it is below `0x10000`, else a surrogate pair |
| VoteWidget.EscapeUnit | icc/templates/includes/_vote.js:25 | one escaped code unit holds only unreserved characters and `%` |
| VoteWidget.EscapeChar | icc/templates/includes/_vote.js:25 | one escaped character holds only unreserved characters and `%` |
| VoteWidget.Escape | icc/templates/includes/_vote.js:25 | the output of `escape` holds only unreserved characters and `%` (so no `&`, `?` or `=`) |
| VoteWidget.Hex4 | icc/templates/includes/_vote.js:25 | four hexadecimal digits read back as a value below `0x10000` |
| VoteWidget.UnescapeChar | icc/templates/includes/_vote.js:25 | unescaping the escape of a character below `0x10000` gives that character back, followed by the unescape of the rest |
| VoteWidget.UnescapeByte | icc/templates/includes/_vote.js:25 | the `%XX` form of a character below 256 unescapes to it |
| VoteWidget.UnescapeWide | icc/templates/includes/_vote.js:25 | the `%uXXXX` form of a character from 256 up to `0xFFFF` unescapes to it |
| VoteWidget.UnescapeEscape | icc/templates/includes/_vote.js:25 | `unescape(escape(s)) == s` for every string of characters below `0x10000` |
| VoteWidget.LoginNextRecovers | icc/templates/includes/_vote.js:12-26 | the login url is the login route, `?next=`, and a tail with no `&` or `?` that unescapes to the vote replay url built from id, entity, direction and the current path |
| VoteWidget.AddClass | icc/templates/includes/_vote.js:76 | `classList.add` makes the class present and leaves every other class as it was |
| VoteWidget.RemoveClass | icc/templates/includes/_vote.js:77 | `classList.remove` makes the class absent and leaves every other class as it was |
| VoteWidget.ReweighedClasses | icc/templates/includes/_vote.js:60-77 | after `modWeight` exactly one of `up`, `down`, `nil` is present, the one of the new total's sign, and every other class is untouched |
| VoteWidget.ReweighedText | icc/templates/includes/_vote.js:61-78 | the weight text becomes the new total and a space, and reads back as that total |
| VoteWidget.ReweighTwice | icc/templates/includes/_vote.js:60-79 | two `modWeight` calls give the same text and sign class as one call with the sum of the changes |
| VoteWidget.LoginOnlyRedirects | icc/templates/includes/_vote.js:34-37 | a `login` answer only navigates to the login url; no control and no weight changes |
| VoteWidget.ReconciledControls | icc/templates/includes/_vote.js:38-44 | the four answer cases: a successful rollback marks this control by direction and clears the opposite one (throwing when it is missing), a failed rollback clears this control, a plain success marks it `up` whatever the direction, and a plain failure leaves the controls alone |
| VoteWidget.ReconciledWeight | icc/templates/includes/_vote.js:45-46 | the weight changes only when the answer carries `change` and the handler did not throw before |
| VoteWidget.VoteView.constructor | icc/templates/includes/_vote.js:2-11 | the page starts with the given controls and weight and no navigation |
| VoteWidget.VoteView.ModWeight | icc/templates/includes/_vote.js:60-79 | `modWeight` changes the weight element as `Reweighed` says and nothing else |
| VoteWidget.VoteView.OnLoad | icc/templates/includes/_vote.js:31-48 | the outcome and the state after the `onload` handler are `Reconciled` of the state before |
| Funky.LineCheck | icc/funky.py:38-48 | both line numbers end up at least 1 and in order, and the pair is the two raised inputs, perhaps swapped |
| Funky.LineCheckIdempotent | icc/funky.py:38-48 | checking a checked range changes nothing, and a range already in order from 1 up is returned unchanged |
| Funky.IsFilled | icc/funky.py:14-26 | a number or a missing value raises `AttributeError` (`strip` runs before the `None` test), and only then; text always gives an answer |
| Funky.IsFilledIff | icc/funky.py:14-26 | text counts as filled exactly when some character of it is not white space in the sense of Python's `str.isspace` (the no-break space, the ideographic space and the other Unicode spaces included) |
| Funky.GenerateNext | icc/funky.py:29-35 | the `next` argument is used exactly when it is present, non-empty and has no network location; the alternative url otherwise |
| Funky.GenerateNextStaysLocal | icc/funky.py:29-35 | when the alternative is local, the page returned to is local whatever `next` holds |
| LegacyFunky.OpenedClosedExclusive | app/funky.py:1-13 | no line both leaves an `<em>` open and closes one, and a line with as many openings as closings does neither |
| LegacyFunky.AHashSplits | app/funky.py:15-16 | the `line,char` key splits back at its first comma into the two numbers |
| LegacyFunky.AHashInjective | app/funky.py:15-16 | different line/character pairs get different keys |
| LegacyFunky.Marker | app/funky.py:26-34 | the annotation marker holds no underscore |
| LegacyFunky.WithMarkerPlaces | app/funky.py:27-34 | the marker is appended when both character indices are 0, and otherwise inserted at `last_char_idx` |
| LegacyFunky.WithMarkerUnderscores | app/funky.py:27-34 | inserting a marker keeps the number of underscores of the line |
| LegacyFunky.WithMarkersUnderscores | app/funky.py:24-34 | all the markers of a line together keep its number of underscores, so they never shift the emphasis alternation |
| LegacyFunky.PrepLineState | app/funky.py:36-48 | one line keeps its id, and the `us` flag flips exactly when the line has an odd number of underscores |
| LegacyFunky.PreppedState | app/funky.py:18-58 | `preplines` keeps the number and the ids of the lines, and `us` ends set exactly when the lines hold an odd number of underscores |
| LegacyFunky.PrepLineShape | app/funky.py:36-58 | after one line no underscore is left; an opened line is closed and starts an emphasis, a closed line is opened and ends it, and any other line is wrapped exactly when an emphasis is running |
| LegacyFunky.AddMarkers | app/funky.py:24-34 | the marker loop computes the line with all of its annotations' markers |
| LegacyFunky.PrepOne | app/funky.py:24-58 | the body of the loop computes `PrepLine` with the two flags |
| LegacyFunky.Preplines | app/funky.py:18-58 | the array of lines after `preplines` is `Prepped` of the lines before |
| ReadRoute.EmsLineState | icc/main/routes.py:184-201 | after one line the open-emphasis flag has flipped exactly when the line holds an odd number of underscores |
| ReadRoute.EmsLinesState | icc/main/routes.py:184-201 | the lines keep their number, and the final flag records the parity of all underscores seen |
| ReadRoute.EmsLinesPointwise | icc/main/routes.py:184-201 | line `i` is converted with the flag set by the underscores of the lines before it, so an emphasis can span lines |
| ReadRoute.EmsLineShape | icc/main/routes.py:190-201 | a line without an underscore is left as it is; any other loses all its underscores and is wrapped according to its emphasis code |
| ReadRoute.UnderscoresToEms | icc/main/routes.py:169-201 | the array of lines after the call is the conversion of the lines before it, starting with no emphasis open |
| ReadRoute.ParseSection | icc/main/routes.py:215-217 | parsing succeeds exactly when every `section` value is an integer literal, and then gives those integers in order |
| ReadRoute.DeepestPrecedence | icc/models/content.py:212-222 | the deepest precedence is the section length of the first primary heading line, and `AttributeError` exactly when the edition has none |
| ReadRoute.NoSectionFails | icc/main/routes.py:217-218 | with no `section` argument the view always fails: `AttributeError` without a primary heading line, otherwise `TypeError`, since the property `deepest_precedence` is called |
| ReadRoute.Section | icc/main/routes.py:215-218 | the intended default section is a tuple of 1s as long as the deepest precedence, still `AttributeError` without a primary heading line; given values are parsed as written |
| ReadRoute.AnnotationsIdx | icc/main/routes.py:241-244 | a line is a key exactly when some annotation ends on it, and it lists the annotations ending there in query order |
| ReadRoute.EndingPositions | icc/main/routes.py:241-244 | the positions in query order of the annotations whose last line is the given line: ascending, and every such position |
| ReadRoute.EndingOnInOrder | icc/main/routes.py:241-244 | a line's list holds the id of each annotation ending on that line, in query order, each once, and nothing else |
| ReadRoute.EndingOn | icc/main/routes.py:241-244 | a line's list is never longer than the annotations |
| LegacyRoutes.ReadClamp | app/routes.py:398-404 | the clamped range spans at most six lines, both bounds are at least 1, a positive last line is kept, and a short range from line 1 up is kept |
| LegacyRoutes.ReadAsWritten | app/routes.py:382-384 | as written, the first `is_filled` test of a submitted line form raises `AttributeError`, whatever numbers or empty fields the `IntegerField`s hold, so the route never redirects |
| LegacyRoutes.ReadAsWrittenRaises | app/routes.py:382-412 | for a range such as 3 to 7 the route as written raises, while the intended reading of the same bounds typed as text redirects with exactly that range |
| LegacyRoutes.ReadFields | app/routes.py:384-396 | the intended reading of the two fields as typed text: no range exactly when neither field is filled; a single filled field gives a one-line range |
| LegacyRoutes.ReadRange | app/routes.py:382-412 | as intended, the line form of `read` redirects exactly when some field is filled and the numbers parse, with a range of positive bounds at most six lines long |
| LegacyRoutes.ReadRangeCopies | app/routes.py:391-404 | as intended, a filled first line alone gives the one-line range at that line, raised to 1 |
| LegacyRoutes.ReadKeepsReversal | app/routes.py:398-404 | the clamps do not order the bounds: first line 10 and last line 3 stay reversed |
| LegacyRoutes.ReadClampKeeps | app/routes.py:398-404 | every range of at most six lines with bounds from 1 up is forwarded unchanged |
| LegacyRoutes.AnnotateBounds | app/routes.py:461-469 | the annotate range fails exactly when a bound is not an integer, and is otherwise ordered and starts at line 1 or later |
| LegacyRoutes.SwappedClamp | app/routes.py:461-469 | the swapped and clamped pair is ordered and at least 1, and is the two inputs unless a bound was raised to 1 |
| LegacyRoutes.AnnotateBoundsKeeps | app/routes.py:461-469 | positive bounds are kept when in order and swapped when reversed |
| LegacyRoutes.FormBounds | app/routes.py:489-495 | the form's bounds fail exactly when one is not an integer, end up at least 1, and positive bounds are kept as given, unordered |
| LegacyRoutes.TagCheck | app/routes.py:497-516 | the tags are accepted exactly when every word names a known tag and there are at most five, and then they are the words in order |
| LegacyRoutes.CheckTags | app/routes.py:497-516 | the loop over the raw tags reaches the verdict `TagCheck` describes |
| LegacyRoutes.VotedAnnotation.Rollback | app/routes.py:733-737 | rolling a ballot back removes it and takes its delta off the weight |
| LegacyRoutes.VotedAnnotation.Cast | app/routes.py:739 | a vote adds a ballot of the voter's power and adds the power to the weight |
| LegacyRoutes.UpvoteRoute | app/routes.py:718-742 | the annotation ends in the state the vote toggle prescribes for an up vote, and is untouched for its author |
| LegacyRoutes.DownvoteRoute | app/routes.py:744-768 | the annotation ends in the state the vote toggle prescribes for a down vote, and is untouched for its author |
| LegacyRoutes.RouteVoteCases | app/routes.py:718-768 | the author's vote changes nothing; repeating a vote only withdraws it; the opposite vote withdraws the old ballot and casts the new one; a first vote casts; each voter keeps at most one ballot and the weight keeps its offset from the ballot sum |
| Ballots.FindVote | icc/requests/tags.py:80-81 | the ballot found is the voter's first one on the entity, and none is found exactly when the voter has cast none |
| Ballots.RemoveAt | icc/models/mixins.py:163-166 | deleting a ballot keeps all others in their order |
| Ballots.RolledBack | icc/models/mixins.py:163-166 | after a rollback the weight still exceeds the ballot sum by the same amount |
| Ballots.Cast | icc/models/request.py:70-80 | after a vote the weight still exceeds the ballot sum by the same amount |
| Ballots.SumAppend | icc/models/request.py:70-80 | the ballot sum of two runs of ballots is the sum of their sums |
| Ballots.SumRemoveAt | icc/models/mixins.py:163-166 | deleting a ballot lowers the ballot sum by its delta |
| Ballots.CastThenRollback | icc/models/request.py:66-74 | rolling back the ballot just cast restores the weight and the ballots |
| Ballots.RemoveAtKeepsAtMostOne | icc/models/mixins.py:163-166 | deleting a ballot keeps every voter at no more than one ballot |
| Ballots.RemoveOnlyVote | icc/requests/tags.py:80-84 | once the voter's one ballot is rolled back the voter holds none |
| Ballots.AppendKeepsAtMostOne | icc/models/request.py:70-80 | a voter without a ballot who votes holds exactly one |
| Ballots.FindAppended | icc/models/request.py:70-80 | the new ballot is the one found for its voter |
| Ballots.HeldElsewhere | icc/requests/tags.py:80-88 | rolling back one voter's ballot and casting theirs again leaves every other voter's ballot as it was |
| Ballots.CastElsewhere | icc/models/request.py:70-80 | a vote leaves every other voter's ballot as it was |
| Ballots.ToggleShape | icc/requests/tags.py:76-108 | the vote toggle keeps every voter at no more than one ballot and the weight at the same offset from the ballot sum, and leaves the voter with a ballot in the voted direction unless it withdrew one pointing that way |
| Ballots.ToggleElsewhere | icc/requests/tags.py:76-108 | the toggle never changes another voter's ballot |
| Ballots.UnitToggleWeight | icc/requests/tags.py:76-108 | with ballots of plus or minus one, an up toggle moves the weight by +1 for a first vote, by -1 when it withdraws an up ballot and by +2 when it replaces a down ballot; a down toggle mirrors this |
| Ballots.ToggleTwice | icc/requests/tags.py:76-108 | a voter without a ballot who votes twice the same way leaves the entity as it was |
| Mixins.EditVotes.Rollback | icc/models/mixins.py:163-166 | the edit loses the ballot and its delta, and its review flags stay as they were |
| Mixins.EditVotes.Reject | icc/models/mixins.py:168-171 | the edit is rejected, and its weight, ballots and approval stay as they were |
| Mixins.RollbackRestores | icc/models/mixins.py:163-166 | rolling back the last ballot cast restores the weight and the ballots from before it |
| Mixins.Pos | icc/models/mixins.py:186-195 | the position returned is where the id first occurs in the index's answer |
| Mixins.RankedMembers | icc/models/mixins.py:186-195 | a row is returned exactly when the index found its id and the table holds it, and no row comes twice |
| Mixins.RankedOrder | icc/models/mixins.py:186-195 | the rows come in the order the index ranked their ids |
| Mixins.SearchSpec | icc/models/mixins.py:186-195 | no rows for no hits; otherwise exactly the found rows of the table, each once, in the index's order |
| Mixins.WhenList | icc/models/mixins.py:191-193 | the `when` list pairs each id with its position in the index's answer |
| Strings.Defaulted | icc/models/request.py:57-61 | a missing or empty text gives the fallback (the blank-wiki text of a request here, and of a wiki at icc/models/wiki.py:44-45), any other is used as it is, and the result is never empty |
| Requests.Request.constructor | icc/models/request.py:57-61 | a new request has weight 0, no ballots, is pending and gets the wiki body for its description |
| Requests.Request.Rollback | icc/models/request.py:66-68 | the request loses the ballot and its delta; flags and wiki stay |
| Requests.Request.Upvote | icc/models/request.py:70-74 | the request gains a ballot of +1 and one point of weight; flags and wiki stay |
| Requests.Request.Downvote | icc/models/request.py:76-80 | the request gains a ballot of -1 and loses one point of weight; flags and wiki stay |
| Requests.Request.Reject | icc/models/request.py:82-83 | the request is rejected and nothing else changes |
| Requests.UpvoteRequest | icc/requests/tags.py:74-89 | the request ends in the state of an up toggle with ballots of one; its flags stay |
| Requests.DownvoteRequest | icc/requests/tags.py:92-107 | the request ends in the state of a down toggle with ballots of one; its flags stay |
| Requests.RequestToggle | icc/requests/tags.py:76-108 | a first up vote adds one point and an up ballot, a repeated one withdraws it and takes the point back, an up vote over a down ballot adds two points; no other voter's ballot changes |
| Requests.ToggleKeepsUnit | icc/requests/tags.py:76-108 | every ballot stays worth plus or minus one |
| Requests.PendingRows | icc/requests/tags.py:29-31 | the index lists exactly the rows that are neither approved nor rejected |
| Requests.PageItems | icc/requests/tags.py:29-31 | a page holds at most the page size of rows, all drawn from the query |
| Requests.TagRequestIndex | icc/requests/tags.py:15-33 | an unknown sort key falls back to `weight`; a page holds at most the page size of pending rows of that ordering; only an empty page past the first is a 404 |
| Requests.IndexPages | icc/requests/tags.py:15-33 | the first page holds the first pending rows, and a page that starts within the pending rows is never a 404 |
| Reputation.ClampedDelta | icc/models/user.py:168-172 | the recorded delta takes the reputation to its old value plus the default, or to 0 when that sum would not be positive |
| Reputation.RepChanged | icc/models/user.py:164-174 | an unknown enum records nothing and keeps the reputation; otherwise the new reputation is the old one plus the recorded delta and never negative, and a change that keeps it positive is the enum's default |
| Reputation.RolledBack | icc/models/user.py:176-186 | rolling back nothing keeps the reputation; otherwise the delta is undone, stopping at zero |
| Reputation.RollbackDoubles | icc/models/user.py:180-184 | as written, when undoing the delta would go below zero the reputation doubles instead of dropping to zero |
| Reputation.RollbackCounterexample | icc/models/user.py:180-184 | a reputation of 3 with a recorded delta of 5 becomes 6 as written and 0 as intended |
| Reputation.RollbackNonNegative | icc/models/user.py:176-186 | both rollbacks keep a non-negative reputation non-negative |
| Reputation.RepChangeRollback | icc/models/user.py:164-186 | rolling back the change `repchange` just recorded restores the reputation from before it |
| Reputation.User.constructor | icc/models/user.py:57-127 | a new user has reputation 0 and the rights given |
| Reputation.User.RepChange | icc/models/user.py:164-174 | the user's reputation and the returned change are those `RepChanged` gives; rights stay, and the reputation stays non-negative |
| Reputation.User.RollbackRepchange | icc/models/user.py:176-186 | the reputation is rolled back with the clamp stopping at zero; rights stay, and the reputation stays non-negative |
| Reputation.IsAuthAll | icc/models/user.py:222-229 | granted exactly when every wanted right is authorised |
| Reputation.IsAuthAny | icc/models/user.py:231-236 | granted exactly when some wanted right is authorised |
| Reputation.AuthorizedIff | icc/models/user.py:215-220 | an unknown right is never granted; holding the right or reaching its minimum reputation each suffices; a minimum of 0 grants nothing by reputation |
| Reputation.AuthorizedMonotone | icc/models/user.py:215-220 | more rights or more reputation never cost an authorisation |
| Reputation.AnonymousAuthorized | icc/models/user.py:32-42 | an anonymous visitor is refused every right and every list of rights |
| Reputation.AnonymousVote | icc/models/user.py:48-50 | an anonymous visitor never holds a ballot |
| Follow.RemoveFirst | icc/user/follow.py:20-21 | `list.remove` drops exactly one occurrence of the entity |
| Follow.ToggleFlips | icc/user/follow.py:15-25 | after `follow_entity` the entity is followed exactly when it was not, and every other entity is followed as often as before |
| Follow.CountOne | icc/user/follow.py:15-25 | in a list without repeats each entity occurs at most once |
| Follow.ToggleNoDuplicates | icc/user/follow.py:15-25 | toggling keeps the followed list free of repeats |
| Follow.RemoveKeepsNoDuplicates | icc/user/follow.py:20-21 | removing an entity keeps the list free of repeats |
| Follow.ToggleTwice | icc/user/follow.py:15-25 | following then unfollowing restores the list; unfollowing then following restores it up to order, since the entity moves to the end |
| Follow.RemoveLast | icc/user/follow.py:20-23 | removing an entity just appended restores the list |
| Follow.Follower.constructor | icc/user/follow.py:15-25 | a new follower follows nothing |
| Follow.Follower.FollowEntity | icc/user/follow.py:15-52 | the followed list becomes its toggle on the entity |
| Follow.Follower.FollowUser | icc/user/follow.py:64-74 | following oneself changes nothing; any other user is toggled |
| Follow.Follower.FollowRequest | icc/user/follow.py:77-102 | an approved or rejected request is refused; any other is toggled |
| Follow.Follower.FollowAnnotation | icc/user/follow.py:105-118 | a deactivated annotation or one's own is refused; any other is toggled |
| EditHistory.CurrentCount | icc/admin/edits.py:109-114 | counts the current edits: never more than all the edits, and zero exactly when none is current |
| EditHistory.HeadIndex | icc/models/wiki.py:20-22 | the head found is a current edit with no current edit before it, and none is found exactly when no edit is current |
| EditHistory.CountAppend | icc/models/wiki.py:54-62 | adding an edit adds one current edit exactly when it is current |
| EditHistory.CountUpdate | icc/models/wiki.py:59-62 | rewriting one edit changes the count of current edits by the change of its flag |
| EditHistory.CountRemove | icc/admin/edits.py:116 | deleting an edit removes one current edit exactly when it was current |
| EditHistory.CountTwo | icc/models/mixins.py:95-99 | two different current edits make the count at least two |
| EditHistory.HeadIsOnly | icc/models/mixins.py:95-99 | with exactly one current edit the head is found and is that edit |
| EditHistory.AppendedShape | icc/models/wiki.py:54-65 | a new edit is numbered one past the head, holds its content and is pending unless applied at once; exactly one edit stays current, the new one when applied at once and the old head otherwise; the older edits keep their numbers, content and review flags |
| EditHistory.Previous | icc/models/mixins.py:140-148 | the previous edit is one numbered one lower and not rejected, and it is missing exactly when no such edit exists |
| EditHistory.Renumbered | icc/admin/edits.py:112-114 | the renumbering loop keeps every edit in place and lowers by one exactly the numbers above the deleted edit's |
| EditHistory.DeletedShape | icc/admin/edits.py:108-117 | a deletion removes exactly one edit and keeps exactly one edit current; it fails with `AttributeError` exactly when the current edit has no previous edit; deleting a non-current edit always succeeds |
| EditHistory.RenumberedCount | icc/admin/edits.py:112-114 | renumbering changes no current flag |
| EditHistory.DeletedNonCurrent | icc/admin/edits.py:111-116 | deleting a non-current edit keeps the others in order and lowers by one the numbers above the deleted one |
| EditHistory.DeleteNonCurrentGapless | icc/admin/edits.py:111-116 | deleting a non-current edit keeps a numbering without gaps gapless |
| EditHistory.DeleteCurrentLeavesGap | icc/admin/edits.py:109-122 | deleting the current edit renumbers nothing, although the confirmation text promises it: edits 0, 1 (current) and 2 become 0 and 2 |
| EditHistory.History.constructor | icc/models/wiki.py:42-49 | a new history holds one edit, approved and current |
| EditHistory.History.Add | icc/models/wiki.py:54-65 | the history gains the new edit as `Appended` describes |
| EditHistory.History.Delete | icc/admin/wikis.py:179-193 | the history becomes the result of the deletion, or stays as it was and the failure is reported |
| WikiModel.WikiEditCases | icc/models/wiki.py:54-65 | a wiki edit is numbered one past the current version and holds the body; an authorised editor's edit is approved and becomes current in place of the old one; any other stays pending beside the unchanged current version |
| WikiModel.Wiki.constructor | icc/models/wiki.py:42-49 | a new wiki has exactly one version, numbered 1, current and approved, holding the initial body |
| WikiModel.Wiki.Edit | icc/models/wiki.py:54-65 | the wiki's versions become those of `WikiEdited`, and still exactly one is current |
| WikiModel.Entity | icc/models/wiki.py:38-40 | the entity is the first present back-reference, and there is none, raising `IndexError`, exactly when all are missing |
| Merges.MergeShape | icc/main/annotations.py:291-305 | the merge starts with the first list unchanged, then adds only elements of the second list that the first lacks, each once; it holds exactly the elements of both, and adds no repeat to a list without repeats |
| Merges.MergeOrder | icc/main/annotations.py:291-305 | the added elements keep their order in the second list |
| Merges.Merge | icc/main/annotations.py:291-294 | the loop of the tag merge computes `MergeInto` of the edit's tags and the previous edit's tags |
| Merges.ContextMergedShape | icc/main/annotations.py:296-305 | the context starts with the lines of the edit that begins earlier (the edit itself on a tie) and holds exactly the lines of both edits |
| Merges.EditPageMerges | icc/admin/edits.py:77-90 | the review page's tags and context are the two merges of the edit and its previous edit |
| AdminQueues.EditQueueSort | icc/admin/edits.py:24-36 | the edit queue sorts by a known key: the one asked for when it is known, `voted` otherwise |
| AdminQueues.WikiQueueSort | icc/admin/wikis.py:23-105 | the wiki queue sorts by a known key: the one asked for when it is known, `voted` otherwise, written back into `sort` |
| AdminQueues.QueueSortsIdempotent | icc/admin/wikis.py:23-105 | a key the fallback produced is kept by a second fallback |
| AnnotationRoutes.ProcessedTagsSpec | icc/main/annotations.py:20-37 | `allgood` holds exactly when every name names a known tag and there are at most five; then the tags are the names in order, repeats kept; otherwise they are the known names among them |
| Strings.ScanKnown | icc/main/annotations.py:29-35 | the scan keeps exactly the known names, in order and with repeats, and its flag holds exactly when every name is known |
| Strings.PyIntShowInt | app/routes.py:394-396 | `int()` reads back exactly the integer `str()` rendered |
| Strings.PyIntGrouped | app/routes.py:394-396 | `int()` reads digits grouped by an underscore, as in `1_0`, as the number without the underscore |
| Strings.PyIntSignedGrouped | app/routes.py:394-396 | a sign may precede grouped digits: `-2_5` reads as -25 |
| Strings.PyIntDoubledUnderscore | app/routes.py:394-396 | two underscores in a row make `int()` raise `ValueError` |
| Strings.PyIntTrailingUnderscore | app/routes.py:394-396 | an underscore after the last digit makes `int()` raise `ValueError` |
| Strings.PyIntUnicodeSpace | icc/main/annotations.py:49 | `int()` strips Unicode white space such as the no-break space around the digits |
| AnnotationRoutes.ProcessTags | icc/main/annotations.py:20-37 | the loop over the names computes the tags and the verdict `ProcessedTags` describes |
| AnnotationRoutes.AnnotatePageRange | icc/main/annotations.py:47 | the annotate page shows one line, from `first_line` raised to 1; it fails exactly when `first_line` is not an integer |
| AnnotationRoutes.AnnotateIgnoresLast | icc/main/annotations.py:47 | the `last_line` of the URL has no effect on the lines shown |
| AnnotationRoutes.FormRange | icc/main/annotations.py:62 | the submitted range is ordered and starts at line 1 or later; in-order positive bounds are kept and reversed ones swapped |
| AnnotationRoutes.Reply | icc/main/annotations.py:348-351 | a reply hangs under its parent comment, one level deeper |
| AnnotationRoutes.ThreadDepth | icc/main/annotations.py:348-351 | in a chain of replies under a top-level comment every comment's depth is the number of comments above it |
| AnnotationModel.TagNames | icc/models/annotation.py:64-67 | the tag argument is accepted exactly when it is a tuple of strings, and then gives those strings in order; anything else raises `TypeError` |
| AnnotationModel.Meet | icc/models/annotation.py:69-73 | an annotation is in the intersection exactly when every named tag carries it |
| AnnotationModel.Join | icc/models/annotation.py:103-107 | an annotation is in the union exactly when some named tag carries it |
| AnnotationModel.Intersect | icc/models/annotation.py:42-73 | a malformed argument raises `TypeError`; a result means a non-empty list of names and holds exactly the annotations every one of those tags carries |
| AnnotationModel.Union | icc/models/annotation.py:76-107 | a malformed argument raises `TypeError`; a result means a non-empty list of names and holds exactly the annotations some one of those tags carries |
| AnnotationModel.IntersectWithinUnion | icc/models/annotation.py:42-107 | intersection and union fail on the same arguments, and the intersection lies inside the union |
| AnnotationModel.NewTarget | icc/models/annotation.py:635-638 | an edit's line range is the two given numbers put in order; offsets, body and tags are kept as given |
| AnnotationModel.ReversedSameHash | icc/models/annotation.py:635-642 | an edit built with reversed line numbers has the same content, hence the same hash, as one built in order |
| AnnotationModel.CheckArguments | icc/models/annotation.py:415-448 | the constructor and `edit` raise `TypeError` exactly when there is a positional argument, a keyword argument is `None`, the tags are not a list, or (for `edit`) some tag is not a `Tag` |
| AnnotationModel.EditCases | icc/models/annotation.py:436-466 | an edit equal to the head changes nothing and reports `false`; otherwise a version numbered `HEAD.num + 1` is added, approved and current for the annotator or an editor with the immediate-edit right, and pending behind the unchanged head for anyone else; exactly one edit stays current |
| AnnotationModel.Annotation.constructor | icc/models/annotation.py:427-434 | a new annotation has exactly one edit, number 0, approved and current, holding the ordered target |
| AnnotationModel.Annotation.Edit | icc/models/annotation.py:436-466 | the annotation's history and the reported change are those `Edited` gives, and exactly one edit stays current |
| AnnotationModel.Highlighted | icc/models/annotation.py:648-662 | no lines raise `IndexError`; otherwise the lines keep their number and every line strictly between the first and the last is unchanged |
| AnnotationModel.HighlightedText | icc/models/annotation.py:655-661 | with offsets inside the lines, a one-line edit keeps the text between the offsets, and a longer one keeps the first line from `fc` on and the last line up to `lc` |
| AnnotationModel.GetHl | icc/models/annotation.py:648-662 | the array of line texts becomes the highlighted lines, or stays as it was when there are none and `IndexError` is reported |
| LegacyModels.LegacyAuthorized | icc/models.py:455-457 | an unknown right raises `AttributeError` (the right is `None` when its `min_rep` is read); a known right is decided as in the model package |
| LegacyModels.VoteRefused | icc/models.py:1256-1262 | a vote on an approved or rejected edit, or by its own editor, changes nothing |
| LegacyModels.VoteRepeated | icc/models.py:1263-1268 | a second vote in the same direction withdraws the first: the weight moves back by one, the voter holds no ballot, and the edit stays pending and keeps its current flag |
| LegacyModels.VoteCast | icc/models.py:1263-1272 | a first vote moves the weight by one and a vote against the earlier ballot by two, and then the voter holds one ballot in the new direction |
| LegacyModels.VoteAsWrittenRaises | icc/models.py:1256-1296 | as written, a vote that casts a new ballot raises `NameError` at the unbound `app` with the ballot and weight change already made and nothing approved or rejected, where the intended vote completes; every other vote behaves as intended |
| LegacyModels.VoteThreshold | icc/models.py:1256-1296 | as intended, after a new ballot an up vote approves (and makes current) exactly when the approval margin is reached or the voter holds the immediate-edit right; a down vote rejects likewise; an unknown right raises only when the margin is not reached; the edit is never both approved and rejected |
| LegacyModels.EditRecord.Rollback | icc/models.py:102-104 | the edit loses the ballot and its delta; flags and editor stay |
| LegacyModels.EditRecord.Reject | icc/models.py:106-108 | the edit is rejected and nothing else changes |
| LegacyModels.EditRecord.Approve | icc/models.py:1298-1302 | the edit is approved and current, and the annotation's old head is no longer current |
| LegacyModels.EditRecord.Upvote | icc/models.py:1256-1275 | the edit ends in the state `Voted` gives for an up vote (the intended decision; as written the margin lookup raises `NameError`, see "## Findings"), and the old head loses its current flag exactly when the edit was approved by this vote |
| LegacyModels.EditRecord.SettleUp | icc/models.py:1273-1275 | once the up ballot is in, the intended decision (as written the lookup raises `NameError`, see "## Findings"): the edit is approved by the margin or the immediate-edit right as `Settled` decides, an unknown right throws, and the old head loses its current flag only when this approves the edit |
| LegacyModels.EditRecord.Downvote | icc/models.py:1277-1296 | the edit ends in the state `Voted` gives for a down vote, the intended decision (as written the margin lookup raises `NameError`, see "## Findings") |
| LegacyModels.DownvoteRepDelta | icc/models.py:1142-1146 | a downvote takes the annotator's reputation to its old value plus the default, or to 0 when that would be negative |
| LegacyModels.ScoredAnnotation.Upvote | icc/models.py:1129-1138 | the weight gains the voter's up power and the annotator the upvote default, unclamped, and the ballot records both |
| LegacyModels.ScoredAnnotation.Downvote | icc/models.py:1140-1153 | the weight gains the down power, the annotator's reputation stops at zero, and the ballot records the reputation move actually made |
| LegacyModels.ScoredAnnotation.Rollback | icc/models.py:1155-1163 | the weight loses the ballot's delta, the reputation change is undone stopping at zero, and the ballot is deleted |
| LegacyModels.DownvoteClamp | icc/models.py:1140-1163 | a downvote keeps a non-negative reputation non-negative, and rolling it back restores the reputation |
| LegacyModels.AnnotationRollbackDoubles | icc/models.py:1155-1161 | as written, an annotator at 0 who gets a +5 upvote and then a -2 downvote (the step that brings them to 3) ends at 6 when the upvote is rolled back, where the clamp means 0 |
| OrderedDicts.KeyIndex | processor/processor.py:111 | the place found holds the key and no earlier item does, and no place is found exactly when the key is absent |
| OrderedDicts.LastValue | processor/processor.py:111 | the value an update list gives a key is carried by one of its items with that key, and there is none exactly when no item has the key |
| OrderedDicts.PutSpec | processor/processor.py:111 | `d[k] = v` maps `k` to `v` and every other key as before, keeps the keys already present in their places, appends a new key at the end, and keeps the keys unique |
| OrderedDicts.UniqueLookup | processor/processor.py:111 | with unique keys a lookup finds the one item with the key, and nothing when there is none |
| OrderedDicts.PutAllSpec | processor/processor.py:111 | `{**d, **more}` maps each key of `more` to its last value there and every other key as in `d`, keeps `d`'s keys in their places, and keeps the keys unique |
| ReadIn.TocItems | processor/processor.py:93-101 | one item per heading of the matches file, in file order, each storing the heading's precedence |
| ReadIn.SpecialItems | processor/processor.py:103-109 | one item per special designator, in file order, each storing its enum |
| ReadIn.SyntaxFirst | processor/processor.py:77-111 | the search space tries the five syntax patterns first and in their order, and holds no pattern twice |
| ReadIn.HeadingsBeforeSpecials | processor/processor.py:93-111 | every heading pattern is tried before every special pattern that is not also a heading pattern |
| ReadIn.SearchSpaceActions | processor/processor.py:93-111 | a special pattern does what its last entry says; a heading pattern that is not special does what its last heading entry says |
| ReadIn.OnlyFenceSwitchesHolds | processor/processor.py:77-111 | only the fence pattern switches preformatted mode |
| ReadIn.FirstMatch | processor/processor.py:130-135 | the loop stops at the first pattern the line matches, and finds none exactly when it matches no pattern |
| ReadIn.StepShape | processor/processor.py:116-143 | from a carried nem or em, a line is recorded with the next code of the cycle when it has an odd number of underscores, and the carried code is then nem or em again; either one tuple is added and the mode stays, or none is and the mode switches, the latter exactly at a fence; inside preformatted mode other lines are `pre`, outside it an unmatched line is `text` |
| ReadIn.StepCarries | processor/processor.py:117-143 | after a line the carried code has flipped between nem and em exactly when the line has an odd number of underscores |
| ReadIn.CarriedEmphasis | processor/processor.py:116-147 | after any lines the carried code is em exactly when an odd number of them had an odd number of underscores; `oem` and `cem` are never carried |
| ReadIn.ReadAllLength | processor/processor.py:116-149 | `readin` gives at most one tuple per line |
| ReadIn.OneTuplePerLine | processor/processor.py:116-149 | with no fence in the text and only the fence switching modes, every line gives exactly one tuple and preformatted mode is never entered |
| ReadIn.ReadInOneTuplePerLine | processor/processor.py:25-149 | `readin` on a text without fences gives exactly one tuple per line |
| ReadIn.NoFenceNoSwitch | processor/processor.py:130-135 | a line without a fence never triggers a mode switch |
| ReadIn.InSwitch.constructor | processor/processor.py:71-111 | a new switch holds the search space of the matches file, no lines, preformatted mode off and no emphasis |
| ReadIn.InSwitch.Fire | processor/processor.py:77-109 | the stored lambda appends the tuple its pattern prescribes, or switches preformatted mode for the fence |
| ReadIn.InSwitch.SwitchPre | processor/processor.py:113-114 | only preformatted mode flips |
| ReadIn.InSwitch.Dispatch | processor/processor.py:130-139 | the line is handled by the first pattern it matches, or appended as `text` |
| ReadIn.InSwitch.ProcessLine | processor/processor.py:116-143 | the switch's state after `process_line` is `Step` of its state before |
| ReadIn.ReadInLines | processor/processor.py:145-149 | the lines `readin` returns are those of `ReadAll` over the input |
| ReadOut.TocKeys | processor/processor.py:228-234 | one key per heading of the matches file, in file order: its precedence, with the lambda that records a heading |
| ReadOut.SpecialKeys | processor/processor.py:236-245 | one key per special designator, in file order: its enum, with the lambda that records it under its enum and display |
| ReadOut.OnlyBlankSkips | processor/processor.py:209-247 | in the merged search space the only key whose lambda records nothing is the `blank` name |
| ReadOut.BlankKeyFirst | processor/processor.py:209-247 | the merged search space has unique keys, at least the five syntax keys, tries `blank` first, and keeps it skipping unless a special designator is itself named `blank` |
| ReadOut.TocNums | processor/processor.py:249-252 | every heading precedence has a counter, every counter belongs to a heading, and all start at 0 |
| ReadOut.MaxPrecedence | processor/processor.py:253 | `maxtoc` is the largest heading precedence of the matches file |
| ReadOut.HierarchyDefined | processor/processor.py:266-281 | `hierarchy` succeeds exactly when every level from 1 to `maxtoc` has a counter, and otherwise raises `KeyError` |
| ReadOut.HierarchyLevels | processor/processor.py:266-281 | the attributes `hierarchy` returns are levels between 1 and `maxtoc` in increasing precedence, each carrying its counter and display, and primary exactly when it is the line's own level |
| ReadOut.HierarchyComplete | processor/processor.py:266-281 | every level whose counter is above 0 appears in the hierarchy |
| ReadOut.ResetBelowSpec | processor/processor.py:262-264 | resetting the deeper levels succeeds exactly when each has a counter, sets the counters that do not aggregate to 0, and leaves every other counter and the set of levels as they were |
| ReadOut.TocUpdatedSpec | processor/processor.py:255-264 | `update_toc_nums` succeeds exactly when the heading's level and every deeper level up to `maxtoc` have counters; it adds one to the heading's counter, zeroes the deeper counters that do not aggregate, and changes nothing else |
| ReadOut.HeadingHierarchy | processor/processor.py:255-281 | after a heading of level p, its hierarchy holds level p as the primary attribute numbered one more than before, and no deeper level that does not aggregate |
| ReadOut.FirstKey | processor/processor.py:291-303 | the loop stops at the first key that matches the class, and finds none exactly when none matches |
| ReadOut.OutStepCount | processor/processor.py:283-316 | a line that is not blank advances the line number; a skipping key adds no record, and any other outcome appends one record carrying the line's text and the new number, keeping the earlier records |
| ReadOut.OutStepText | processor/processor.py:304-316 | a line no key matches becomes a text line whose last attribute is `fl` exactly when the previous line was blank, and that enum becomes the previous line; a word class caught by a precedence key raises `KeyError` |
| ReadOut.BlankLineSkipped | processor/processor.py:210 | a blank line under a skipping `blank` key adds nothing, keeps the number and makes the next text line start a paragraph |
| ReadOut.ReadOutNumbers | processor/processor.py:283-320 | after all lines the number is the count of lines that are not blank, and the records are numbered 1.. that count, strictly increasing |
| ReadOut.ReadOutDense | processor/processor.py:283-320 | when only `blank` skips and no other class begins with `blank`, there is exactly one record per number and the k-th record is numbered k+1 |
| ReadOut.ReadOutRecords | processor/processor.py:152-322 | `readout` gives one record per line that is not blank, numbered 1, 2, and so on, when no special designator is named `blank` |
| ReadOut.NotSkipped | processor/processor.py:291-303 | a class not beginning with `blank` is never skipped when only the `blank` key skips |
| ReadOut.OutSwitch.constructor | processor/processor.py:198-253 | a new switch holds the merged search space, `maxtoc`, no records, number 0, an empty previous line and every counter at 0 |
| ReadOut.OutSwitch.HierarchyOf | processor/processor.py:266-281 | the loop computes the hierarchy function, `KeyError` included |
| ReadOut.OutSwitch.UpdateTocNums | processor/processor.py:255-264 | the loop's counters are those of `TocUpdated`, and it fails exactly when that raises |
| ReadOut.OutSwitch.Fire | processor/processor.py:209-245 | the stored lambda's effect is `OutFire`, failing exactly when the hierarchy raises |
| ReadOut.OutSwitch.FindKey | processor/processor.py:291-303 | the loop over the search space finds `FirstKey` |
| ReadOut.OutSwitch.ProcessLine | processor/processor.py:283-316 | the switch's state after `process_line` is `OutStep` of its state before, and it fails exactly when that raises |
| ReadOut.ReadOutLines | processor/processor.py:318-322 | the records the loop returns, or the exception it raises, are those of `ReadOutResult` |
| Emphasis.CodeInjective | icc/models/content.py:30-31 | the four stored codes `nem`, `oem`, `em`, `cem` are distinct, so a stored code names one emphasis |
| Emphasis.EmSwitchChains | processor/processor.py:64-69 | the cycle nem, oem, em, cem hands on the open emphasis: each code expects open at its start what the previous code left open at its end, and four steps return to the start |
| Emphasis.WrapTags | icc/main/routes.py:186-189 | a line is prefixed with `<em>` exactly when an emphasis is open at its start, suffixed with `</em>` exactly when one is open at its end, and its text is otherwise untouched |
| Emphasis.OddSum | processor/processor.py:118-120 | an odd count of underscores over two pieces means exactly one piece has an odd count |
| Emphasis.ToEmsParity | icc/main/routes.py:192-199 | the open state after converting a line flips once per underscore |
| Emphasis.ToEmsNoUnderscore | icc/main/routes.py:192-199 | no underscore is left in the converted text |
| Emphasis.ToEmsPlain | icc/main/routes.py:191-200 | text without underscores is left as it is, and so is the open state |
| Emphasis.ToEmsAppend | icc/main/routes.py:192-199 | the conversion runs left to right: converting two pieces one after the other gives the conversion of their concatenation |
| Emphasis.UnderscoresToTags | icc/main/routes.py:192-199 | the character loop computes `ToEms`: underscores become alternately `<em>` and `</em>` from the given open state, every other character is kept, and the final open state is returned |
| Content.Reverse | icc/models/content.py:31 | the reverse dictionary's keys are exactly the tuple's values |
| Content.ReverseInverts | icc/models/content.py:30-34 | for a tuple without repeats the reverse dictionary maps each value to its own index and each key back to a place holding it |
| Content.EnumMapsInvert | icc/models/content.py:30-34 | `EMPHASIS_REVERSE` and `WRITERS_REVERSE` have exactly the four emphasis codes and the three roles as keys, each mapped to its index |
| Content.PyIndex | icc/models/content.py:419 | Python indexing: an index in range gives that item, a negative one counts from the end, and any other raises `IndexError` |
| Content.LineEmphasis | icc/models/content.py:547-549 | a line's emphasis loads for exactly the ids -4 to 3 and raises otherwise |
| Content.WriterEnum | icc/models/content.py:416-424 | a connection's role loads for exactly the ids -3 to 2 and raises otherwise |
| Content.StoredEnumsLoadBack | icc/models/content.py:30-34 | a code stored through the reverse dictionary loads back as the same code, for emphasis and for roles, and every emphasis code the text processor writes is a key |
| Content.UrlName | icc/models/content.py:110-121 | the url name of a title has no space and the title's length |
| Content.UrlTitle | icc/models/content.py:83-87 | the title `get_by_url` looks for has no underscore and the url's length |
| Content.UrlRoundTrip | icc/models/content.py:83-121 | a title without underscores is the one its url looks up |
| Content.UnderscoreTitleLost | icc/models/content.py:83-121 | a title with an underscore is not the one its url looks up: `a_b` comes back as `a b` |
| Content.EditionFullTitle | icc/models/content.py:200-203 | an edition's title begins with its text's title and goes on after it |
| Content.EditionTitle | icc/models/content.py:206-211 | an edition's own title begins with `Edition #` |
| Content.EditionTitlesDistinguish | icc/models/content.py:200-211 | within one text, equal titles mean both editions are primary or both have the same number, equal edition titles mean the same number and primary mark, and a non-primary title is the text's title, ` - ` and its edition title |
| Content.EditionTitlesDiffer | icc/models/content.py:206-211 | two equal edition titles have the same number and the same primary mark |
| Content.FullTitleParts | icc/models/content.py:200-203 | after the text's title a primary edition has only `*`, any other has ` - Edition #` and its number |
| Content.TitleMarkIsNotNumber | icc/models/content.py:206-211 | a primary edition title never equals a plain one |
| Content.EditionTitleNumber | icc/models/content.py:206-211 | the number can be read back from an edition title after `Edition #`, followed by ` - Primary` exactly for the primary edition |
| Content.CheckSection | icc/models/content.py:171-176 | the only error `_check_section_argument` raises is `TypeError` |
| Content.SectionTuple | icc/models/content.py:171-176 | a route's section is a tuple with one item per number |
| Content.CheckSectionSpec | icc/models/content.py:171-176 | the argument check passes exactly the tuples whose items are all integers (booleans included, the empty tuple too), so every section built from numbers passes and the same numbers in a list do not |
| Content.GetLines | icc/models/content.py:297-303 | `get_lines` raises `IndexError` exactly when no number is given, and otherwise returns only lines of the edition |
| Content.Filter | icc/models/content.py:299-300 | the filter keeps exactly the lines numbered within the inclusive bounds, and none when the bounds are reversed |
| Content.GetLinesRange | icc/models/content.py:297-303 | with numbers given the result is the lines from the first number to the last, both included; only those two numbers matter, and a reversed pair selects nothing |
| Content.FullTitlesDiffer | icc/models/content.py:200-203 | two equal titles of one text's editions are both primary or have the same number |
| Content.FullTitleJoins | icc/models/content.py:200-211 | a non-primary title is the text's title, ` - `, and its edition title |
| InsertLines.LineEnum.constructor | icc/models/content.py:430-441 | a new enum row holds the given enum and display |
| InsertLines.ToJson | processor/processor.py:283-316 | every record the processor writes has an emphasis code the loader knows, and storing it loads back the line's emphasis |
| InsertLines.EnumsDict | inserts/insertlines.py:87-90 | every stored enum is reachable under its own `enum>display` key, the keys are exactly those of the stored enums, and every value is a stored enum |
| InsertLines.AttrKeys | inserts/insertlines.py:99-103 | every attribute's `enum>display` key is among the keys a line names |
| InsertLines.Precedences | inserts/insertlines.py:104-107 | the precedences are exactly those the attributes carry |
| InsertLines.Attribute | inserts/insertlines.py:104-106 | a stored attribute points at the enum object under its key and keeps the record's number, precedence and primary flag |
| InsertLines.AttrsForKeys | inserts/insertlines.py:98-107 | a line's attributes are keyed by exactly the precedences of its records |
| InsertLines.AttrsForLast | inserts/insertlines.py:98-107 | each precedence holds the last record that has it, pointing at that record's enum object |
| InsertLines.AttrsForExtend | inserts/insertlines.py:98-107 | the attributes of a line only depend on the entries of their own keys, so later additions to the dictionary do not change them |
| InsertLines.AttrsForStep | inserts/insertlines.py:99-107 | one more record adds its key and sets its precedence, keeping the attributes before it |
| InsertLines.AttributeEnum | inserts/insertlines.py:99-104 | when no enum name holds `>`, the enum object an attribute gets is one with the attribute's own enum and display |
| InsertLines.EnumKeyInjective | inserts/insertlines.py:89 | when no enum name holds `>`, a key names one enum and display |
| InsertLines.KeyChars | inserts/insertlines.py:89 | a key begins with the enum's characters followed by `>` |
| InsertLines.EnumKeysCollide | inserts/insertlines.py:89 | the enum `a>b` with display `c` and the enum `a` with display `b>c` share a key |
| InsertLines.ProcessAttributes | inserts/insertlines.py:93-108 | the dictionary keeps every entry it had, gains exactly the keys of the line that were missing, each with a new enum under its own key, and the line's attributes are `AttrsFor` over the updated dictionary |
| InsertLines.DictStep | inserts/insertlines.py:100-103 | one turn of the loop keeps every entry and adds the record's key, with its new enum under its own key |
| InsertLines.Session.constructor | inserts/insertlines.py:111-129 | a new session has no rows added |
| InsertLines.Session.Add | inserts/insertlines.py:123 | adding a row appends it to the session |
| InsertLines.KnownPrefix | inserts/insertlines.py:118-122 | the records the loop gets through before `EMPHASIS_REVERSE` raises: all before it have a known code, and the one it stops at does not |
| InsertLines.Row | inserts/insertlines.py:120-122 | a line row keeps the edition, number and text, stores an emphasis id that loads back as the record's code, and has one attribute per precedence |
| InsertLines.Rows | inserts/insertlines.py:118-123 | one row per record |
| InsertLines.PopulateLines | inserts/insertlines.py:111-129 | it returns the number of records, exactly when every code is known, and otherwise raises `KeyError`; the session receives one row per record before the failing one, in order, every stored enum is kept, and the dictionary stays keyed |
| InsertLines.RowsExtend | inserts/insertlines.py:118-123 | the rows already built read the same after the dictionary gains entries, so every line shares its enum objects with the final dictionary |
| InsertLines.RowsStep | inserts/insertlines.py:118-123 | one more insertable record adds its own row after the earlier ones |
| InsertLines.ProcessedLinesAllAdded | inserts/insertlines.py:111-129 | `populate_lines` on the processor's records never reaches the `KeyError`: their count is returned |
| InsertLines.KnownPrefixAll | inserts/insertlines.py:118-122 | records whose codes are all known are all inserted |

## Left out

- The DOM, XHR, the ORM, the session commit, flashes, redirects, `url_for`, `abort`, `login_required` and the authorisation decorators: pages are modelled as records and sequences, replies and query results as parameters, and a route's outcome as a value.
- SHA-1 content hashes: the hash of an edit is modelled as the tuple of the hashed fields, so two edits hash alike when those fields agree; the source hashes the comma-joined rendering of the fields (icc/models/annotation.py:622-625, 639-642), and collisions of that rendered string, such as a body holding a comma, are not modelled.
- Regular expressions: the matches-file patterns of `readin` are matched by the `search` parameter; the fixed syntax patterns and `get_parent`'s `^prefix\d+` are written out as predicates.
- ReadIn.SyntaxFirst: a matches-file pattern whose text equals one of the five syntax patterns compiles, through `re.compile`'s cache, to the very pattern object of the syntax entry and replaces that entry's action; the model keeps matches-file patterns apart from the syntax patterns.
- ReadOut: the special designators' enums are matched as literal prefixes rather than as regular expressions; a heading class that is not an integer raises `KeyError` in `update_toc_nums` and is modelled as that error; the counters are assumed to be numbered from 1 to the deepest precedence, as the matches files number them, and a matches file without headings raises `ValueError` in `max`.
- InsertLines: the dictionary `process_attributes` mutates in place is modelled as a returned map; the ORM relationship cascades and the printing of progress every 1000 lines are left out; `populate_lines` raising `KeyError` is modelled after `process_attributes` has run for that line, as in the source.
- InsertLines.EnumKeyInjective: a `>` inside an enum name lets two different enums share a key (`InsertLines.EnumKeysCollide`); the injectivity is stated only for names without `>`.
- Content: the queries of `get_by_url` and `get_lines` are modelled as filters over sequences of titles and line numbers; `Edition.section` with an empty tuple (an `IndexError`) and the other section queries are not part of this model.
- AnnotationRoutes: `annotate` tests `lines is None`, which a query result never is; the `IndexError` an empty line list raises at `lines[0]` is not modelled, and both bounds are taken from the first line, as in the source.
- Reputation: `User.authorize` (icc/models/user.py:238-250), its `abort`, and `readable_weight` are left out, as formatting and routing.
- LegacyModels: the model's `Edit.__init__` (icc/models.py:1228-1236) is the same construction as icc/models/annotation.py's and is covered by `AnnotationModel.NewTarget`; `WikiEdit.upvote`/`downvote`/`approve` (icc/models.py:601-648) are the same functions as `Edit`'s with the wiki thresholds and the `immediate_wiki_edits` right; as written they raise `NameError` at the same point (icc/models.py:619, 640), as `LegacyModels.VotedAsWritten` models, and in the intended behaviour the wiki thresholds and the right are parameters.
- The vote routes in `icc/main/annotations.py` call `vote.is_up()` although `is_up` is a property, which raises `TypeError`; those routes are outside this model, and `icc/requests/tags.py`, which reads `vote.is_up` correctly, is modelled.
- VoteWidget.ReconciledControls: a plain success without rollback sets `up` whatever the direction, as the script does.
- Follow.ToggleTwice: unfollowing and following again moves it to the end of the list, so the list is restored only as a multiset.
- Strings.PyInt: `int()` also accepts the non-ASCII decimal digits of Unicode (Arabic-Indic, Devanagari and the like); the model reads only `0`-`9`.
- Strings.JsNumber: `Number()` is modelled on integer text only; decimals, exponents, `0x`/`0o`/`0b` literals and `Infinity` give `NaN` in the model. The weight text it reads is always written by the script itself as an integer followed by a space.
- ExpandSelection.SelectionBlock.constructor: a page whose load threw (`Placed` gives `Halted`) is described by `Placed` only; the expand and contract handlers are modelled on fully placed pages.
- Floating point, dates, timestamps, pagination and the search index are left out; weights and reputations are integers.
- A handler that throws keeps the changes it made before the exception (`Threw`), as a browser does; nothing is rolled back.
- `app/routes.py:18` imports `is_filled` from `app/funky.py`, which does not define it, so the first version's routes module fails to import at all; the model gives `read` the `is_filled` of `icc/funky.py:14-26`, the only definition in the sources.
- LegacyRoutes.FormBounds: reads its bounds as text with `int`, so it has an `Err` case; in the route the fields are `InputRequired` `IntegerField`s (app/forms.py:46-49), whose data is already a number once the form validates, so that case never arises there.
- VoteWidget.LoginNextRecovers: proves that JavaScript's `unescape` reads the replay URL back; the login route decodes `next` with Werkzeug's query parser, which is not part of this model. That parser turns a `+`, which `escape` leaves as it is, into a space, does not decode `%uXXXX`, and reads `%XX` bytes as UTF-8, so a replay URL holding `+` or a character above `\x7f` does not reach the login route unchanged.
- The URL `submit` builds (icc/main/templates/includes/js/_highlight.js:35) carries a `<toc>` segment that neither annotate route of icc/main/annotations.py:42-45 has, so no route in the sources serves it; Highlight.SubmitUrlParses reads the URL back as the script builds it.
- AnnotationDisplay.Shown: `document.getElementById(aid)` is modelled as a lookup among the annotation templates only; the model takes it that no block of `text-content` carries an id of the form `a<n>` (clones carry `a<n>-js`), since the markup that gives the line blocks their ids is not part of this model.

## Findings

| source | as written | input that shows it | evidently intended | confidence | as-written member | corrected member |
|---|---|---|---|---|---|---|
| icc/main/routes.py:217-218 | with no `section` argument the read view calls `edition.deepest_precedence()`, but `deepest_precedence` is a property, so the int it returns is called and `TypeError` is raised | a request for the page of an edition that has a primary heading line, without `section` | a section of 1s as long as the deepest precedence | not executed | ReadRoute.NoSectionFails | ReadRoute.Section |
| app/routes.py:384 | `read` hands the line form's data to `is_filled`, but the fields are `IntegerField`s (app/forms.py:38-42), whose data is a number or `None`, and `is_filled` calls `data.strip()` first, so every submitted line form raises `AttributeError` | first line 3, last line 7 | a redirect to the annotate page for lines 3 to 7 | not executed | LegacyRoutes.ReadAsWrittenRaises | LegacyRoutes.ReadRange |
| icc/models.py:1273 | `Edit.upvote` and `downvote` (and `WikiEdit`'s at lines 619 and 640) read the margin from `app.config`, but the module imports only `db` and `login` from `icc` and never binds `app`, so after the new ballot is added and the weight changed the lookup raises `NameError` | a pending edit, a voter who is not its editor and holds no ballot on it, an up vote | approve once the weight reaches `VOTES_FOR_EDIT_APPROVAL` or the voter holds `immediate_edits` | not executed | LegacyModels.VoteAsWrittenRaises | LegacyModels.VoteThreshold |
| icc/models/user.py:180-184 | when undoing the change would take the reputation below zero, `delta = -self.reputation` and `self.reputation -= delta` doubles the reputation | reputation 3, change of +5 rolled back: 6 | the reputation stops at 0 | not executed | Reputation.RollbackCounterexample | Reputation.User.RollbackRepchange |
| icc/models.py:1157-1161 | `Annotation.rollback` clamps the annotator's reputation the same way and doubles it | annotator at 0, +5 upvote, -2 downvote (to 3), upvote rolled back: 6 | the reputation stops at 0 | not executed | LegacyModels.AnnotationRollbackDoubles | LegacyModels.ScoredAnnotation.Rollback |

