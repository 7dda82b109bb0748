/**
 * The sort keys of the two review queues of the admin blueprint: the queue
 * of annotation edits and the queue of wiki edits. An unknown key falls
 * back to `voted` (the wiki queue also writes `voted` back into `sort`,
 * which the page then shows).
 */
module AdminQueues {

  const EditSorts: set<string> := {"voted", "annotation", "number", "editor", "time"}

  const WikiSorts: set<string> := {"voted", "voted_invert", "entity", "entity_invert", "num", "num_invert",
                                   "editor", "editor_invert", "time", "time_invert", "reason", "reason_invert"}

  /** The key `edit_review_queue` sorts by. */
  function EditQueueSort(sort: string): (key: string)
    ensures key in EditSorts
    ensures sort in EditSorts <==> key == sort
    ensures sort !in EditSorts ==> key == "voted"
  {
    if sort in EditSorts then sort else "voted"
  }

  /** The key `wiki_edit_review_queue` sorts by and reports: the branch
   *  chain tests the keys one by one, and the final `else` is the `voted`
   *  query. */
  function WikiQueueSort(sort: string): (key: string)
    ensures key in WikiSorts
    ensures sort in WikiSorts <==> key == sort
    ensures sort !in WikiSorts ==> key == "voted"
  {
    if sort == "voted" then sort
    else if sort == "voted_invert" then sort
    else if sort == "entity" then sort
    else if sort == "entity_invert" then sort
    else if sort == "num" then sort
    else if sort == "num_invert" then sort
    else if sort == "editor" then sort
    else if sort == "editor_invert" then sort
    else if sort == "time" then sort
    else if sort == "time_invert" then sort
    else if sort == "reason" then sort
    else if sort == "reason_invert" then sort
    else "voted"
  }

  /** Falling back twice changes nothing more. */
  lemma QueueSortsIdempotent(sort: string)
    ensures EditQueueSort(EditQueueSort(sort)) == EditQueueSort(sort)
    ensures WikiQueueSort(WikiQueueSort(sort)) == WikiQueueSort(sort)
  {
  }
}
