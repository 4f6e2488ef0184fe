/** The task list and "proof of activity" dialog shared by the suggested-task
    card and the daily progress tracker: both keep a list of task rows, open a
    dialog for an uncompleted row, send a description (and optionally an
    uploaded image) to the image-validation service, and mark the selected row
    completed when the service judges the proof valid. */
module TaskCompletion {
  import opened Common
  import opened Text

  /** A task row. `X` is what a component adds to the catalog data: nothing
      for the suggested tasks, the XP reward for the progress tracker. */
  datatype Task<X> = Task(id: int, name: string, icon: string, extra: X, completed: bool)

  /** The row with `completed` set. */
  function Completed<X>(t: Task<X>): Task<X>
  {
    t.(completed := true)
  }

  /** `currentTasks.map(t => t.id === id ? { ...t, completed: true } : t)` */
  function MarkCompleted<X>(tasks: seq<Task<X>>, id: int): seq<Task<X>>
  {
    if |tasks| == 0 then []
    else [if tasks[0].id == id then Completed(tasks[0]) else tasks[0]]
         + MarkCompleted(tasks[1..], id)
  }

  /** Marking by id keeps the list length; a row with the id becomes the same
      row with `completed` set, and every other row is left exactly as it was. */
  lemma {:induction false} MarkCompletedOnlyTarget<X>(tasks: seq<Task<X>>, id: int)
    ensures |MarkCompleted(tasks, id)| == |tasks|
    ensures forall i :: 0 <= i < |tasks| && tasks[i].id != id ==>
              MarkCompleted(tasks, id)[i] == tasks[i]
    ensures forall i :: 0 <= i < |tasks| && tasks[i].id == id ==>
              MarkCompleted(tasks, id)[i] == Completed(tasks[i])
  {
    if |tasks| > 0 {
      MarkCompletedOnlyTarget(tasks[1..], id);
      var r := MarkCompleted(tasks, id);
      forall i | 0 <= i < |tasks|
        ensures r[i] == if tasks[i].id == id then Completed(tasks[i]) else tasks[i]
      {
        if i > 0 {
          assert r[i] == MarkCompleted(tasks[1..], id)[i - 1];
          assert tasks[i] == tasks[1..][i - 1];
        }
      }
    }
  }

  /** No row ever goes from completed back to uncompleted. */
  lemma MarkCompletedMonotone<X>(tasks: seq<Task<X>>, id: int)
    ensures |MarkCompleted(tasks, id)| == |tasks|
    ensures forall i :: 0 <= i < |tasks| && tasks[i].completed ==>
              MarkCompleted(tasks, id)[i].completed
  {
    MarkCompletedOnlyTarget(tasks, id);
  }

  /** Marking the same id twice is the same as marking it once. */
  lemma {:induction false} MarkCompletedIdempotent<X>(tasks: seq<Task<X>>, id: int)
    ensures MarkCompleted(MarkCompleted(tasks, id), id) == MarkCompleted(tasks, id)
  {
    if |tasks| > 0 {
      MarkCompletedIdempotent(tasks[1..], id);
    }
  }

  /** The order in which two tasks are completed does not matter. */
  lemma {:induction false} MarkCompletedCommute<X>(tasks: seq<Task<X>>, a: int, b: int)
    ensures MarkCompleted(MarkCompleted(tasks, a), b) == MarkCompleted(MarkCompleted(tasks, b), a)
  {
    if |tasks| > 0 {
      MarkCompletedCommute(tasks[1..], a, b);
    }
  }

  /** `tasks.filter(t => t.completed).length` */
  function CompletedCount<X>(tasks: seq<Task<X>>): (n: nat)
    ensures n <= |tasks|
  {
    if |tasks| == 0 then 0
    else (if tasks[0].completed then 1 else 0) + CompletedCount(tasks[1..])
  }

  /** Every row counts as completed exactly when the count reaches the length. */
  lemma {:induction false} CompletedCountFull<X>(tasks: seq<Task<X>>)
    ensures CompletedCount(tasks) == |tasks| <==> forall i :: 0 <= i < |tasks| ==> tasks[i].completed
  {
    if |tasks| > 0 {
      CompletedCountFull(tasks[1..]);
      if forall i :: 0 <= i < |tasks[1..]| ==> tasks[1..][i].completed {
        if tasks[0].completed {
          forall i | 0 <= i < |tasks| ensures tasks[i].completed {
            if i > 0 { assert tasks[i] == tasks[1..][i - 1]; }
          }
        }
      } else {
        var j :| 0 <= j < |tasks[1..]| && !tasks[1..][j].completed;
        assert !tasks[j + 1].completed;
      }
    }
  }

  /** The count is zero exactly when no row is completed. */
  lemma {:induction false} CompletedCountZero<X>(tasks: seq<Task<X>>)
    ensures CompletedCount(tasks) == 0 <==> forall i :: 0 <= i < |tasks| ==> !tasks[i].completed
  {
    if |tasks| > 0 {
      CompletedCountZero(tasks[1..]);
      if forall i :: 0 <= i < |tasks[1..]| ==> !tasks[1..][i].completed {
        if !tasks[0].completed {
          forall i | 0 <= i < |tasks| ensures !tasks[i].completed {
            if i > 0 { assert tasks[i] == tasks[1..][i - 1]; }
          }
        }
      } else {
        var j :| 0 <= j < |tasks[1..]| && tasks[1..][j].completed;
        assert tasks[j + 1].completed;
      }
    }
  }

  /** Number of uncompleted rows carrying `id`. */
  function PendingWithId<X>(tasks: seq<Task<X>>, id: int): nat
  {
    if |tasks| == 0 then 0
    else (if tasks[0].id == id && !tasks[0].completed then 1 else 0) + PendingWithId(tasks[1..], id)
  }

  /** Marking by id raises the completed count by exactly the number of
      uncompleted rows with that id, so the count never decreases. */
  lemma {:induction false} MarkCompletedCount<X>(tasks: seq<Task<X>>, id: int)
    ensures CompletedCount(MarkCompleted(tasks, id)) == CompletedCount(tasks) + PendingWithId(tasks, id)
    ensures CompletedCount(MarkCompleted(tasks, id)) >= CompletedCount(tasks)
  {
    if |tasks| > 0 {
      MarkCompletedCount(tasks[1..], id);
    }
  }

  // ---------------------------------------------------------------------
  // The proof-of-activity dialog

  /** `ProcessWellnessImageOutput`: the image shown back, whether the service
      accepted it as proof, and its explanation. */
  datatype Verdict = Verdict(imageUrl: string, isValid: bool, feedback: string)

  /** The request sent to the image service: the activity description and,
      when a file was uploaded, its data URI. */
  datatype ProofRequest = ProofRequest(imageDescription: string, imageDataUri: Option<string>)

  /** The component state around one task list. `upload` is the picked file,
      already read into its data URI, or `Failed` when the browser cannot read it. */
  datatype Dialog<X> = Dialog(
    tasks: seq<Task<X>>,
    open: bool,
    selected: Option<Task<X>>,
    description: string,
    upload: Option<Outcome<string>>,
    result: Option<Verdict>,
    error: Option<string>)

  const ReadError := "Failed to read image file."
  const ValidateError := "Failed to validate image. Please try again."
  const GenerateError := "Failed to generate image. Please try again."

  /** The dialog closed, nothing selected, around a freshly seeded list. */
  function Closed<X>(tasks: seq<Task<X>>): Dialog<X>
  {
    Dialog(tasks, false, None, [], None, None, None)
  }

  /** Pressing the "Complete" button of row `i`. The button is rendered only
      for uncompleted rows; pressing it selects the row and resets the form. */
  function ClickComplete<X>(d: Dialog<X>, i: int): (r: Option<Dialog<X>>)
    ensures r.Some? <==> 0 <= i < |d.tasks| && !d.tasks[i].completed
    ensures r.Some? ==> r.value.tasks == d.tasks && r.value.open
    ensures r.Some? ==> r.value.selected == Some(d.tasks[i]) && !r.value.selected.value.completed
    ensures r.Some? ==> r.value.description == [] && r.value.upload.None?
    ensures r.Some? ==> r.value.result.None? && r.value.error.None?
  {
    if 0 <= i < |d.tasks| && !d.tasks[i].completed then
      Some(d.(open := true, selected := Some(d.tasks[i]), description := [],
              upload := None, result := None, error := None))
    else None
  }

  /** `closeDialog` */
  function CloseDialog<X>(d: Dialog<X>): (r: Dialog<X>)
    ensures r.tasks == d.tasks && !r.open && r.selected.None?
    ensures r.description == d.description && r.upload == d.upload
    ensures r.result == d.result && r.error == d.error
  {
    d.(open := false, selected := None)
  }

  /** The request the submit handler sends for the selected task: the typed
      description, or the task name when the description is empty. */
  function RequestFor<X>(d: Dialog<X>, t: Task<X>, dataUri: Option<string>): ProofRequest
  {
    ProofRequest(OrElse(d.description, t.name), dataUri)
  }

  /** One submit of the dialog form (`handleImageProcessing`), as a single step:
      `validate` is the image service, which returns a verdict or throws. The
      second component is the request that was sent, if any. */
  function Submit<X>(d: Dialog<X>, validate: ProofRequest -> Outcome<Verdict>): (r: (Dialog<X>, Option<ProofRequest>))
    // Nothing selected: the handler returns before doing anything.
    ensures d.selected.None? ==> r == (d, None)
    // A request is sent unless nothing is selected or the file could not be read.
    ensures r.1.Some? <==> d.selected.Some? && !(d.upload.Some? && d.upload.value.Failed?)
    ensures r.1.Some? ==> r.1.value.imageDescription == OrElse(d.description, d.selected.value.name)
    // The image sent is the uploaded file's data URI, and only when there is one.
    ensures r.1.Some? ==> r.1.value.imageDataUri == if d.upload.Some? then Some(d.upload.value.value) else None
    // The list changes only through a valid verdict, and then only by marking the selected id.
    ensures r.0.tasks == d.tasks
            || (d.selected.Some? && r.0.result.Some? && r.0.result.value.isValid
                && r.0.tasks == MarkCompleted(d.tasks, d.selected.value.id))
    ensures r.0.result.Some? && r.0.result.value.isValid && d.selected.Some? ==>
              r.0.tasks == MarkCompleted(d.tasks, d.selected.value.id)
    // An error leaves the list as it was and shows no verdict.
    ensures d.selected.Some? && r.0.error.Some? ==> r.0.tasks == d.tasks && r.0.result.None?
    ensures d.selected.Some? ==> (r.0.error.Some? <==> r.0.result.None?)
    // An unreadable file: the read error is shown and the list is kept.
    ensures d.selected.Some? && r.1.None? ==>
              r.0.error == Some(ReadError) && r.0.result.None? && r.0.tasks == d.tasks
    // A sent request: the form shows what the service answered.
    ensures d.selected.Some? && r.1.Some? && validate(r.1.value).Ok? ==>
              && r.0.result == Some(validate(r.1.value).value) && r.0.error.None?
              && r.0.tasks == if validate(r.1.value).value.isValid
                              then MarkCompleted(d.tasks, d.selected.value.id) else d.tasks
    ensures d.selected.Some? && r.1.Some? && validate(r.1.value).Failed? ==>
              && r.0.result.None? && r.0.tasks == d.tasks
              && r.0.error == Some(if d.upload.Some? then ValidateError else GenerateError)
    // The form itself is left as it was.
    ensures r.0.open == d.open && r.0.selected == d.selected
    ensures r.0.description == d.description && r.0.upload == d.upload
  {
    match d.selected
    case None => (d, None)
    case Some(t) =>
      match d.upload
      case Some(Failed(_)) =>
        (d.(result := None, error := Some(ReadError)), None)
      case Some(Ok(uri)) =>
        var req := RequestFor(d, t, Some(uri));
        (Settle(d, t, validate(req), ValidateError), Some(req))
      case None =>
        var req := RequestFor(d, t, None);
        (Settle(d, t, validate(req), GenerateError), Some(req))
  }

  /** The `try`/`catch` around the awaited service call. */
  function Settle<X>(d: Dialog<X>, t: Task<X>, outcome: Outcome<Verdict>, errorText: string): Dialog<X>
  {
    match outcome
    case Ok(v) =>
      d.(result := Some(v), error := None,
         tasks := if v.isValid then MarkCompleted(d.tasks, t.id) else d.tasks)
    case Failed(_) =>
      d.(result := None, error := Some(errorText))
  }

  /** Whatever the service answers, a submit never lowers the completed count
      nor un-completes a row. */
  lemma SubmitNeverUncompletes<X>(d: Dialog<X>, validate: ProofRequest -> Outcome<Verdict>)
    ensures |Submit(d, validate).0.tasks| == |d.tasks|
    ensures forall i :: 0 <= i < |d.tasks| && d.tasks[i].completed ==> Submit(d, validate).0.tasks[i].completed
    ensures CompletedCount(Submit(d, validate).0.tasks) >= CompletedCount(d.tasks)
  {
    if d.selected.Some? {
      MarkCompletedMonotone(d.tasks, d.selected.value.id);
      MarkCompletedCount(d.tasks, d.selected.value.id);
    }
  }
}
