/** The completion dialog: its form state, the gate on the submit button, the payload
    it reports and the reset that follows. */
module CompleteModal {
  import opened Common
  import opened Text
  import opened WorkOrders

  /** The dialog's fields. `timeSpent` is whatever number the input holds. */
  datatype FormState = FormState(
    completionNotes: string,
    timeSpent: real,
    partsUsed: string,
    followUpNeeded: bool,
    fileNames: seq<string>)

  /** The state the dialog is created with. */
  const InitialState: FormState := FormState("", 1.0, "", false, [])

  /** The state `resetForm` writes, field by field. */
  function ResetForm(s: FormState): (r: FormState)
    ensures r.completionNotes == "" && r.timeSpent == 1.0 && r.partsUsed == ""
    ensures !r.followUpNeeded && r.fileNames == []
  {
    s.(completionNotes := "", timeSpent := 1.0, partsUsed := "", followUpNeeded := false,
       fileNames := [])
  }

  /** Resetting brings back exactly the state the dialog was created with, from any state. */
  lemma ResetIsInitial(s: FormState)
    ensures ResetForm(s) == InitialState
    ensures ResetForm(ResetForm(s)) == ResetForm(s)
  {
  }

  /** The "Mark as Complete" button is enabled exactly when the notes are not the empty
      string (the notes are not trimmed). */
  predicate SubmitEnabled(s: FormState)
  {
    s.completionNotes != ""
  }

  /** Notes made only of whitespace are accepted. */
  lemma BlankNotesAccepted(s: FormState)
    requires |s.completionNotes| > 0 && AllSpace(s.completionNotes)
    ensures SubmitEnabled(s)
  {
  }

  /** Pressing the button: nothing without a work order (the dialog is not rendered) or
      while the button is disabled; otherwise `onComplete` receives the order's id and the
      four current field values, and the form is reset. */
  function Press(workOrder: Option<WorkOrder>, s: FormState): (r: (Option<(string, CompletionData)>, FormState))
    ensures r.0.Some? <==> workOrder.Some? && s.completionNotes != ""
    ensures r.0.None? ==> r.1 == s
    ensures r.0.Some? ==>
              && r.0.value.0 == workOrder.value.id
              && r.0.value.1.completionNotes == s.completionNotes
              && r.0.value.1.timeSpent == s.timeSpent
              && r.0.value.1.partsUsed == s.partsUsed
              && r.0.value.1.followUpNeeded == s.followUpNeeded
              && r.1 == InitialState
  {
    if workOrder.None? || !SubmitEnabled(s) then (None, s)
    else
      (Some((workOrder.value.id,
             CompletionData(s.completionNotes, s.timeSpent, s.partsUsed, s.followUpNeeded))),
       ResetForm(s))
  }

  /** From the dialog to the list: completing a listed order with the follow-up box ticked
      grows the list by one order whose description ends with the notes typed in. */
  lemma DialogFollowUpCarriesNotes(orders: seq<WorkOrder>, k: nat, s: FormState,
                                   today: string, inAWeek: string)
    requires k < |orders| && s.completionNotes != "" && s.followUpNeeded
    ensures var (payload, _) := Press(Some(orders[k]), s);
            payload.Some?
            && var r := CompleteWorkOrder(orders, payload.value.0, payload.value.1, today, inAWeek);
            && |r| == |orders| + 1
            && r[..|orders|] == MarkCompleted(orders, orders[k].id, today)
            && r[k].status == Completed
            && |s.completionNotes| <= |r[|orders|].description|
            && r[|orders|].description[|r[|orders|].description| - |s.completionNotes|..]
               == s.completionNotes
  {
    var (payload, _) := Press(Some(orders[k]), s);
    CompleteWorkOrderEffect(orders, payload.value.0, payload.value.1, today, inAWeek);
    CompleteWorkOrderFollowUp(orders, payload.value.0, payload.value.1, today, inAWeek);
  }
}
