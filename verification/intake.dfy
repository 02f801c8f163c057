/**
  The submission hook: when Action Scheduler is available and the submitted
  form is the target form (its id or its name loosely equal to the
  configured target), the raw form data is queued as one pending action for
  the relay, unless an identical pending action (same hook, same arguments)
  is already queued. The queue is the store of pending actions; the clock is
  the parameter `now`.
 */
module Intake {
  import opened Options
  import opened Strings
  import opened Values

  /** The hook the relay listens on. */
  const RelayHook := "mfla_process_scheduled_submission_action"

  /** The action arguments: array('form_submission_data' => $form_data). */
  datatype Args = Args(formSubmissionData: seq<Field>)

  /** A pending action: its hook, its arguments and when it is due. */
  datatype Action = Action(hook: string, args: Args, due: int)

  /** The submitted form is the configured target: the constant is defined,
      not null, and loosely equal to the form id or to the form name. */
  predicate Targets(target: Option<RawValue>, formId: RawValue, formName: RawValue)
    // it does not matter on which side of != the target is written
    ensures Targets(target, formId, formName) <==>
              target.Some? && target.value != Null
              && (LooseEquals(formId, target.value) || LooseEquals(formName, target.value))
  {
    target.Some? && target.value != Null
    && (LooseEquals(target.value, formId) || LooseEquals(target.value, formName))
  }

  /** as_get_scheduled_actions(hook, args, pending) is non-empty. */
  function IsPending(pending: seq<Action>, hook: string, args: Args): (r: bool)
    ensures r <==> exists i :: 0 <= i < |pending| && pending[i].hook == hook && pending[i].args == args
  {
    if pending == [] then false
    else (pending[0].hook == hook && pending[0].args == args) || IsPending(pending[1..], hook, args)
  }

  /** The pending actions after one submission. */
  function AfterSubmission(pending: seq<Action>, schedulerLoaded: bool, target: Option<RawValue>,
                           formId: RawValue, formName: RawValue, formData: seq<Field>, now: int): (r: seq<Action>)
    // the queue only grows, by at most one action: the relay's, for this data, due now
    ensures pending <= r && |r| <= |pending| + 1
    ensures |r| > |pending| ==> r[|pending|] == Action(RelayHook, Args(formData), now)
  {
    if !schedulerLoaded || !Targets(target, formId, formName) then pending
    else if IsPending(pending, RelayHook, Args(formData)) then pending
    else pending + [Action(RelayHook, Args(formData), now)]
  }

  /** No two pending actions share hook and arguments. */
  predicate NoDuplicates(pending: seq<Action>) {
    forall i, j :: 0 <= i < j < |pending| ==>
      pending[i].hook != pending[j].hook || pending[i].args != pending[j].args
  }

  class ActionQueue {
    var pending: seq<Action>

    constructor ()
      ensures pending == []
    {
      pending := [];
    }

    /** mfla_handle_metform_submission. */
    method HandleSubmission(schedulerLoaded: bool, target: Option<RawValue>, formId: RawValue,
                            formName: RawValue, formData: seq<Field>, now: int)
      modifies this
      ensures pending == AfterSubmission(old(pending), schedulerLoaded, target, formId, formName, formData, now)
      ensures NoDuplicates(old(pending)) ==> NoDuplicates(pending)
    {
      if !schedulerLoaded {
        return;
      }
      // the target must be defined, and equal to the id or to the name
      if !Targets(target, formId, formName) {
        return;
      }
      var args := Args(formData);
      if !IsPending(pending, RelayHook, args) {
        if NoDuplicates(pending) {
          AppendKeepsNoDuplicates(pending, Action(RelayHook, args, now));
        }
        pending := pending + [Action(RelayHook, args, now)];
      }
    }
  }

  // ---------------------------------------------------------------------
  // Properties

  /** Appending an action that is not yet pending keeps the queue free of
      duplicates. */
  lemma AppendKeepsNoDuplicates(pending: seq<Action>, a: Action)
    requires NoDuplicates(pending) && !IsPending(pending, a.hook, a.args)
    ensures NoDuplicates(pending + [a])
  {
    var q := pending + [a];
    forall i, j | 0 <= i < j < |q| ensures q[i].hook != q[j].hook || q[i].args != q[j].args {
      if j == |pending| {
        assert q[i] == pending[i];
      } else {
        assert q[i] == pending[i] && q[j] == pending[j];
      }
    }
  }

  /** Nothing is queued when the scheduler is missing or the form is not the
      target. */
  lemma NoActionUnlessTargeted(pending: seq<Action>, loaded: bool, target: Option<RawValue>,
                               formId: RawValue, formName: RawValue, formData: seq<Field>, now: int)
    requires !loaded || !Targets(target, formId, formName)
    ensures AfterSubmission(pending, loaded, target, formId, formName, formData, now) == pending
  {
  }

  /** After a submission of the target form, exactly one more action is
      pending for its data if none was, and the queue is unchanged if one
      was; either way the data is then pending. */
  lemma TargetedIsPending(pending: seq<Action>, target: Option<RawValue>,
                          formId: RawValue, formName: RawValue, formData: seq<Field>, now: int)
    requires Targets(target, formId, formName)
    ensures var q := AfterSubmission(pending, true, target, formId, formName, formData, now);
      IsPending(q, RelayHook, Args(formData))
      && (IsPending(pending, RelayHook, Args(formData)) ==> q == pending)
      && (!IsPending(pending, RelayHook, Args(formData)) ==> |q| == |pending| + 1 && q[..|pending|] == pending)
  {
    var q := AfterSubmission(pending, true, target, formId, formName, formData, now);
    if !IsPending(pending, RelayHook, Args(formData)) {
      assert q[|pending|] == Action(RelayHook, Args(formData), now);
    }
  }

  /** Submitting the same data again, at any time, changes nothing more. */
  lemma SubmissionIdempotent(pending: seq<Action>, loaded: bool, target: Option<RawValue>,
                             formId: RawValue, formName: RawValue, formData: seq<Field>,
                             now: int, later: int)
    ensures var q := AfterSubmission(pending, loaded, target, formId, formName, formData, now);
      AfterSubmission(q, loaded, target, formId, formName, formData, later) == q
  {
    if loaded && Targets(target, formId, formName) {
      TargetedIsPending(pending, target, formId, formName, formData, now);
    }
  }

  /** A duplicate-free queue stays duplicate-free. */
  lemma SubmissionKeepsNoDuplicates(pending: seq<Action>, loaded: bool, target: Option<RawValue>,
                                    formId: RawValue, formName: RawValue, formData: seq<Field>, now: int)
    requires NoDuplicates(pending)
    ensures NoDuplicates(AfterSubmission(pending, loaded, target, formId, formName, formData, now))
  {
    if loaded && Targets(target, formId, formName) && !IsPending(pending, RelayHook, Args(formData)) {
      AppendKeepsNoDuplicates(pending, Action(RelayHook, Args(formData), now));
    }
  }

  /** A target configured as the id's text matches the integer form id, and
      an integer target matches the id's text passed as form id. */
  lemma TargetIdAsText(i: int, formName: RawValue)
    ensures Targets(Some(Str(IntToString(i))), Int(i), formName)
    ensures Targets(Some(Int(i)), Str(IntToString(i)), formName)
  {
    IntEqualsItsText(i);
  }
}
