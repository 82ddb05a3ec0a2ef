/** The access-code panel (frontend/src/components/CodeInput.jsx). A
    submission is split into the step before the request and the step when
    it settles; the two delayed callbacks the panel schedules are returned as
    values and fired by separate steps. */
module CodeEntry {
  import opened Wrappers
  import opened Text
  import opened Wire

  /** A verification request either answers or throws with a message. */
  datatype VerifyOutcome = Answered(reply: VerifyReply) | Threw(errorMessage: string)

  /** The callback a settled request schedules, if any. */
  datatype Scheduled = NothingScheduled | NotifySuccess(reply: VerifyReply) | ClearError

  class CodePanel {
    var floorId: int
    var code: string
    var isVerifying: bool
    var error: Option<string>
    var success: bool

    /** While a request is in flight nothing is shown as solved or failed,
        and a solved panel shows no error. */
    predicate Valid()
      reads this
    {
      (isVerifying ==> error.None? && !success) && (success ==> error.None?)
    }

    /** The text box and the submit button are disabled. */
    predicate Locked()
      reads this
    {
      isVerifying || success
    }

    constructor(floorId: int)
      ensures this.floorId == floorId && code == "" && !isVerifying && error.None? && !success
      ensures Valid()
    {
      this.floorId := floorId;
      code := "";
      isVerifying := false;
      error := None;
      success := false;
    }

    /** The effect keyed on the floor id: a new floor clears the code, the
        error and the solved mark, but not an in-flight request. */
    method ShowFloor(newFloorId: int)
      modifies this
      ensures floorId == newFloorId && isVerifying == old(isVerifying)
      ensures newFloorId != old(floorId) ==> code == "" && error.None? && !success
      ensures newFloorId == old(floorId) ==> (code == old(code) && error == old(error) && success == old(success))
      ensures old(Valid()) ==> Valid()
    {
      if newFloorId != floorId {
        code := "";
        error := None;
        success := false;
      }
      floorId := newFloorId;
    }

    /** Typing: the text is stored upper-cased, unless the box is disabled. */
    method Type(text: string)
      modifies this
      ensures old(Locked()) ==> code == old(code)
      ensures !old(Locked()) ==> code == Upper(text)
      ensures forall i :: 0 <= i < |code| && !old(Locked()) ==> !('a' <= code[i] <= 'z')
      ensures floorId == old(floorId) && isVerifying == old(isVerifying) && error == old(error) && success == old(success)
    {
      if !Locked() {
        code := Upper(text);
      }
    }

    /** The synchronous half of `handleSubmit`. Nothing happens for a blank
        code, an in-flight request or a solved panel; otherwise the trimmed
        code is sent for the panel's floor. */
    method BeginSubmit() returns (request: Option<(string, int)>)
      modifies this
      ensures request.None? <==> JsTrim(old(code)) == [] || old(isVerifying) || old(success)
      ensures request.Some? ==> (request.value == (JsTrim(old(code)), old(floorId)) && isVerifying && error.None?)
      ensures request.None? ==> (isVerifying == old(isVerifying) && error == old(error))
      ensures floorId == old(floorId) && code == old(code) && success == old(success)
      ensures old(Valid()) ==> Valid()
    {
      var trimmed := JsTrim(code);
      if trimmed == [] || isVerifying || success {
        return None;
      }
      isVerifying := true;
      error := None;
      request := Some((trimmed, floorId));
    }

    /** The asynchronous half of `handleSubmit`. A correct code marks the
        panel solved and schedules the page's success callback with the reply;
        a wrong one shows the server's message and schedules its removal; a
        thrown error shows its message with nothing scheduled. */
    method FinishSubmit(outcome: VerifyOutcome) returns (next: Scheduled)
      requires isVerifying
      modifies this
      ensures outcome.Answered? && outcome.reply.correct ==> (success && next == NotifySuccess(outcome.reply) && error == old(error))
      ensures outcome.Answered? && !outcome.reply.correct ==> (error == Some(outcome.reply.message) && next == ClearError && success == old(success))
      ensures outcome.Threw? ==> (error == Some(outcome.errorMessage) && next == NothingScheduled && success == old(success))
      ensures !isVerifying
      ensures floorId == old(floorId) && code == old(code)
      ensures old(Valid()) ==> Valid()
    {
      match outcome {
        case Answered(reply) =>
          if reply.correct {
            success := true;
            next := NotifySuccess(reply);
          } else {
            error := Some(reply.message);
            next := ClearError;
          }
        case Threw(errorMessage) =>
          error := Some(errorMessage);
          next := NothingScheduled;
      }
      isVerifying := false;
    }

    /** The delayed `setError(null)` of a wrong code. */
    method ClearErrorFired()
      modifies this
      ensures error.None?
      ensures floorId == old(floorId) && code == old(code) && isVerifying == old(isVerifying) && success == old(success)
      ensures old(Valid()) ==> Valid()
    {
      error := None;
    }
  }
}
