/** The per-floor chat panel (frontend/src/components/ChatInterface.jsx). A
    submission is split into the step that runs before the request is sent
    and the step that runs when it settles; the request's outcome (a reply or
    a thrown error's message) is a parameter of the second step. */
module ChatFlow {
  import opened Wrappers
  import opened Text
  import opened Catalog
  import opened Wire

  datatype Role = SystemRole | UserRole | AssistantRole

  datatype Message = Message(role: Role, content: string, character: Option<string>, isError: bool)

  /** The single system line a floor's conversation starts with. */
  function Greeting(floor: Floor): (m: Message)
    ensures m.role == SystemRole && !m.isError
    ensures m.content == "You've reached " + floor.name + ". " + floor.character + " awaits."
  {
    Message(SystemRole, "You've reached " + floor.name + ". " + floor.character + " awaits.", None, false)
  }

  /** How a failed request is reported. */
  datatype FailureKind = Timeout | Connection | OtherFailure

  /** The request layer's TIMEOUT comes first, then the browser's network
      failures, then everything else. */
  function Classify(errorMessage: string): (k: FailureKind)
    ensures k == Timeout <==> errorMessage == "TIMEOUT"
    ensures k == Connection <==> (errorMessage != "TIMEOUT"
      && (Contains(errorMessage, "Failed to fetch") || Contains(errorMessage, "NetworkError")))
  {
    if errorMessage == "TIMEOUT" then Timeout
    else if Contains(errorMessage, "Failed to fetch") || Contains(errorMessage, "NetworkError") then Connection
    else OtherFailure
  }

  /** The system line appended for a failed request to `character`. */
  function ErrorLine(errorMessage: string, character: string): (m: Message)
    ensures m.role == SystemRole && m.isError && m.character.None?
    ensures |m.content| >= 9 && m.content[..9] == "[System] "
    ensures Classify(errorMessage) == Timeout ==>
      m.content == "[System] " + ("No response received from " + character + ". The server may be busy. You can try again.")
    ensures Classify(errorMessage) == Connection ==>
      m.content == "[System] " + "Connection error. Please check your internet connection and try again."
    ensures Classify(errorMessage) == OtherFailure ==> m.content == "[System] " + ("Error: " + errorMessage)
  {
    var k := Classify(errorMessage);
    var content :=
      if k == Timeout then "[System] " + ("No response received from " + character + ". The server may be busy. You can try again.")
      else if k == Connection then "[System] " + "Connection error. Please check your internet connection and try again."
      else "[System] " + ("Error: " + errorMessage);
    Message(SystemRole, content, None, true)
  }

  /** Retry's filter: the last message goes only when it is an error line. */
  function DropTrailingError(messages: seq<Message>): (r: seq<Message>)
    ensures |r| <= |messages| && r == messages[..|r|]
    ensures |r| == |messages| || (|r| == |messages| - 1 && messages[|messages| - 1].isError)
    ensures messages != [] && messages[|messages| - 1].isError ==> |r| == |messages| - 1
  {
    if messages != [] && messages[|messages| - 1].isError then messages[..|messages| - 1] else messages
  }

  /** Retrying right after a failure takes back exactly the error line. */
  lemma RetryUndoesErrorLine(messages: seq<Message>, errorMessage: string, character: string)
    ensures DropTrailingError(messages + [ErrorLine(errorMessage, character)]) == messages
  {
    assert (messages + [ErrorLine(errorMessage, character)])[..|messages|] == messages;
  }

  /** What the submit step hands to the settle step: the text sent, the
      attempt count the handler saw, and the floor it was sent from. */
  datatype Pending = Pending(userMessage: string, attemptsAtSubmit: int, floor: Floor)

  /** A request either returns the server's reply or throws with a message. */
  datatype SendOutcome = Replied(response: ChatResponse) | Failed(errorMessage: string)

  class ChatPanel {
    var floor: Floor
    var messages: seq<Message>
    var input: string
    var isLoading: bool
    var hint: Option<string>
    var hintAvailable: bool
    var attempts: int
    var lastFailedMessage: Option<string>

    /** No failed message is kept while a request is in flight, a kept one is
        never empty, and the attempt counter is never negative. */
    predicate Valid()
      reads this
    {
      attempts >= 0
      && (isLoading ==> lastFailedMessage.None?)
      && (lastFailedMessage.Some? ==> lastFailedMessage.value != "")
    }

    /** Mounting the panel, including the floor effect's first run. */
    constructor(floor: Floor)
      ensures this.floor == floor && messages == [Greeting(floor)]
      ensures input == "" && !isLoading && hint.None? && !hintAvailable && attempts == 0
      ensures lastFailedMessage.None?
      ensures Valid()
    {
      this.floor := floor;
      messages := [Greeting(floor)];
      input := "";
      isLoading := false;
      hint := None;
      hintAvailable := false;
      attempts := 0;
      lastFailedMessage := None;
    }

    /** The effect keyed on the floor id: a new floor restarts the conversation,
        clears the hint and zeroes the attempts. The input, the kept failed
        message and the loading flag are left as they were. */
    method ShowFloor(newFloor: Floor)
      modifies this
      ensures floor == newFloor
      ensures newFloor.id != old(floor.id) ==> (messages == [Greeting(newFloor)]
        && hint.None? && !hintAvailable && attempts == 0)
      ensures newFloor.id == old(floor.id) ==> (messages == old(messages)
        && hint == old(hint) && hintAvailable == old(hintAvailable) && attempts == old(attempts))
      ensures input == old(input) && isLoading == old(isLoading) && lastFailedMessage == old(lastFailedMessage)
      ensures old(Valid()) ==> Valid()
    {
      if newFloor.id != floor.id {
        messages := [Greeting(newFloor)];
        hint := None;
        hintAvailable := false;
        attempts := 0;
      }
      floor := newFloor;
    }

    /** The synchronous half of `handleSubmit`. Nothing happens when the
        trimmed input is empty or a request is in flight; otherwise the
        trimmed text is posted as the user's line and a request starts. */
    method BeginSubmit() returns (pending: Option<Pending>)
      modifies this
      ensures pending.None? <==> JsTrim(old(input)) == [] || old(isLoading)
      ensures pending.None? ==> (messages == old(messages) && input == old(input) && isLoading == old(isLoading)
        && attempts == old(attempts) && lastFailedMessage == old(lastFailedMessage))
      ensures pending.Some? ==> (pending.value == Pending(JsTrim(old(input)), old(attempts), old(floor))
        && messages == old(messages) + [Message(UserRole, JsTrim(old(input)), None, false)]
        && input == "" && isLoading && attempts == old(attempts) + 1 && lastFailedMessage.None?)
      ensures floor == old(floor) && hint == old(hint) && hintAvailable == old(hintAvailable)
      ensures old(Valid()) ==> Valid()
    {
      var userMessage := JsTrim(input);
      if userMessage == [] || isLoading {
        return None;
      }
      pending := Some(Pending(userMessage, attempts, floor));
      input := "";
      lastFailedMessage := None;
      messages := messages + [Message(UserRole, userMessage, None, false)];
      isLoading := true;
      attempts := attempts + 1;
    }

    /** The asynchronous half of `handleSubmit`, when the request settles.
        A reply appends one assistant line and opens the hint once the
        handler's own attempt count plus one reaches 3; a failure appends one
        error line and keeps the text for retry. `codeDetected` says whether
        the page is told a code was revealed. */
    method FinishSubmit(pending: Pending, outcome: SendOutcome) returns (codeDetected: bool)
      requires isLoading
      requires pending.userMessage != ""
      modifies this
      ensures outcome.Replied? ==> (messages == old(messages)
          + [Message(AssistantRole, outcome.response.response, Some(outcome.response.characterName), false)]
        && hintAvailable == (old(hintAvailable) || pending.attemptsAtSubmit + 1 >= 3)
        && lastFailedMessage == old(lastFailedMessage)
        && codeDetected == outcome.response.codeDetected)
      ensures outcome.Failed? ==> (messages == old(messages) + [ErrorLine(outcome.errorMessage, pending.floor.character)]
        && lastFailedMessage == Some(pending.userMessage)
        && hintAvailable == old(hintAvailable) && !codeDetected)
      ensures !isLoading
      ensures floor == old(floor) && input == old(input) && hint == old(hint) && attempts == old(attempts)
      ensures old(Valid()) ==> Valid()
    {
      codeDetected := false;
      match outcome {
        case Replied(response) =>
          messages := messages + [Message(AssistantRole, response.response, Some(response.characterName), false)];
          codeDetected := response.codeDetected;
          if pending.attemptsAtSubmit + 1 >= 3 {
            hintAvailable := true;
          }
        case Failed(errorMessage) =>
          lastFailedMessage := Some(pending.userMessage);
          messages := messages + [ErrorLine(errorMessage, pending.floor.character)];
      }
      isLoading := false;
    }

    /** `handleRetry`: put the failed text back in the input and take back the
        error line; with no failed text kept, nothing happens. */
    method Retry()
      modifies this
      ensures old(lastFailedMessage).Some? && old(lastFailedMessage).value != "" ==>
        (input == old(lastFailedMessage).value && lastFailedMessage.None? && messages == DropTrailingError(old(messages)))
      ensures !(old(lastFailedMessage).Some? && old(lastFailedMessage).value != "") ==>
        (input == old(input) && lastFailedMessage == old(lastFailedMessage) && messages == old(messages))
      ensures floor == old(floor) && isLoading == old(isLoading) && hint == old(hint)
      ensures hintAvailable == old(hintAvailable) && attempts == old(attempts)
      ensures old(Valid()) ==> Valid()
    {
      if lastFailedMessage.Some? && lastFailedMessage.value != "" {
        input := lastFailedMessage.value;
        lastFailedMessage := None;
        messages := DropTrailingError(messages);
      }
    }

    /** `handleGetHint`: `reply` is the server's answer, `None` when the
        request failed. A hint is kept only when it is available and not empty. */
    method HandleGetHint(reply: Option<HintResponse>)
      modifies this
      ensures reply.Some? && reply.value.available && reply.value.hint.Some? && reply.value.hint.value != ""
        ==> hint == reply.value.hint
      ensures !(reply.Some? && reply.value.available && reply.value.hint.Some? && reply.value.hint.value != "")
        ==> hint == old(hint)
      ensures floor == old(floor) && messages == old(messages) && input == old(input) && isLoading == old(isLoading)
      ensures hintAvailable == old(hintAvailable) && attempts == old(attempts) && lastFailedMessage == old(lastFailedMessage)
      ensures old(Valid()) ==> Valid()
    {
      if reply.Some? && reply.value.available && reply.value.hint.Some? && reply.value.hint.value != "" {
        hint := reply.value.hint;
      }
    }
  }
}
