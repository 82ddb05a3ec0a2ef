/** The request and response records exchanged between the client and the
    server (backend/models.py), and the fields of a verification reply as the
    client's code reads them. */
module Wire {
  import opened Wrappers

  datatype ChatRequest = ChatRequest(message: string, sessionId: Option<string>, floorId: Option<int>)

  datatype ChatResponse = ChatResponse(sessionId: string, floorId: int, response: string, characterName: string, codeDetected: bool)

  datatype VerifyRequest = VerifyRequest(code: string, sessionId: Option<string>, floorId: Option<int>)

  /** The server's verification reply. It has no `floor_id` field. */
  datatype VerifyResponse = VerifyResponse(
    sessionId: string, correct: bool, message: string, nextFloor: Option<int>,
    gameComplete: bool, wingCleared: bool, wingName: Option<string>)

  datatype HintResponse = HintResponse(sessionId: string, hint: Option<string>, available: bool, message: string)

  datatype ProgressResponse = ProgressResponse(sessionId: string, currentFloor: int, completedFloors: seq<int>, totalFloors: int)

  datatype ResetResponse = ResetResponse(sessionId: string, message: string, currentFloor: int)

  /** A verification reply as the game page reads it: `response.floor_id` is
      whatever the JSON holds under that key, absent here being `None`. */
  datatype VerifyReply = VerifyReply(
    floorId: Option<int>, correct: bool, message: string,
    gameComplete: bool, wingCleared: bool, wingName: Option<string>)

  /** What the client sees after the server's reply is serialized and parsed. */
  function ToClient(r: VerifyResponse): (c: VerifyReply)
    ensures c.floorId.None?
    ensures c.correct == r.correct && c.message == r.message
    ensures c.gameComplete == r.gameComplete && c.wingCleared == r.wingCleared && c.wingName == r.wingName
  {
    VerifyReply(None, r.correct, r.message, r.gameComplete, r.wingCleared, r.wingName)
  }
}
