/** The server's session store and its endpoints (backend/main.py). The
    module-level `sessions` dictionary is the field of a `GameServer` object;
    each session record is a value replaced whole whenever the source updates
    it in place. A freshly minted `uuid4` is passed in as `freshId`, the
    language model's reply or failure as `outcome`. */
module Server {
  import opened Wrappers
  import opened Text
  import opened Wire
  import opened FloorGuards
  import opened Handlers
  import Catalog

  datatype Session = Session(
    currentFloor: int,
    completedFloors: seq<int>,
    floorAttempts: map<int, int>,
    floorHistories: map<int, seq<Entry>>,
    hintsUsed: map<int, bool>)

  /** The record `get_or_create_session` stores for a new id. */
  const NEW_SESSION := Session(1, [], map[], map[], map[])

  datatype HttpError = HttpError(status: int, detail: string)

  /** The floors 1, 2, ..., n in order. */
  function Upto(n: nat): (r: seq<int>)
    ensures |r| == n && forall i :: 0 <= i < n ==> r[i] == i + 1
  {
    seq(n, i => i + 1)
  }

  /** What every stored session satisfies: the floor lies in 1..10; the
      completed list is exactly the floors below it, in order (plus floor 10
      itself once the vault is cracked); attempts, histories and hints exist
      only for reachable floors; each counted attempt left one user and one
      assistant entry in that floor's history; a hint was handed out only
      after 3 attempts. */
  predicate SessionOk(s: Session) {
    1 <= s.currentFloor <= FLOOR_COUNT
    && (s.completedFloors == Upto(s.currentFloor - 1)
        || (s.currentFloor == FLOOR_COUNT && s.completedFloors == Upto(FLOOR_COUNT)))
    && s.floorAttempts.Keys == s.floorHistories.Keys
    && (forall f :: f in s.floorAttempts ==>
          1 <= f <= s.currentFloor && s.floorAttempts[f] >= 1 && |s.floorHistories[f]| == 2 * s.floorAttempts[f])
    && (forall f :: f in s.hintsUsed ==> f in s.floorAttempts && s.floorAttempts[f] >= 3 && s.hintsUsed[f])
  }

  lemma NewSessionOk()
    ensures SessionOk(NEW_SESSION)
  {
  }

  /** A session's completed list never holds a floor twice, and holds only
      floors at or below the current one. */
  lemma CompletedFloorsAreDistinct(s: Session)
    requires SessionOk(s)
    ensures forall i, j :: 0 <= i < j < |s.completedFloors| ==> s.completedFloors[i] != s.completedFloors[j]
    ensures forall f :: f in s.completedFloors ==> 1 <= f <= s.currentFloor
  {
  }

  /** The truthiness test `session_id and session_id in sessions`. */
  predicate Known(sessionId: Option<string>, sessions: map<string, Session>) {
    sessionId.Some? && sessionId.value != "" && sessionId.value in sessions
  }

  /** The id `get_or_create_session` answers with. */
  function SessionIdFor(sessionId: Option<string>, sessions: map<string, Session>, freshId: string): string {
    if Known(sessionId, sessions) then sessionId.value else freshId
  }

  /** The store after `get_or_create_session`. */
  function Opened(sessionId: Option<string>, sessions: map<string, Session>, freshId: string): map<string, Session> {
    if Known(sessionId, sessions) then sessions else sessions[freshId := NEW_SESSION]
  }

  /** `request.floor_id or session["current_floor"]`: an absent or zero floor
      means the current one. */
  function ResolveFloor(requested: Option<int>, current: int): (f: int)
    ensures requested.Some? && requested.value != 0 ==> f == requested.value
    ensures requested.None? || requested.value == 0 ==> f == current
  {
    if requested.Some? && requested.value != 0 then requested.value else current
  }

  function AttemptsOn(s: Session, floorId: int): int {
    if floorId in s.floorAttempts then s.floorAttempts[floorId] else 0
  }

  function HistoryOn(s: Session, floorId: int): seq<Entry> {
    if floorId in s.floorHistories then s.floorHistories[floorId] else []
  }

  /** The session after a chat on `floorId` that the model answered with `reply`. */
  function AfterChat(s: Session, floorId: int, message: string, reply: string): Session {
    s.(floorAttempts := s.floorAttempts[floorId := AttemptsOn(s, floorId) + 1],
       floorHistories := s.floorHistories[floorId := HistoryOn(s, floorId) + [Entry("user", message), Entry("assistant", reply)]])
  }

  /** A chat on a reachable floor keeps the session well formed, leaves the
      progress alone, counts exactly one more attempt on that floor and none
      on any other, and appends exactly the user message and the reply. */
  lemma AfterChatKeepsSessionOk(s: Session, floorId: int, message: string, reply: string)
    requires SessionOk(s) && 1 <= floorId <= s.currentFloor
    ensures var t := AfterChat(s, floorId, message, reply);
      SessionOk(t)
      && t.currentFloor == s.currentFloor && t.completedFloors == s.completedFloors && t.hintsUsed == s.hintsUsed
      && AttemptsOn(t, floorId) == AttemptsOn(s, floorId) + 1
      && (forall f :: f != floorId ==> AttemptsOn(t, f) == AttemptsOn(s, f))
      && HistoryOn(t, floorId) == HistoryOn(s, floorId) + [Entry("user", message), Entry("assistant", reply)]
  {
  }

  /** The session after a correct code for `floorId`: the floor is recorded
      once, and the frontier moves on only when it was the frontier floor. */
  function Completed(s: Session, floorId: int): Session {
    s.(completedFloors := if floorId in s.completedFloors then s.completedFloors else s.completedFloors + [floorId],
       currentFloor := if floorId == s.currentFloor && floorId < FLOOR_COUNT then floorId + 1 else s.currentFloor)
  }

  /** A correct code for any reachable floor keeps the session well formed;
      the frontier never moves back and moves forward by at most one, and
      then only from the frontier floor itself. */
  lemma CompletedKeepsSessionOk(s: Session, floorId: int)
    requires SessionOk(s) && 1 <= floorId <= s.currentFloor
    ensures var t := Completed(s, floorId);
      SessionOk(t)
      && floorId in t.completedFloors
      && s.currentFloor <= t.currentFloor <= s.currentFloor + 1
      && (t.currentFloor != s.currentFloor <==> floorId == s.currentFloor < FLOOR_COUNT)
      && t.floorAttempts == s.floorAttempts && t.floorHistories == s.floorHistories && t.hintsUsed == s.hintsUsed
  {
    var c := s.currentFloor;
    if floorId < c {
      assert s.completedFloors[floorId - 1] == floorId;
    } else if c < FLOOR_COUNT {
      assert floorId !in s.completedFloors;
      assert s.completedFloors + [floorId] == Upto(c);
    } else if s.completedFloors == Upto(FLOOR_COUNT - 1) {
      assert s.completedFloors + [floorId] == Upto(FLOOR_COUNT);
    } else {
      assert s.completedFloors[FLOOR_COUNT - 1] == floorId;
    }
  }

  /** Entering the same correct code twice has the effect of entering it once. */
  lemma CompletedIdempotent(s: Session, floorId: int)
    requires SessionOk(s) && 1 <= floorId <= s.currentFloor
    ensures Completed(Completed(s, floorId), floorId) == Completed(s, floorId)
  {
    CompletedKeepsSessionOk(s, floorId);
  }

  /** The wing-cleared names keyed by the floor that reports them. */
  const WING_NAMES: map<int, string> := map[
    2 := "Ground Floor", 4 := "Security Wing", 6 := "Operations Wing", 8 := "Executive Wing", 10 := "The Vault"]

  const ACCESS_GRANTED := "ACCESS GRANTED"
  const INVALID_CODE := "INVALID CODE - Security protocols remain active"

  /** The reply of `/api/verify` once the floor has passed the gates. */
  function VerifyResult(sessionId: string, floorId: int, correct: bool): (r: VerifyResponse)
    ensures r.sessionId == sessionId && r.correct == correct
    ensures r.message == if correct then ACCESS_GRANTED else INVALID_CODE
    ensures r.gameComplete <==> correct && floorId == FLOOR_COUNT
    ensures r.wingCleared <==> correct && floorId in {2, 4, 6, 8, 10}
    ensures r.wingName.Some? <==> r.wingCleared
    ensures r.wingCleared ==> r.wingName == Some(WING_NAMES[floorId])
    ensures r.nextFloor.Some? <==> correct && floorId < FLOOR_COUNT
    ensures r.nextFloor.Some? ==> r.nextFloor.value == floorId + 1
  {
    if correct then
      VerifyResponse(sessionId, true, ACCESS_GRANTED,
        if floorId < FLOOR_COUNT then Some(floorId + 1) else None,
        floorId == FLOOR_COUNT,
        floorId in WING_NAMES,
        if floorId in WING_NAMES then Some(WING_NAMES[floorId]) else None)
    else
      VerifyResponse(sessionId, false, INVALID_CODE, None, false, false, None)
  }

  /** Each wing name the server reports is the name the client's catalog
      gives the wing of that floor. */
  lemma WingNamesMatchCatalog(floorId: int)
    requires floorId in WING_NAMES
    ensures Catalog.GetWingForFloor(floorId).Some?
    ensures Catalog.GetWingForFloor(floorId).value.name == WING_NAMES[floorId]
  {
    Catalog.FloorWingAgrees(floorId);
  }

  /** Clearing the frontier floor 2, 4, 6 or 10 reports a wing cleared, and
      by the catalog that wing is indeed complete afterwards. */
  lemma WingReportAgreesWithCatalog(s: Session, floorId: int)
    requires SessionOk(s) && floorId == s.currentFloor && floorId in {2, 4, 6, 10}
    ensures VerifyResult("", floorId, true).wingCleared
    ensures Catalog.GetWingForFloor(floorId).Some?
    ensures Catalog.WingCleared(Catalog.GetWingForFloor(floorId).value.floors, Completed(s, floorId).completedFloors)
  {
    Catalog.FloorWingAgrees(floorId);
    CompletedKeepsSessionOk(s, floorId);
    var t := Completed(s, floorId);
    var w := Catalog.GetWingForFloor(floorId).value;
    assert floorId in t.completedFloors;
    assert floorId - 1 in t.completedFloors by { assert t.completedFloors[floorId - 2] == floorId - 1; }
    if floorId == 2 { assert w.floors == [1, 2]; }
    else if floorId == 4 { assert w.floors == [3, 4]; }
    else if floorId == 6 { assert w.floors == [5, 6]; }
    else { assert w.floors == [10]; }
  }

  /** The server and the catalog disagree about the Executive Wing: clearing
      floor 8 reports it cleared although floor 9, which the catalog puts in
      it, is not yet completed; clearing floor 9 then reports no wing at all. */
  lemma ExecutiveWingReportedEarly(s: Session)
    requires SessionOk(s) && s.currentFloor == 8
    ensures VerifyResult("", 8, true).wingName == Some("Executive Wing")
    ensures Catalog.GetWingForFloor(8).Some? && Catalog.GetWingForFloor(8).value.name == "Executive Wing"
    ensures !Catalog.WingCleared(Catalog.GetWingForFloor(8).value.floors, Completed(s, 8).completedFloors)
    ensures !VerifyResult("", 9, true).wingCleared
    ensures Catalog.GetWingForFloor(9) == Catalog.GetWingForFloor(8)
  {
    Catalog.FloorWingAgrees(8);
    Catalog.FloorWingAgrees(9);
    var t := Completed(s, 8);
    CompletedKeepsSessionOk(s, 8);
    assert t.completedFloors == Upto(8);
    assert 9 in Catalog.GetWingForFloor(8).value.floors by {
      assert Catalog.GetWingForFloor(8).value.floors == [7, 8, 9];
    }
  }

  /** `Hints available after 3 attempts. Current: N/3`. */
  function HintLocked(attempts: int): string {
    "Hints available after 3 attempts. Current: " + IntToString(attempts) + "/3"
  }

  const HINT_UNLOCKED := "Hint unlocked"

  /** The session after a hint is handed out for `floorId`. */
  function MarkHint(s: Session, floorId: int): Session {
    if floorId in s.hintsUsed then s else s.(hintsUsed := s.hintsUsed[floorId := true])
  }

  /** Handing out a hint once attempts have reached 3 keeps the session well
      formed and changes nothing but the hint record of that floor. */
  lemma MarkHintKeepsSessionOk(s: Session, floorId: int)
    requires SessionOk(s) && AttemptsOn(s, floorId) >= 3
    ensures var t := MarkHint(s, floorId);
      SessionOk(t) && floorId in t.hintsUsed
      && t.(hintsUsed := s.hintsUsed) == s
      && (forall f :: f != floorId ==> (f in t.hintsUsed <==> f in s.hintsUsed))
  {
  }

  /** Every stored session is well formed. */
  predicate AllOk(store: map<string, Session>) {
    forall id :: id in store ==> SessionOk(store[id])
  }

  lemma StoreKeepsAllOk(store: map<string, Session>, id: string, s: Session)
    requires AllOk(store) && SessionOk(s)
    ensures AllOk(store[id := s])
  {
  }

  class GameServer {
    var sessions: map<string, Session>

    predicate Valid()
      reads this
    {
      AllOk(sessions)
    }

    constructor()
      ensures sessions == map[] && Valid()
    {
      sessions := map[];
    }

    /** `get_or_create_session`: the stored record for a known id, otherwise a
        new floor-1 record under `freshId`. */
    method GetOrCreateSession(sessionId: Option<string>, freshId: string) returns (id: string, session: Session)
      requires Valid() && freshId !in sessions
      modifies this
      ensures id == SessionIdFor(sessionId, old(sessions), freshId)
      ensures sessions == Opened(sessionId, old(sessions), freshId)
      ensures id in sessions && session == sessions[id]
      ensures !Known(sessionId, old(sessions)) ==> session == NEW_SESSION
      ensures Valid()
    {
      if sessionId.Some? && sessionId.value != "" && sessionId.value in sessions {
        return sessionId.value, sessions[sessionId.value];
      }
      NewSessionOk();
      StoreKeepsAllOk(sessions, freshId, NEW_SESSION);
      sessions := sessions[freshId := NEW_SESSION];
      return freshId, NEW_SESSION;
    }

    /** `/api/chat`. The session is opened first and stays opened whatever
        follows; a floor above the current one is refused (403) before the
        range check (400); otherwise the attempt is counted, the message goes
        through the floor's handler, and the exchange is recorded. */
    method Chat(request: ChatRequest, freshId: string, systemPrompt: string, now: real,
                outcome: ModelOutcome, patternRedacted: string)
        returns (r: Result<ChatResponse, HttpError>, sent: Option<ModelRequest>)
      requires Valid() && freshId !in sessions && now >= 0.0
      modifies this
      ensures Valid()
      ensures var id := SessionIdFor(request.sessionId, old(sessions), freshId);
        var store := Opened(request.sessionId, old(sessions), freshId);
        var s := store[id];
        var floorId := ResolveFloor(request.floorId, s.currentFloor);
        (floorId > s.currentFloor ==> r == Err(HttpError(403, "Floor not yet accessible")) && sessions == store && sent.None?)
        && (floorId <= s.currentFloor && floorId < 1 ==> r == Err(HttpError(400, "Invalid floor")) && sessions == store && sent.None?)
        && (1 <= floorId <= s.currentFloor ==> (r.Ok? && sent.Some?
              && r.value.sessionId == id && r.value.floorId == floorId
              && r.value.characterName == CharacterName(FLOOR_HANDLERS[floorId])
              && sessions == store[id := AfterChat(s, floorId, request.message, r.value.response)]
              && sent.value.messages == HistoryOn(s, floorId) + [Entry("user", request.message)]
              && sent.value.system == (if InputBlocked(FLOOR_HANDLERS[floorId], request.message)
                                       then systemPrompt + BLOCKED_CONTEXT else systemPrompt)
              && (outcome.ModelReply? ==>
                    r.value.response == ReplyText(FLOOR_HANDLERS[floorId], outcome.text, FLOOR_CODES[floorId], patternRedacted))
              && (outcome.ModelFailure? ==> r.value.response == "[System Error: " + outcome.error + "]" && !r.value.codeDetected)
              && (outcome.ModelReply? ==> (r.value.codeDetected <==> Contains(Upper(outcome.text), Upper(FLOOR_CODES[floorId]))))))
    {
      var id, s := GetOrCreateSession(request.sessionId, freshId);
      var floorId := ResolveFloor(request.floorId, s.currentFloor);
      if floorId > s.currentFloor {
        return Err(HttpError(403, "Floor not yet accessible")), None;
      }
      if floorId < 1 || floorId > FLOOR_COUNT {
        return Err(HttpError(400, "Invalid floor")), None;
      }
      var h := GetFloorHandler(floorId).value;

      var history := HistoryOn(s, floorId);
      var request', text, detected := ProcessMessage(h, systemPrompt, request.message, history, now, outcome, patternRedacted);
      var recorded := AfterChat(s, floorId, request.message, text);
      AfterChatKeepsSessionOk(s, floorId, request.message, text);
      StoreKeepsAllOk(sessions, id, recorded);
      sessions := sessions[id := recorded];
      r := Ok(ChatResponse(id, floorId, text, CharacterName(h.guard), detected.Some?));
      sent := Some(request');
    }

    /** `/api/verify`. A floor above the current one is refused (403); a
        negative floor makes the handler lookup raise (500); otherwise the
        code is checked against the floor's secret and a correct code
        records the floor and may move the frontier. A wrong code changes
        nothing beyond opening the session. */
    method Verify(request: VerifyRequest, freshId: string) returns (r: Result<VerifyResponse, HttpError>)
      requires Valid() && freshId !in sessions
      modifies this
      ensures Valid()
      ensures var id := SessionIdFor(request.sessionId, old(sessions), freshId);
        var store := Opened(request.sessionId, old(sessions), freshId);
        var s := store[id];
        var floorId := ResolveFloor(request.floorId, s.currentFloor);
        var correct := VerifyCode(request.code, SecretCode(floorId));
        (floorId > s.currentFloor ==> r == Err(HttpError(403, "Floor not yet accessible")) && sessions == store)
        && (floorId < 1 ==> r == Err(HttpError(500, "Internal Server Error")) && sessions == store)
        && (1 <= floorId <= s.currentFloor ==> (r == Ok(VerifyResult(id, floorId, correct))
              && sessions == (if correct then store[id := Completed(s, floorId)] else store)))
    {
      var id, s := GetOrCreateSession(request.sessionId, freshId);
      var floorId := ResolveFloor(request.floorId, s.currentFloor);
      if floorId > s.currentFloor {
        return Err(HttpError(403, "Floor not yet accessible"));
      }
      var handler := GetFloorHandler(floorId);
      if handler.Err? {
        return Err(HttpError(500, "Internal Server Error"));
      }
      var correct := VerifyCode(request.code, handler.value.secret);
      if correct {
        CompletedKeepsSessionOk(s, floorId);
        StoreKeepsAllOk(sessions, id, Completed(s, floorId));
        sessions := sessions[id := Completed(s, floorId)];
      }
      r := Ok(VerifyResult(id, floorId, correct));
    }

    /** `/api/hint`. The hint is available exactly when the floor has
        counted 3 attempts; only then is it handed out and recorded.
        `hintText` is the floor handler's hint. */
    method GetHint(floorId: int, sessionId: Option<string>, freshId: string, hintText: string) returns (r: HintResponse)
      requires Valid() && freshId !in sessions
      modifies this
      ensures Valid()
      ensures var id := SessionIdFor(sessionId, old(sessions), freshId);
        var store := Opened(sessionId, old(sessions), freshId);
        var s := store[id];
        var attempts := AttemptsOn(s, floorId);
        (attempts < 3 ==> r == HintResponse(id, None, false, HintLocked(attempts)) && sessions == store)
        && (attempts >= 3 ==> (r == HintResponse(id, Some(hintText), true, HINT_UNLOCKED)
              && sessions == store[id := MarkHint(s, floorId)]))
    {
      var id, s := GetOrCreateSession(sessionId, freshId);
      var attempts := AttemptsOn(s, floorId);
      if attempts < 3 {
        return HintResponse(id, None, false, HintLocked(attempts));
      }
      var handler := GetFloorHandler(floorId);
      assert handler.Ok?;
      MarkHintKeepsSessionOk(s, floorId);
      StoreKeepsAllOk(sessions, id, MarkHint(s, floorId));
      sessions := sessions[id := MarkHint(s, floorId)];
      r := HintResponse(id, Some(hintText), true, HINT_UNLOCKED);
    }

    /** `/api/progress`: the session's floor and completed list, which are
        always the floors below the frontier (or all ten at the end). */
    method GetProgress(sessionId: Option<string>, freshId: string) returns (r: ProgressResponse)
      requires Valid() && freshId !in sessions
      modifies this
      ensures Valid()
      ensures sessions == Opened(sessionId, old(sessions), freshId)
      ensures var s := sessions[SessionIdFor(sessionId, old(sessions), freshId)];
        r == ProgressResponse(SessionIdFor(sessionId, old(sessions), freshId), s.currentFloor, s.completedFloors, FLOOR_COUNT)
      ensures 1 <= r.currentFloor <= FLOOR_COUNT
      ensures r.completedFloors == Upto(r.currentFloor - 1)
        || (r.currentFloor == FLOOR_COUNT && r.completedFloors == Upto(FLOOR_COUNT))
    {
      var id, s := GetOrCreateSession(sessionId, freshId);
      r := ProgressResponse(id, s.currentFloor, s.completedFloors, FLOOR_COUNT);
    }

    /** `/api/reset`: the given session, when known, is dropped, and a new
        floor-1 session is minted under `freshId`. */
    method ResetGame(sessionId: Option<string>, freshId: string) returns (r: ResetResponse)
      requires Valid() && freshId !in sessions
      modifies this
      ensures Valid()
      ensures Known(sessionId, old(sessions)) ==> sessions == (old(sessions) - {sessionId.value})[freshId := NEW_SESSION]
      ensures !Known(sessionId, old(sessions)) ==> sessions == old(sessions)[freshId := NEW_SESSION]
      ensures r == ResetResponse(freshId, "Game reset successfully", 1)
    {
      if sessionId.Some? && sessionId.value != "" && sessionId.value in sessions {
        sessions := sessions - {sessionId.value};
      }
      var id, _ := GetOrCreateSession(None, freshId);
      r := ResetResponse(id, "Game reset successfully", 1);
    }
  }
}
