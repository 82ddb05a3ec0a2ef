/** The game page's progression state (frontend/src/pages/Game.jsx): the
    current floor, the list of completed floors, the loading flag and the
    three outcome dialogs, updated in place by the page's handlers. Network
    results arrive as parameters. */
module Progression {
  import opened Wrappers
  import opened Catalog
  import opened Wire

  /** No value occurs twice. */
  predicate NoDups(s: seq<int>) {
    forall i, j :: 0 <= i < j < |s| ==> s[i] != s[j]
  }

  /** `[...new Set(s)]`: the first occurrence of every value, in order. */
  function Dedup(s: seq<int>): (r: seq<int>)
    ensures NoDups(r)
    ensures forall k :: k in r <==> k in s
    ensures |r| <= |s|
    decreases |s|
  {
    if s == [] then []
    else
      var init := Dedup(s[..|s| - 1]);
      var last := s[|s| - 1];
      assert forall k :: k in s <==> k in s[..|s| - 1] || k == last by {
        assert s == s[..|s| - 1] + [last];
      }
      if last in s[..|s| - 1] then init else init + [last]
  }

  /** A list without duplicates is its own set in insertion order. */
  lemma {:induction false} DedupOfNoDups(s: seq<int>)
    requires NoDups(s)
    ensures Dedup(s) == s
    decreases |s|
  {
    if s != [] {
      DedupOfNoDups(s[..|s| - 1]);
      assert s == s[..|s| - 1] + [s[|s| - 1]];
    }
  }

  /** The completed list after crediting `floorId`: a set union, in insertion order. */
  function AddFloor(completed: seq<int>, floorId: int): (r: seq<int>)
    ensures NoDups(r)
    ensures forall k :: k in r <==> k in completed || k == floorId
  {
    Dedup(completed + [floorId])
  }

  /** On a duplicate-free list, crediting a floor appends it when it is new
      and changes nothing when it is already there. */
  lemma AddFloorOfNoDups(completed: seq<int>, floorId: int)
    requires NoDups(completed)
    ensures AddFloor(completed, floorId) == if floorId in completed then completed else completed + [floorId]
  {
    assert (completed + [floorId])[..|completed|] == completed;
    DedupOfNoDups(completed);
  }

  /** Crediting the same floor twice is the same as crediting it once. */
  lemma AddFloorIdempotent(completed: seq<int>, floorId: int)
    ensures AddFloor(AddFloor(completed, floorId), floorId) == AddFloor(completed, floorId)
  {
    AddFloorOfNoDups(AddFloor(completed, floorId), floorId);
  }

  /** `response.floor_id || currentFloor`: the floor a verified code credits. A
      missing or zero `floor_id` falls back to the page's current floor. */
  function CreditedFloor(reply: VerifyReply, currentFloor: int): (f: int)
    ensures f == currentFloor || (reply.floorId == Some(f) && f != 0)
    ensures reply.floorId.None? ==> f == currentFloor
  {
    match reply.floorId
    case Some(id) => if id != 0 then id else currentFloor
    case None => currentFloor
  }

  /** The server's verification reply carries no floor id, so the page always
      credits the floor it is showing, whichever floor the code was for. */
  lemma ServerReplyCreditsCurrentFloor(r: VerifyResponse, currentFloor: int)
    ensures CreditedFloor(ToClient(r), currentFloor) == currentFloor
  {
  }

  datatype SuccessModal = SuccessModal(open: bool, floor: Option<Floor>)

  datatype WingClearedModal = WingClearedModal(open: bool, wingName: Option<string>)

  const CLOSED_SUCCESS := SuccessModal(false, None)
  const CLOSED_WING_CLEARED := WingClearedModal(false, None)

  class GameView {
    var currentFloor: int
    var completedFloors: seq<int>
    var isLoading: bool
    var successModal: SuccessModal
    var wingClearedModal: WingClearedModal
    var gameCompleteModal: bool

    /** The floor never passes the last one and no floor is listed twice. */
    predicate Valid()
      reads this
    {
      currentFloor <= FLOOR_COUNT && NoDups(completedFloors)
    }

    constructor()
      ensures currentFloor == 1 && completedFloors == [] && isLoading
      ensures successModal == CLOSED_SUCCESS && wingClearedModal == CLOSED_WING_CLEARED && !gameCompleteModal
      ensures Valid()
    {
      currentFloor := 1;
      completedFloors := [];
      isLoading := true;
      successModal := CLOSED_SUCCESS;
      wingClearedModal := CLOSED_WING_CLEARED;
      gameCompleteModal := false;
    }

    /** `loadProgress`: `progress` is the server's reply, or `None` when the
        request failed. */
    method LoadProgress(progress: Option<ProgressResponse>)
      modifies this
      ensures progress.Some? ==> currentFloor == progress.value.currentFloor && completedFloors == progress.value.completedFloors
      ensures progress.None? ==> currentFloor == old(currentFloor) && completedFloors == old(completedFloors)
      ensures !isLoading
      ensures successModal == old(successModal) && wingClearedModal == old(wingClearedModal)
      ensures gameCompleteModal == old(gameCompleteModal)
      ensures old(Valid()) && (progress.None? || (progress.value.currentFloor <= FLOOR_COUNT && NoDups(progress.value.completedFloors))) ==> Valid()
    {
      if progress.Some? {
        currentFloor := progress.value.currentFloor;
        completedFloors := progress.value.completedFloors;
      }
      isLoading := false;
    }

    /** `handleFloorSelect`: only the current floor or an earlier one can be chosen. */
    method HandleFloorSelect(floorId: int)
      modifies this
      ensures floorId <= old(currentFloor) ==> currentFloor == floorId
      ensures floorId > old(currentFloor) ==> currentFloor == old(currentFloor)
      ensures currentFloor <= old(currentFloor)
      ensures completedFloors == old(completedFloors) && isLoading == old(isLoading)
      ensures successModal == old(successModal) && wingClearedModal == old(wingClearedModal)
      ensures gameCompleteModal == old(gameCompleteModal)
      ensures old(Valid()) ==> Valid()
    {
      if floorId <= currentFloor {
        currentFloor := floorId;
      }
    }

    /** `handleCodeSuccess`: credit the floor, then open exactly one outcome:
        game complete, else wing cleared, else floor cleared. */
    method HandleCodeSuccess(reply: VerifyReply)
      modifies this
      ensures completedFloors == AddFloor(old(completedFloors), CreditedFloor(reply, old(currentFloor)))
      ensures forall k :: k in completedFloors <==> k in old(completedFloors) || k == CreditedFloor(reply, old(currentFloor))
      ensures reply.gameComplete ==> (gameCompleteModal
        && wingClearedModal == old(wingClearedModal) && successModal == old(successModal))
      ensures !reply.gameComplete && reply.wingCleared ==> (wingClearedModal == WingClearedModal(true, reply.wingName)
        && gameCompleteModal == old(gameCompleteModal) && successModal == old(successModal))
      ensures !reply.gameComplete && !reply.wingCleared ==> (successModal == SuccessModal(true, GetFloor(old(currentFloor)))
        && gameCompleteModal == old(gameCompleteModal) && wingClearedModal == old(wingClearedModal))
      ensures currentFloor == old(currentFloor) && isLoading == old(isLoading)
      ensures old(Valid()) ==> Valid()
    {
      completedFloors := AddFloor(completedFloors, CreditedFloor(reply, currentFloor));
      if reply.gameComplete {
        gameCompleteModal := true;
      } else if reply.wingCleared {
        wingClearedModal := WingClearedModal(true, reply.wingName);
      } else {
        successModal := SuccessModal(true, GetFloor(currentFloor));
      }
    }

    /** `handleSuccessContinue`: close the floor-cleared dialog and move up one
        floor, never past the last. */
    method HandleSuccessContinue()
      modifies this
      ensures successModal == CLOSED_SUCCESS
      ensures currentFloor == if old(currentFloor) < FLOOR_COUNT then old(currentFloor) + 1 else old(currentFloor)
      ensures completedFloors == old(completedFloors) && isLoading == old(isLoading)
      ensures wingClearedModal == old(wingClearedModal) && gameCompleteModal == old(gameCompleteModal)
      ensures old(Valid()) ==> Valid()
    {
      successModal := CLOSED_SUCCESS;
      if currentFloor < 10 {
        currentFloor := currentFloor + 1;
      }
    }

    /** `handleWingClearedContinue`: close the wing-cleared dialog and move up
        one floor, never past the last. */
    method HandleWingClearedContinue()
      modifies this
      ensures wingClearedModal == CLOSED_WING_CLEARED
      ensures currentFloor == if old(currentFloor) < FLOOR_COUNT then old(currentFloor) + 1 else old(currentFloor)
      ensures completedFloors == old(completedFloors) && isLoading == old(isLoading)
      ensures successModal == old(successModal) && gameCompleteModal == old(gameCompleteModal)
      ensures old(Valid()) ==> Valid()
    {
      wingClearedModal := CLOSED_WING_CLEARED;
      if currentFloor < 10 {
        currentFloor := currentFloor + 1;
      }
    }

    /** `handleReset`: `confirmed` is the player's answer to the dialog and
        `serverOk` whether the server reset succeeded. The page goes back to
        floor 1 with nothing completed only when both hold; `restarted` says
        that the landing page is shown again. */
    method HandleReset(confirmed: bool, serverOk: bool) returns (restarted: bool)
      modifies this
      ensures restarted <==> confirmed && serverOk
      ensures restarted ==> currentFloor == 1 && completedFloors == []
      ensures !restarted ==> currentFloor == old(currentFloor) && completedFloors == old(completedFloors)
      ensures isLoading == old(isLoading) && successModal == old(successModal)
      ensures wingClearedModal == old(wingClearedModal) && gameCompleteModal == old(gameCompleteModal)
      ensures old(Valid()) ==> Valid()
    {
      restarted := false;
      if confirmed && serverOk {
        currentFloor := 1;
        completedFloors := [];
        restarted := true;
      }
    }
  }
}
