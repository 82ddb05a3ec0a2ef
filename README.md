# BreachLab — a Dafny model of the game core

BreachLab ("The AI Heist") is a ten-floor prompt-injection game. On each floor
the player chats with an AI guard that knows a secret access code. The player
tries to make the guard reveal the code, then types it into the code panel to
reach the next floor. The floors come in five wings: four of two or three floors, and the Vault, which is floor 10 alone.
The browser keeps the player's badge progress in `localStorage`. A FastAPI
server keeps the sessions, runs each floor's guard around the language-model
call and checks codes. Two Cloudflare functions render a share page and its
Open Graph card.

This project models that core in Dafny and proves properties of the model.

| module | file | what it models |
|---|---|---|
| `Badges` | badges.dfy | badge tiers, unlock detection and the `localStorage` progress record (`frontend/src/utils/badges.js`) |
| `Catalog` | floors.dfy | the floor and wing catalogue and its lookups (`frontend/src/data/floors.js`) |
| `Progression` | game.dfy | the game page's state machine: floor selection, success, wing-cleared and reset (`frontend/src/pages/Game.jsx`) |
| `ChatFlow` | chat.dfy | the chat panel: greeting, send, error line, retry and hint (`ChatInterface.jsx`) |
| `CodeEntry` | code_input.dfy | the code panel: typing, submit lock and verdicts (`CodeInput.jsx`) |
| `Uri` | uri.dfy | `encodeURIComponent` over UTF-8, with its byte-level inverse |
| `Share` | share.dfy | the share page: name sanitising, query defaults, title, description and URLs (`frontend/functions/share.js`) |
| `OgImage` | og.dfy | the Open Graph card (`frontend/functions/api/og.js`) |
| `FloorGuards` | floor_guards.dfy | code checking, every floor's input and output filter, and SENTINEL's lockout state |
| `Handlers` | handlers.dfy | the handler table and `process_message` |
| `Server` | server.dfy | the session store and the five endpoints of `backend/main.py` |
| `Guards` | guards.dfy | the logic validator and the configurable input filter (`backend/guards/`) |
| `Text`, `Wrappers`, `Wire` | text.dfy, wrappers.dfy, wire.dfy | ASCII case mapping, substring search, trimming, decimal rendering, `Option`/`Result`, and the request and response records |

Objects that update their own fields are classes with `modifies` clauses:

- `LocalProgressStore` wraps the browser storage.
- `GameView`, `ChatPanel` and `CodePanel` model React component state. Each `set…` call is a field update.
- `SentinelGuard` holds SENTINEL's rate-limit and lockout state.
- `LogicValidator` and `InputFilter` are the guard helper classes.
- `GameServer` holds the in-memory `sessions` dictionary.

Catalogues, filters and formatting are functions. Most of the source's loops
(the term scans of the input filters, the wing search, SENTINEL's timestamp
re-filter) are recursive functions. The following source loops are `while`
loops with invariants, proved against a specification function:

- DIANA's redaction passes;
- the history copy in `process_message`;
- the validator's claim scan;
- the authorisation-chain maximum.

Four cross-file disagreements in the code are stated as lemmas:

- **Executive wing reported early.** The server reports the third wing (floors
  7 to 9) as cleared when floor 8 is solved. The catalogue puts floor 9 in that
  wing too, and floor 9 reports no wing (`ExecutiveWingReportedEarly`).
- **No floor id in the verify reply.** `VerifyResponse` carries no floor id.
  The game page therefore credits the floor it is currently showing
  (`ServerReplyCreditsCurrentFloor`).
- **Level not sanitised.** The share page sanitises the name but not the
  level, which reaches the title as given (`LevelReachesTitle`).
- **A fresh handler per request.** `get_floor_handler` builds a new handler on
  every request. SENTINEL's rate limit and lockout therefore never carry over
  from one request to the next: its input filter blocks exactly on its term
  list (the method `FreshSentinelFilter`).

SENTINEL's timestamp window is the recursive function `RecentWindow`.

The code performs no merge of local and server progress, so none is modelled.

## Model

| member | source | states |
|---|---|---|
| Badges.BadgeForLevel | frontend/src/utils/badges.js:69-75 | no badge below level 3; otherwise the highest tier whose unlock level (3, 5, 7, 10) is at most the level |
| Badges.BadgeForLevelMonotone | frontend/src/utils/badges.js:69-75 | a higher level never yields a lower-ranked badge |
| Badges.CheckNewBadgeUnlock | frontend/src/utils/badges.js:80-89 | a badge is reported iff the new level's tier ranks strictly above the previous level's tier, and it is the new level's tier |
| Badges.UnlockAgainstNewHighest | frontend/src/utils/badges.js:108-121 | checking the completed level against the old highest gives the same unlock as checking the new highest |
| Badges.SortAscending | frontend/src/utils/badges.js:104 | the completed list after sorting is ascending and a permutation of its input |
| Badges.CompleteLevelOf | frontend/src/utils/badges.js:94-128 | the new highest is the maximum of the old one and the level; the current badge is the tier of the new highest; the unlock is judged against the old highest |
| Badges.CompleteLevelKeepsWellFormed | frontend/src/utils/badges.js:101-114 | completing a level keeps the record well formed: strictly ascending completed levels, highest equal to their maximum, badge derived from highest; the completed set becomes old set plus the level |
| Badges.CompleteLevelIdempotent | frontend/src/utils/badges.js:101-121 | completing a level already recorded changes nothing and unlocks nothing |
| Badges.CompleteAllFromEmpty | frontend/src/utils/badges.js:94-128 | any sequence of completions from the empty record gives a well-formed record holding exactly the completed levels, with highest equal to their maximum |
| Badges.WriteThenRead | frontend/src/utils/badges.js:39-64 | reading after a successful write returns the record written; a failed write leaves storage as it was; other keys are untouched |
| Badges.LocalProgressStore.GetLocalProgress | frontend/src/utils/badges.js:39-53 | returns the stored record; returns the empty record when nothing is stored, the read throws or the stored text does not parse |
| Badges.LocalProgressStore.SaveLocalProgress | frontend/src/utils/badges.js:58-64 | stores the record under the progress key; a failing write is swallowed and storage is unchanged |
| Badges.LocalProgressStore.CompleteLevel | frontend/src/utils/badges.js:94-128 | returns the completion of the record read, and stores it unless the write fails |
| Badges.LocalProgressStore.ResetProgress | frontend/src/utils/badges.js:133-141 | stores the empty record and returns it |
| Catalog.FloorsTable | frontend/src/data/floors.js:5-186 | the floor table has exactly the keys 1 to 10 and each floor's id equals its key |
| Catalog.WingsPartitionFloors | frontend/src/data/floors.js:188-214 | the wings' floor lists, concatenated in order, are exactly 1 to 10 |
| Catalog.GetFloor | frontend/src/data/floors.js:216 | the floor is found iff its id is 1 to 10, and it is the floor with that id |
| Catalog.GetWing | frontend/src/data/floors.js:217 | a wing is found iff the name is one of the five wing names, and the wing found is the one listed under that name |
| Catalog.FindWing | frontend/src/data/floors.js:218-225 | a wing is found iff some wing's floor list contains the floor, and the wing found is one of those, with its name |
| Catalog.GetWingForFloor | frontend/src/data/floors.js:218-225 | a wing is found iff the floor is 1 to 10, and that wing's floor list contains the floor |
| Catalog.FloorWingAgrees | frontend/src/data/floors.js:5-214 | each floor's own wing field names the wing that lists it |
| Wire.ToClient | backend/models.py:32-40 | the reply the client sees copies every field and carries no floor id |
| Progression.Dedup | frontend/src/pages/Game.jsx:53 | the result has no duplicates and holds exactly the input's elements |
| Progression.AddFloor | frontend/src/pages/Game.jsx:53 | adding a floor to the completed list gives the old elements plus the floor, without duplicates |
| Progression.AddFloorOfNoDups | frontend/src/pages/Game.jsx:53 | on a duplicate-free list, adding a floor appends it iff it is absent |
| Progression.AddFloorIdempotent | frontend/src/pages/Game.jsx:53 | adding the same floor twice equals adding it once |
| Progression.CreditedFloor | frontend/src/pages/Game.jsx:52-62 | the floor credited is the reply's nonzero floor id, or the floor on screen when the reply names none |
| Progression.ServerReplyCreditsCurrentFloor | backend/models.py:32-40 | the server's verify reply names no floor, so the page always credits the floor on screen |
| Progression.GameView.constructor | frontend/src/pages/Game.jsx:16-24 | starts loading, on floor 1, with nothing completed and every modal closed |
| Progression.GameView.LoadProgress | frontend/src/pages/Game.jsx:34-44 | on a reply, adopts the server's floor and completed list; on failure keeps them; either way stops loading |
| Progression.GameView.HandleFloorSelect | frontend/src/pages/Game.jsx:46-50 | moves to the floor iff it is not beyond the current floor; nothing else changes |
| Progression.GameView.HandleCodeSuccess | frontend/src/pages/Game.jsx:52-62 | adds the credited floor to the completed list once; opens the game-complete modal, else the wing-cleared modal with the reply's wing, else the success modal for the current floor |
| Progression.GameView.HandleSuccessContinue | frontend/src/pages/Game.jsx:64-69 | closes the success modal and moves to the next floor, staying on floor 10 |
| Progression.GameView.HandleWingClearedContinue | frontend/src/pages/Game.jsx:71-76 | closes the wing-cleared modal and moves to the next floor, staying on floor 10 |
| Progression.GameView.HandleReset | frontend/src/pages/Game.jsx:78-89 | restarts iff the player confirms and the server resets, going back to floor 1 with nothing completed; otherwise keeps the state |
| ChatFlow.Greeting | frontend/src/components/ChatInterface.jsx:27-30 | the greeting names the floor and its character |
| ChatFlow.Classify | frontend/src/components/ChatInterface.jsx:64-78 | a failure is a timeout iff its message is "TIMEOUT", a connection failure iff it otherwise mentions a failed fetch or a network error, and any other failure otherwise |
| ChatFlow.ErrorLine | frontend/src/components/ChatInterface.jsx:64-84 | the error line is a system line marked as an error, starting with "[System] ": a timeout names the character and suggests trying again, a connection failure asks to check the connection, and any other failure shows its own message |
| ChatFlow.DropTrailingError | frontend/src/components/ChatInterface.jsx:95 | removes the last line exactly when it is an error line |
| ChatFlow.RetryUndoesErrorLine | frontend/src/components/ChatInterface.jsx:90-97 | retrying after a failed send restores the transcript from before the error line |
| ChatFlow.ChatPanel.constructor | frontend/src/components/ChatInterface.jsx:8-14 | starts with the floor's greeting, empty input, no hint, zero attempts and no failed message |
| ChatFlow.ChatPanel.ShowFloor | frontend/src/components/ChatInterface.jsx:25-34 | a change of floor id resets the transcript to the new greeting and clears the hint and attempts; the same id changes nothing |
| ChatFlow.ChatPanel.BeginSubmit | frontend/src/components/ChatInterface.jsx:36-45 | ignores blank input or a send in flight; otherwise sends the trimmed input, appends it as a user line, clears the input and the failed message, counts the attempt and locks |
| ChatFlow.ChatPanel.FinishSubmit | frontend/src/components/ChatInterface.jsx:47-87 | on a reply, appends the guard's line, reports code detection and unlocks the hint once the attempt count seen at submit reaches 3; on failure, appends the error line and remembers the message; always unlocks |
| ChatFlow.ChatPanel.Retry | frontend/src/components/ChatInterface.jsx:90-97 | with a failed message kept, drops a trailing error line, puts the message back in the input and forgets it; otherwise nothing changes |
| ChatFlow.ChatPanel.HandleGetHint | frontend/src/components/ChatInterface.jsx:99-108 | stores the hint only when the server says it is available and it is not empty; a failed request changes nothing |
| CodeEntry.CodePanel.constructor | frontend/src/components/CodeInput.jsx:6-9 | starts with empty input, no error, not verifying and no success |
| CodeEntry.CodePanel.ShowFloor | frontend/src/components/CodeInput.jsx:12-16 | a floor change clears the code, the error and the success flag |
| CodeEntry.CodePanel.Type | frontend/src/components/CodeInput.jsx:57 | typed text is stored upper-cased, and ignored while the panel is verifying or solved |
| CodeEntry.CodePanel.BeginSubmit | frontend/src/components/CodeInput.jsx:18-26 | ignores blank input, a check in flight or a solved panel; otherwise clears the error, locks and sends the trimmed code with the floor id |
| CodeEntry.CodePanel.FinishSubmit | frontend/src/components/CodeInput.jsx:25-41 | a correct code sets success and hands the reply on; a wrong code shows the server's message and schedules clearing it; a thrown error shows its message with nothing scheduled; always unlocks |
| CodeEntry.CodePanel.ClearErrorFired | frontend/src/components/CodeInput.jsx:35 | the timer clears the error and nothing else |
| Uri.EncodeAlphabet | frontend/functions/share.js:55-60 | an encoded component uses only unreserved characters and percent escapes |
| Uri.EncodeUnreserved | frontend/functions/share.js:55-60 | a string of unreserved ASCII characters encodes to itself |
| Uri.EncodeRoundTrip | frontend/functions/share.js:55-60 | decoding the escapes of an encoded component gives back its UTF-8 bytes |
| Share.Keep | frontend/functions/share.js:21-22 | keeps only characters the pattern allows, never lengthening the text |
| Share.MarkupPassRedundant | frontend/functions/share.js:21-22 | the markup-stripping pass removes nothing the allow-list pass keeps |
| Share.Take | frontend/functions/share.js:24 | keeps the first 20 characters, or all of a shorter name |
| Share.SanitizeName | frontend/functions/share.js:18-25 | the result is at most 20 characters, all allowed and none markup, and does not start with whitespace; an absent or empty name gives the empty string |
| Share.ResanitizeTrimsEnd | frontend/functions/api/og.js:18-25 | sanitising an already sanitised name again only drops trailing whitespace |
| Share.BadgeTableAgrees | frontend/functions/share.js:8-13 | the share page's badge table agrees with the game's badge tiers |
| Share.OrDefault | frontend/functions/share.js:32-34 | a missing or empty query value gives the default |
| Share.ReadQuery | frontend/functions/share.js:32-40 | the level defaults to "1" and a non-empty level is taken as given; the name is sanitised; the badge id is the given one or empty; the badge is looked up, and an unknown badge gives the fallback icon and no badge name |
| Share.Title | frontend/functions/share.js:42-46 | the title ends with the site suffix |
| Share.TitleShowsName | frontend/functions/share.js:42-46 | a named title contains the badge icon followed by the name |
| Share.TitleShowsBadge | frontend/functions/share.js:42-46 | the title contains the badge name |
| Share.TitleShowsLevel | frontend/functions/share.js:42-46 | unless both a name and a badge name are shown, the title contains the level; with neither name nor badge it is "Level N Complete!" and the suffix |
| Share.Description | frontend/functions/share.js:48-52 | the description is longer than the level it quotes |
| Share.DescriptionShowsNamed | frontend/functions/share.js:48-52 | a named description says that the player earned the badge, and contains the badge name and the level |
| Share.DescriptionShowsBadge | frontend/functions/share.js:48-52 | an anonymous description with a known badge contains the badge name and the level |
| Share.DescriptionShows | frontend/functions/share.js:48-52 | every description contains the level, the player's name when given, and the badge name when known |
| Share.LevelReachesTitle | frontend/functions/share.js:32-46 | any level text in the query appears in the title unchanged |
| Share.WithName | frontend/functions/share.js:55-60 | adds "&name=" and the encoded name iff a name is given |
| Share.NameParameter | frontend/functions/share.js:55-60 | without a name both URLs carry only level and badge; with one both carry the name parameter, whose encoding holds no '&', '=' or '#' |
| OgImage.CardBadgeTableAgrees | frontend/functions/api/og.js:8-13 | the card's badge table agrees with the game's badge tiers, icon, name and colour, and knows the same badges as the share page |
| OgImage.Headline | frontend/functions/api/og.js:90 | without a name the headline is "Level N Complete!"; it is longer than the level and name together |
| OgImage.HeadlineShows | frontend/functions/api/og.js:90 | the headline contains the level, and a named headline says the player beat that level |
| OgImage.GenerateCard | frontend/functions/api/og.js:27-98 | an unknown badge gives the fallback icon, no badge line and the default colour; a known one gives its icon, name and colour; the headline greets the sanitised name |
| OgImage.ReadCardQuery | frontend/functions/api/og.js:126-128 | the level defaults to "1", badge and name to empty; values given are taken unchanged |
| OgImage.CardMatchesSharePage | frontend/functions/api/og.js:121-131 | for the values a share page passes on, the card shows the page's icon, a badge line iff the page knows the badge, and the page's name less trailing whitespace |
| Text.Trim | frontend/functions/share.js:23 | the result has no whitespace at either end, is empty iff the input is all whitespace, and takes its characters from the input |
| FloorGuards.SecretCode | backend/config.py:41-52 | floors 1 to 10 have a configured code; any other floor gets "UNKNOWN" |
| FloorGuards.VerifyCode | backend/floors/base.py:38-40 | a code is accepted iff, stripped and upper-cased, it equals the upper-cased secret |
| FloorGuards.VerifyAcceptsVariants | backend/floors/base.py:38-40 | the secret in lower or upper case, surrounded by whitespace, is accepted |
| FloorGuards.FilterInput | backend/floors/floor_02_marcus.py:76-84 | every guard except SENTINEL passes the message through unchanged and blocks it iff its lower-case form contains one of the guard's terms; a guard with no terms never blocks |
| FloorGuards.EmbeddedTermBlocks | backend/floors/floor_02_marcus.py:80-84 | a term in any casing, anywhere in the message, blocks it |
| FloorGuards.MarcusBlocksEmbeddedCode | backend/floors/floor_02_marcus.py:17-21 | Marcus blocks any message containing "code", in either case, even inside another word |
| FloorGuards.BlockingIgnoresCase | backend/floors/floor_04_nova.py:73-84 | upper- or lower-casing a message never changes whether it is blocked |
| FloorGuards.OscarLetsBareWordPass | backend/floors/floor_03_oscar.py:69-85 | OSCAR blocks phrases, not words: "what code?" passes |
| FloorGuards.LeakCheck | backend/floors/base.py:50-59 | the response is unchanged; the secret is reported iff the upper-cased response contains the upper-cased secret |
| FloorGuards.AriaFilterOutput | backend/floors/floor_07_aria.py:102-111 | a leak is returned unchanged and reported; otherwise nothing is reported, a response holding "top secret" in any case has every exact "Top Secret" replaced by "[CLASSIFICATION REDACTED]", and any other response is unchanged |
| FloorGuards.AriaRemovesLabel | backend/floors/floor_07_aria.py:108-109 | when nothing leaks, ARIA's output holds no exact "Top Secret": the replacement cannot form a new one |
| FloorGuards.AriaKeepsOtherCasings | backend/floors/floor_07_aria.py:108-109 | a response that lacks the exact classification label is unchanged |
| FloorGuards.RedactedKeepsOtherCasings | backend/floors/floor_06_diana.py:93-96 | redaction is case-sensitive: a response without any pattern in its exact case is unchanged |
| FloorGuards.RedactedWithoutPatterns | backend/floors/floor_06_diana.py:93-98 | a response that contains no pattern in any case is unchanged |
| FloorGuards.DianaFilterOutput | backend/floors/floor_06_diana.py:77-98 | a leak is returned unchanged and reported; otherwise every pattern is redacted in turn and nothing is reported |
| FloorGuards.SentinelFilterOutput | backend/floors/floor_10_sentinel.py:139-154 | a leak is returned unchanged and reported; otherwise the code-pattern redaction is returned and nothing is reported |
| FloorGuards.RecentWindow | backend/floors/floor_10_sentinel.py:126-127 | keeps exactly the timestamps less than the window old, each as often as it occurs |
| FloorGuards.WindowKeepsNow | backend/floors/floor_10_sentinel.py:126-127 | the request just recorded is always in the window |
| FloorGuards.SentinelGuard.constructor | backend/floors/floor_10_sentinel.py:19-21 | starts with no timestamps, zero anomaly score and no lockout |
| FloorGuards.SentinelGuard.Raise | backend/floors/floor_10_sentinel.py:119-122 | adds to the anomaly score; reaching the threshold resets the score and starts the lockout |
| FloorGuards.SentinelGuard.FilterInput | backend/floors/floor_10_sentinel.py:98-137 | during a lockout blocks and changes nothing; a term adds 2 to the score (a score of 6 locks out and resets it) and blocks without recording the request; otherwise records the request and prunes the window, and more than 10 requests in it add 1, blocking only when that reaches the lockout score; the message always comes back unchanged |
| Handlers.HandlerTable | backend/floors/__init__.py:19-30 | handlers exist for exactly floors 1 to 10, one distinct guard each |
| Handlers.GetFloorHandler | backend/floors/__init__.py:33-37 | succeeds iff the floor is 1 to 10, with that floor's guard and configured code; otherwise fails with "Invalid floor ID: " and the id |
| Handlers.FreshSentinelFilter | backend/floors/__init__.py:33-37 | a SENTINEL built for one request blocks exactly the messages with a SENTINEL term |
| Handlers.ProcessMessage | backend/floors/base.py:61-112 | sends the history plus the user message; adds the blocked context to the system prompt iff the input filter blocks; a model failure becomes a system-error text and no detection; otherwise the secret is reported iff it appears in the reply; a leak is returned as is, and otherwise the floor's output filter applies (DIANA's redaction patterns, ARIA's label replacement, SENTINEL's code-pattern substitution) while every other floor returns the reply unchanged |
| Server.NewSessionOk | backend/main.py:51-58 | a new session is on floor 1 with nothing completed, and satisfies the session invariant |
| Server.CompletedFloorsAreDistinct | backend/main.py:142-143 | a session's completed floors never repeat |
| Server.ResolveFloor | backend/main.py:77 | a missing or zero floor means the session's current floor |
| Server.AfterChatKeepsSessionOk | backend/main.py:96-109 | a chat on an open floor keeps the session invariant: one more attempt, two more history entries |
| Server.CompletedKeepsSessionOk | backend/main.py:140-147 | a correct code keeps the session invariant: the floor is recorded once and the frontier moves at most one floor |
| Server.CompletedIdempotent | backend/main.py:142-147 | recording the same correct floor twice equals recording it once |
| Server.VerifyResult | backend/main.py:140-178 | a correct code reports game over iff floor 10, wing cleared iff floors 2, 4, 6, 8 or 10, the next floor otherwise; a wrong code reports only the failure |
| Server.WingNamesMatchCatalog | backend/main.py:150-167 | the wing names the server reports are the catalogue's wing names |
| Server.WingReportAgreesWithCatalog | backend/main.py:150-167 | for floors 2, 4, 6 and 10 the wing reported is the one the catalogue places the floor in, and it is then fully cleared |
| Server.ExecutiveWingReportedEarly | backend/main.py:150-167 | floor 8 reports the third wing cleared while floor 9 of that wing is still open, and floor 9 reports no wing |
| Server.MarkHintKeepsSessionOk | backend/main.py:199-201 | marking a hint used after three attempts keeps the session invariant |
| Server.GameServer.constructor | backend/main.py:19 | the session store starts empty |
| Server.GameServer.GetOrCreateSession | backend/main.py:46-59 | returns the session stored under a non-empty known id; otherwise opens a new session under the fresh id, whatever id was given |
| Server.GameServer.Chat | backend/main.py:72-123 | rejects a floor beyond the current one with 403 and an unknown floor with 400; otherwise sends the history plus the message to the model, with the blocked context added to the system prompt iff the floor's input filter blocks; replies with the text the floor's handler produces and whether the floor's code leaked; stores one more attempt and two more history entries |
| Server.GameServer.Verify | backend/main.py:126-178 | rejects a floor beyond the current one with 403 and a floor below 1 with 500; otherwise reports the verdict and records the floor on a correct code |
| Server.GameServer.GetHint | backend/main.py:181-208 | before three attempts reports the hint locked; otherwise returns the hint and marks it used |
| Server.GameServer.GetProgress | backend/main.py:211-222 | reports the session's current floor and completed floors, which run from 1 up to the frontier |
| Server.GameServer.ResetGame | backend/main.py:225-237 | replaces the session with a new one on floor 1 |
| Guards.ScanKeepsFacts | backend/guards/logic_validator.py:25-35 | a scan never forgets a known fact |
| Guards.ConsistentScanKnowsClaims | backend/guards/logic_validator.py:25-37 | after a clean scan every claim is a known fact with its claimed value |
| Guards.ContradictionIsReal | backend/guards/logic_validator.py:27-33 | a reported contradiction names a key that was known with a different value |
| Guards.ReclaimingChangesNothing | backend/guards/logic_validator.py:27-28 | claiming what is already known is consistent and changes nothing |
| Guards.RoleLevelIsMax | backend/guards/logic_validator.py:67-72 | a role's level is the highest level among the known names it contains, or 0 |
| Guards.ChainLevelIsMax | backend/guards/logic_validator.py:59-72 | the chain's level lies in 0 to 5 and is the maximum of its roles' levels, reached by one of them |
| Guards.ChainLevelMonotone | backend/guards/logic_validator.py:59-72 | extending a chain never lowers its level |
| Guards.LogicValidator.constructor | backend/guards/logic_validator.py:12-15 | starts with no facts and no claims |
| Guards.LogicValidator.Validate | backend/guards/logic_validator.py:17-37 | reports the first claim that contradicts a known fact, with its message; otherwise records the claims as facts and reports consistency |
| Guards.LogicValidator.AddClaim | backend/guards/logic_validator.py:39-41 | appends the claim |
| Guards.LogicValidator.AddFact | backend/guards/logic_validator.py:43-45 | sets the fact |
| Guards.LogicValidator.CheckAuthorizationChain | backend/guards/logic_validator.py:47-77 | valid iff the chain's level reaches the required level, with the reason text naming both levels |
| Guards.LogicValidator.Reset | backend/guards/logic_validator.py:79-83 | clears the facts, the claims and the contradictions |
| Guards.AddWordIdempotent | backend/guards/input_filter.py:52-55 | adding a blocked word twice equals adding it once |
| Guards.InputFilter.constructor | backend/guards/input_filter.py:13-15 | starts with the given word and pattern lists |
| Guards.InputFilter.Filter | backend/guards/input_filter.py:17-50 | checks blocked words, then blocked patterns, then the built-in injection patterns, reporting the first reason found; the message is never changed |
| Guards.InputFilter.AddBlockedWord | backend/guards/input_filter.py:52-55 | appends the word as given unless it is already present ignoring case |
| Guards.InputFilter.AddBlockedPattern | backend/guards/input_filter.py:57-59 | appends the pattern |
| Guards.AddedWordBlocks | backend/guards/input_filter.py:27-29 | once a word is added, any message containing it in any case is blocked |

## Left out

- The language-model call, its client and the network are not modelled. Each call's outcome (`ModelReply` or `ModelFailure`) is a parameter.
- The frontend's fetch layer (`frontend/src/utils/api.js`) is not modelled. A component step receives the server's reply or the failure as a parameter.
- Fresh session ids (`uuid4`) are a parameter, required not to name an existing session.
- Clocks are parameters (`now: real`), and floating-point time is modelled as `real`.
- Regular expressions are not modelled:
  - the input filter's patterns are given as a search predicate;
  - SENTINEL's code-pattern redaction is given as its result text;
  - `backend/guards/output_filter.py` is not part of this model.
- `backend/guards/anomaly_detector.py` is not part of this model. No endpoint calls it.
- The floor guards' in-character refusal texts (`_get_blocked_response`) are not modelled.
- System prompts, hint texts and character descriptions are given as parameters.
- Server.GameServer.GetProgress: the reply omits `floor_metadata`, the static list of floor descriptions.
- Badges.LocalProgressStore.GetLocalProgress: stored text that parses to a value other than a progress record (such as `null` or `{}`) is returned as-is by the source and makes `completeLevel` throw; a storage slot here holds either a record or unparseable text, so that case is not represented.
- Presentational components are not modelled: avatars, bubbles, modals' markup, Landing, App routing, and Tailwind.
- Timers and scrolling are explicit steps (`ClearErrorFired`) or left out.
- Case mapping covers ASCII only. Non-ASCII letters are left as they are.
- JavaScript prototype keys in table lookups are not modelled.
- Uri.EncodeRoundTrip: stated at the UTF-8 byte level. Decoding the bytes back to characters is not modelled.
- Share.WithName: the level and badge are inserted into the URLs unencoded, as in the source. No round trip is claimed for them.
- Server.GameServer.Chat: the source's 500 path is for an exception raised during processing. The model's `process_message` cannot raise, so that path does not arise.
- Guards.LogicValidator.Validate: the claimed-facts dictionary is given as a sequence of key and value pairs in insertion order.
- The share-URL helpers at the end of `frontend/src/utils/badges.js` are not modelled.
