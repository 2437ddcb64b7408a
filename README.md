# Hangman match engine

This project models the match engine of a two-player Hangman game server
(`server/server.js`). Its state is a store of rooms, kept in insertion
order. Each room holds:

- the host and the guest;
- the word list, the current word and its mask;
- the letters guessed so far;
- both players' lives and whose turn it is;
- whether the match is over, and who won;
- a one-shot flag for trophy reporting.

The handlers that change this state are modelled as methods of a class
`RoomStore`. They cover creating a room, joining, auto-matching, the two
kinds of guess, and the forfeit on disconnect. Each method is specified
by pure functions of one room (`Engine`), and the properties are proved
about those functions (`MatchProperties`). The server sends errors to a
socket and broadcasts room snapshots. The model returns these as values
instead: an `Error`, a `GuessReply`, a `MatchReply` or the list of final
snapshots.

Modules, by file:

- `wrappers.dfy`: `Option` (JavaScript null/undefined) and `Result`.
- `text.dfy`: ASCII `toUpperCase`, `trim`, `String.prototype.includes` and
  `join(' ')` over characters.
- `rooms.dfy`: the room record, the error kinds, the masks, the room
  invariants `WellFormed` and `Paced`, and the two room constructors.
- `engine.dfy`:
  - the sender of a message (`Sender`) and the guard sequence (`Admit`);
  - the letter guess, the lenient and the harsh word guess;
  - the round advance and the closing lives check;
  - the synchronous prefix of `handleGameOver` (`ReportOutcome`);
  - what a guess handler stores and sends (`Deliver`).
- `properties.dfy`: lemmas about the engine, and two worked scenarios.
- `store.dfy`: the store class, its handlers written step by step, and the
  disconnect loop.

Each guess step exists in two forms on purpose. The functions of `Engine`
are the specification that the lemmas reason about. The methods of
`store.dfy` (`CheckGuess`, `GuessLetter`, `GuessWholeWord`,
`GuessWordHarshly`, `LoseLives`, `NextRound`, `CloseGuess`, `Conclude`)
follow the handlers' statement-by-statement updates of the stored room.
Each method is proved to compute its function, and the store's handlers
call the methods.

The model follows the code as written, including these rules of the
game that are easy to miss:

- A correct `guessWord` passes the turn when a next word comes up
  (`server/server.js:431`). Only `makeGuess` keeps the turn.
- A wrong word in `makeGuess` costs no life (`server/server.js:224-227`).
  Only `guessWord` costs the guesser 10.
- Advancing past the end of an auto-match word list does not end the
  match. The handler throws after lives and the index have changed, and
  the word is gone. With a list shorter than five words, completing the
  last listed word therefore never ends the match
  (`Scenarios.OneWordMatchThrows`); from then on only a wrong `guessWord`
  does. This failure is an explicit `InvalidMessageFormat` result, and
  the partly updated room stays in the store.
- A room made by `createRoom` has no list at all. A correct guess throws
  on reading it, after lives and the index have changed but before the
  word or the turn does. The same player can then guess the same word
  again, and the fifth correct guess reaches the bound and ends the match
  (`Scenarios.CreateRoomEndsOnFifthGuess`).
- A message's `userId` is compared with `===`. A `null` id therefore
  matches every empty slot. In a room still waiting for a guest it is the
  guest: it is refused as out of turn while the host holds the turn, and
  plays once the host has passed it. When the host slot is null as well
  (a room opened by an unidentified connection), it is always refused
  until a guest joins, and then it plays as host
  (`Scenarios.NullSenderMatchesEmptySlots`).
- `joinRoom` reports a full room by JavaScript truthiness of `guestId`,
  so an empty-string guest does not count as full.

## Model

| member | source | states |
|---|---|---|
| `Rooms.ErrorText` | server/server.js:68-232 | the text of each error kind, as sent at 68, 135, 140, 161, 166, 182, 188 and 232; never empty |
| `Rooms.ErrorTextInjective` | server/server.js:156-190 | the handlers' error messages are pairwise distinct, so each guard's rejection is distinguishable |
| `Rooms.CreateMaskedWord` | server/server.js:309-311 | the fresh mask has one underscore per character of the word with single spaces between, length 2n-1 |
| `Rooms.Reveal` | server/server.js:242-245 | the mask after a correct letter: position 2k shows the word's k-th character if its upper case was guessed, else `_`; odd positions are spaces |
| `Rooms.RevealNothing` | server/server.js:242-245 | revealing with no guessed letters gives exactly the fresh all-underscore mask |
| `Rooms.RevealAll` | server/server.js:247-250 | once every character is guessed the mask spells out the whole word |
| `Rooms.AllGuessed` | server/server.js:248-250 | the completion test: every character of the upper-cased word is among the guessed letters (a definition; `RevealAll` and `CompletionAdvances` use it) |
| `Rooms.NewRoom` | server/server.js:94-113 | `createRoom` opens a room hosted by the connection, with no guest, 5/5 lives, host's turn, not over, upper-cased word and no word list |
| `Rooms.NewGameRoom` | server/server.js:313-336 | `createGameRoom` yields a room exactly when the word list is non-empty: 5/5 lives, host's turn, index 0, first word, all-underscore mask, no letters |
| `Rooms.WellFormed` | server/server.js:102-113 | the room invariant: both lives in 0..5, word index at most 5 and the match over at 5, a winner exactly when over, reported only when over; kept by every handler (the `KeepsWellFormed` lemmas) |
| `Rooms.Paced` | server/server.js:285-289 | the pace invariant: while a match runs, each side has at least as many lives as rounds left (5 minus the word index) |
| `Rooms.Decisive` | server/server.js:285-289 | a room with a side at 0 lives is over |
| `Rooms.PacedDecisive` | server/server.js:285-289 | a well-formed room on pace is decisive: a side at 0 lives means the match has ended |
| `Text.Upper` | server/server.js:194-195 | ASCII upper-casing preserves length, maps each character and yields an upper-case string |
| `Text.UpperIdempotent` | server/server.js:239-243 | upper-casing the already upper-cased word again changes nothing |
| `Text.UpperOfUpper` | server/server.js:243 | an upper-case string is its own upper-casing |
| `Text.TrimStart` | server/server.js:408 | the result is a suffix, only white space was dropped, and it does not start with white space |
| `Text.TrimEnd` | server/server.js:408 | the result is a prefix, only white space was dropped, and it does not end with white space |
| `Text.Trim` | server/server.js:408 | the trimmed guess neither starts nor ends with white space |
| `Text.TrimAround` | server/server.js:408 | trimming white space around a core gives back exactly that core |
| `Text.IncludesChar` | server/server.js:240 | for a one-character string, `includes` on the word is character membership |
| `Text.Includes` | server/server.js:240 | `String.prototype.includes`: the word contains the guess at some position (its definition; `IncludesChar` states it for one character) |
| `Text.JoinWithSpaces` | server/server.js:245 | `join(' ')` puts the characters at even positions and spaces at odd positions |
| `Engine.Admit` | server/server.js:165-190 | guards in order: game over, then not a participant, then wrong turn; success iff the sender is exactly one of host/guest and holds the turn, and then `isHost == isHostTurn` |
| `Engine.Matches` | server/server.js:170-171 | `slot === data.userId` for a slot holding null or a string: null matches only an empty slot, an absent id matches nothing, a string matches that string |
| `Engine.ReportOutcome` | server/server.js:560-582 | once `trophiesUpdated` is set nothing happens; otherwise the flag is set and a report fires iff the winner is Host or Guest, with +10/-5 and the winner/loser ids and names of the matching sides |
| `Engine.Clamp` | server/server.js:201-206 | the floor after a loss of lives: never negative, and a non-negative count is left alone |
| `Engine.TakeLives` | server/server.js:199-206 | one side loses `amount` lives, exactly when it had that many and down to 0 otherwise; the other side and every other field are unchanged |
| `Engine.ByLives` | server/server.js:214-216 | the winner after the last round: Host iff the host has more lives, Guest iff the guest has more, Draw iff equal |
| `Engine.Advance` | server/server.js:208-223 | the index rises by one, turn and lives kept; at 5 the match ends with the `ByLives` winner; below 5 the next word comes up with a fresh mask and no letters when the list has it, else the step throws with over and winner untouched |
| `Engine.FinalCheck` | server/server.js:285-289 | only over and winner change; both sides alive leaves the room as it is; host at 0 gives the win to Guest, else guest at 0 gives it to Host |
| `Engine.LetterGuess` | server/server.js:229-283 | the letter branch as a function (no contract of its own): a repeated letter is refused, else it is appended; a missing word throws; a hit reveals and, on completion, costs the opponent a life and advances; a miss passes the turn. Its properties are the letter lemmas of `MatchProperties` |
| `Engine.WordGuess` | server/server.js:193-227 | the word branch of `makeGuess` as a function (no contract of its own): a missing word throws, the right word costs the opponent a life and advances, a wrong one passes the turn. See `CompletionAdvances` and `LenientWrongWord` |
| `Engine.HarshWordGuess` | server/server.js:408-444 | `guessWord` after the guards as a function (no contract of its own): the trimmed upper-cased guess against the stored word; right costs the opponent a life, shows the word, advances and passes the turn on a next word; wrong costs the guesser 10 and passes the turn. See `HarshRightStep`, `HarshRightWord`, `HarshWrongWord` |
| `Engine.Settle` | server/server.js:285-289 | a failed step is kept as it is and skips the lives check; a successful one is closed by `FinalCheck`; either way the error, both lives and the word index are kept |
| `Engine.MakeGuessOutcome` | server/server.js:156-289 | `handleMakeGuess` on a found room as a function (no contract of its own): the guards, then the letter or word branch, then the lives check. See `GuardsInOrder`, `MakeGuessKeepsWellFormed`, `MakeGuessKeepsPace` |
| `Engine.GuessWordOutcome` | server/server.js:387-449 | `handleGuessWord` on a found room as a function (no contract of its own): the same guards, the harsh word guess, then the lives check. See `GuessWordKeepsWellFormed`, `GuessWordKeepsPace` |
| `Engine.Deliver` | server/server.js:285-298 | the stored room differs from the outcome's only in the report flag; an error is sent back unchanged with the room as it was left; otherwise the outcome's room is broadcast, a finished match always goes through the report guard (stored room and report are `ReportOutcome`'s), and a running match is stored as it is with no report |
| `MatchProperties.AdvanceKeepsWellFormed` | server/server.js:208-223 | the round advance keeps lives in 0..5 and the index at most 5 (over at 5), raises the index by one, keeps turn and lives |
| `MatchProperties.LetterGuessKeepsWellFormed` | server/server.js:229-283 | a letter guess keeps the room invariant |
| `MatchProperties.WordGuessKeepsWellFormed` | server/server.js:193-227 | a lenient word guess keeps the room invariant |
| `MatchProperties.HarshWordGuessKeepsWellFormed` | server/server.js:408-444 | a harsh word guess keeps the room invariant |
| `MatchProperties.SettleKeepsWellFormed` | server/server.js:285-298 | the lives check and report guard keep the invariant and touch neither lives nor index |
| `MatchProperties.LetterGuessBounds` | server/server.js:229-283 | a letter guess never raises a life and raises the index by at most one |
| `MatchProperties.MakeGuessKeepsWellFormed` | server/server.js:156-299 | every `makeGuess` keeps both lives in 0..5 (broadcast and stored room), never raises a life, and moves the index by 0 or 1 |
| `MatchProperties.GuessWordKeepsWellFormed` | server/server.js:387-458 | the same for every `guessWord` |
| `MatchProperties.AdvancePaced` | server/server.js:208-223 | a round advance after the opponent lost at most one life keeps the pace |
| `MatchProperties.LetterGuessPaced` | server/server.js:229-283 | a letter guess keeps the pace |
| `MatchProperties.WordGuessPaced` | server/server.js:193-227 | a lenient word guess keeps the pace |
| `MatchProperties.HarshWordGuessPaced` | server/server.js:408-449 | a harsh word guess followed by the lives check keeps the pace; a wrong guess leaves the guesser at 0 and the check ends the match |
| `MatchProperties.MakeGuessKeepsPace` | server/server.js:156-299 | every `makeGuess` on a well-formed room on pace keeps the pace, so in the stored room a side at 0 lives means the match is over |
| `MatchProperties.GuessWordKeepsPace` | server/server.js:387-458 | the same for every `guessWord` |
| `MatchProperties.AdvanceSameMatch` | server/server.js:208-223 | the round advance keeps the id, the participants and the word list |
| `MatchProperties.LetterGuessSameMatch` | server/server.js:229-283 | a letter guess keeps the id, the participants and the word list |
| `MatchProperties.WordGuessSameMatch` | server/server.js:193-227 | a lenient word guess keeps the id, the participants and the word list |
| `MatchProperties.HarshWordGuessSameMatch` | server/server.js:408-444 | a harsh word guess keeps the id, the participants and the word list |
| `MatchProperties.DeliverSameMatch` | server/server.js:285-298 | the lives check and report guard keep the id, the participants and the word list |
| `MatchProperties.MakeGuessKeepsId` | server/server.js:156-299 | the room stored after `makeGuess` is the same match (id, players, words) |
| `MatchProperties.GuessWordKeepsId` | server/server.js:387-458 | the room stored after `guessWord` is the same match |
| `MatchProperties.GuardsInOrder` | server/server.js:165-190 | in both handlers: over gives `GameAlreadyOver`, else a stranger gives `NotInRoom`, else the wrong side gives `NotYourTurn`, each with the room unchanged |
| `MatchProperties.AdvanceOnlyThrows` | server/server.js:217-223 | the only error of a round advance is the throw on a missing next word |
| `MatchProperties.LetterRefusalChangesNothing` | server/server.js:230-234 | within a letter guess every error except a throw leaves the room as it was |
| `MatchProperties.WordRefusalOnlyThrows` | server/server.js:193-227 | a lenient word guess fails only by throwing |
| `MatchProperties.HarshRefusalOnlyThrows` | server/server.js:408-444 | a harsh word guess fails only by throwing |
| `MatchProperties.MakeGuessRefusalChangesNothing` | server/server.js:158-234 | a `makeGuess` rejected by a guard or a repeated letter changes nothing |
| `MatchProperties.GuessWordRefusalChangesNothing` | server/server.js:389-407 | a `guessWord` rejected by a guard changes nothing |
| `MatchProperties.RepeatedLetterRefused` | server/server.js:230-234 | an already-guessed letter is refused with `LetterAlreadyGuessed` and the room is unchanged |
| `MatchProperties.MissedLetterPassesTurn` | server/server.js:236-282 | a new letter absent from the word is appended once and flips the turn, nothing else changes (before the lives check, which is quiet when both are alive) |
| `MatchProperties.CorrectLetterReveals` | server/server.js:236-246 | a new present non-completing letter is appended once, keeps the turn and sets the mask to the reveal of the word |
| `MatchProperties.LetterHitIsMembership` | server/server.js:239-240 | a one-character guess hits exactly when its upper case is a character of the upper-cased word |
| `MatchProperties.AdvanceSettled` | server/server.js:208-223 | a round advance plus lives check: index +1, turn and lives kept; at 5 the match ends with the lives winner (a side at 0 loses); before it the next word, fresh mask, no letters; with no next word it throws |
| `MatchProperties.CompletionAdvances` | server/server.js:198-223 | completing the word (exact word or last letter) costs the opponent exactly one life (clamped), raises the index by one, keeps the turn, and ends / moves on / throws as the list allows |
| `MatchProperties.CompletionKeepsRunning` | server/server.js:198-289 | on a room on pace, completing a word before the fifth leaves the match running with no winner and both sides alive, whether the next word comes up or the advance throws |
| `MatchProperties.LenientWrongWord` | server/server.js:224-227 | a wrong `makeGuess` word only flips the turn; no life changes |
| `MatchProperties.HarshWrongWord` | server/server.js:433-449 | a wrong `guessWord` sets the guesser's lives to 0 (minus 10, clamped), flips the turn and ends the match for the other side |
| `MatchProperties.HarshRightStep` | server/server.js:409-432 | a right `guessWord` shows the word, costs the opponent one life, advances, and flips the turn only when a next word came up |
| `MatchProperties.HarshRightWord` | server/server.js:409-432 | a right `guessWord` costs the opponent exactly one life and raises the index by one; at 5 the match ends with the word shown and the turn unchanged |
| `MatchProperties.HarshRightWordNext` | server/server.js:426-432 | with a next word, a right `guessWord` flips the turn and brings up that word with a fresh mask and no letters |
| `MatchProperties.SettleDecides` | server/server.js:285-289 | after the lives check, a side at 0 means the match is over and the other side won |
| `MatchProperties.LivesCheckOverrides` | server/server.js:285-289 | after any successful guess of either kind, a side at 0 ends the match: Guest wins if the host is at 0, else Host, overriding a Draw |
| `MatchProperties.AdvanceStocked` | server/server.js:217-223 | a round advance in a room with five words never throws and keeps the room stocked |
| `MatchProperties.LetterGuessStocked` | server/server.js:247-275 | a letter guess in a room with five words never throws |
| `MatchProperties.MakeGuessStocked` | server/server.js:156-299 | with five words `makeGuess` never throws, and a side at 0 always means the match is over |
| `MatchProperties.GuessWordStocked` | server/server.js:387-458 | the same for `guessWord` |
| `MatchProperties.GameRoomStocked` | server/server.js:313-336 | an auto-match room of at least five words starts well formed and stocked |
| `MatchProperties.ReportAtMostOnce` | server/server.js:560-562 | after the report guard has run, running it again reports nothing and changes nothing |
| `MatchProperties.NoSecondReport` | server/server.js:165-168 | a room that has reported refuses every later guess as over, so no second report fires |
| `MatchProperties.ReportOnlyWhenDecided` | server/server.js:298 | a report fires only from a successful guess that ended the match with a Host or Guest winner, and the stored room is marked reported |
| `MatchProperties.DeliverReportsEnd` | server/server.js:292-298 | a successful outcome that ended a match not yet reported is stored marked as reported, and a report is sent exactly when the winner is Host or Guest |
| `MatchProperties.MakeGuessReportsEnd` | server/server.js:285-298 | every `makeGuess` on a well-formed room that ends the match stores it marked as reported and sends a report exactly when the winner is Host or Guest |
| `MatchProperties.GuessWordReportsEnd` | server/server.js:445-457 | the same for every `guessWord` |
| `Scenarios.Match` | server/server.js:313-354 | an auto-match room joined by a second player is well formed, host to move, on its first word |
| `Scenarios.FirstLetterShown` | server/server.js:229-246 | in a CAT/DOG match the host's `c` gives mask `C _ _`, letters `["C"]` and keeps the host's turn |
| `Scenarios.OneWordMatchThrows` | server/server.js:198-220 | a correct word in a one-word match throws at index 1, after the guest has dropped to 4 lives, and the match is not over |
| `Scenarios.NullSenderMatchesEmptySlots` | server/server.js:170-190 | a `null` sender in a room without a guest is the guest: refused as out of turn while the host holds the turn, admitted as guest once the turn has passed; with a null host slot too it is refused until a guest joins and then plays as host; a sender without an id is not in the room |
| `Scenarios.CreateRoomEndsOnFifthGuess` | server/server.js:198-223 | in a `createRoom` room the host's correct word throws four times, each time costing the guest a life and raising the index while word and turn stay; the fifth ends the match with no error, won by the host, guest at 0, index 5 |
| `Store.FirstOpen` | server/server.js:344-346 | the first room in insertion order with no guest and another host, or none: every earlier room is not open |
| `Store.Occupied` | server/server.js:139 | `if (room.guestId)`: the guest slot holds a truthy (non-empty) id |
| `Store.OpenFor` | server/server.js:345 | the auto-match condition: no guest yet and hosted by someone else |
| `Store.Farewell` | server/server.js:80-86 | the last snapshot of a room its user left: over, and won by the other side, Guest when the host left |
| `Store.Involves` | server/server.js:79 | the disconnect condition: the leaving identity is the host or the guest of the room (`===`, so a null identity matches a null slot) |
| `Store.Surviving` | server/server.js:78-90 | the ids, in insertion order, that the disconnect loop keeps: those whose room does not involve the leaver (a definition; `SurvivingMembers` and `SurvivingDistinct` state its properties) |
| `Store.Dropped` | server/server.js:78-90 | the set of ids the disconnect loop deletes: those whose room involves the leaver (a definition; `DroppedMembers` states it) |
| `Store.Farewells` | server/server.js:78-90 | the final snapshots, in insertion order, the loop broadcasts for the rooms it deletes (a definition; `FarewellsAreForfeits` states them) |
| `Store.Without` | server/server.js:88 | `rooms.delete` on the insertion order: the order without that id, see `WithoutOne` |
| `Store.WithoutOne` | server/server.js:88 | deleting an id that occurs once from the order removes just that occurrence and keeps the rest in order |
| `Store.SurvivingMembers` | server/server.js:78-90 | a room survives the disconnect exactly when it was there and does not involve the leaving user |
| `Store.SurvivingDistinct` | server/server.js:78-90 | the surviving order holds each id once |
| `Store.DroppedMembers` | server/server.js:78-90 | a room is removed exactly when it involves the leaving user |
| `Store.FarewellsAreForfeits` | server/server.js:79-87 | every final snapshot is over, involves the leaving user, and names the other side as winner |
| `Store.NoSurvivorInvolvesLeaver` | server/server.js:74-90 | no surviving room involves the leaving user; an unidentified connection removes every guest-less room |
| `Store.NextRound` | server/server.js:208-223 | the imperative round advance computes `Advance`, failing exactly where it throws |
| `Store.LoseLives` | server/server.js:199-206 | decrement-then-clamp on one side equals `TakeLives` |
| `Store.CloseGuess` | server/server.js:285-289 | the imperative lives check equals `FinalCheck` |
| `Store.CheckGuess` | server/server.js:165-190 | the imperative guards return exactly `Admit` |
| `Store.GuessLetter` | server/server.js:229-283 | the imperative letter branch yields exactly `LetterGuess` |
| `Store.GuessWholeWord` | server/server.js:193-227 | the imperative word branch of `makeGuess` yields exactly `WordGuess` |
| `Store.GuessWordHarshly` | server/server.js:408-444 | the imperative body of `guessWord` yields exactly `HarshWordGuess` |
| `Store.Conclude` | server/server.js:285-298 | the handlers' tail (lives check, broadcast, report guard) equals `Deliver` after `Settle` |
| `Store.ForfeitAll` | server/server.js:78-90 | the disconnect loop keeps the surviving ids in order, deletes exactly the dropped rooms and emits their final snapshots in order |
| `Store.RoomStore.constructor` | server/server.js:22 | the store starts empty |
| `Store.RoomStore.Valid` | server/server.js:22 | the store invariant: each id once, in the order and in the map alike, every room under its own id, well formed, on pace and decisive |
| `Store.RoomStore.CreateRoom` | server/server.js:94-129 | appends the new room at the end of the order and keeps the store valid |
| `Store.RoomStore.JoinRoom` | server/server.js:131-154 | `Room not found` or `Room is full` with nothing changed; otherwise only the guest fields change |
| `Store.RoomStore.AutoMatch` | server/server.js:339-385 | fills the guest of the first open room in insertion order, else appends a new game room (or fails if it cannot be built) |
| `Store.RoomStore.MakeGuess` | server/server.js:156-299 | `Room not found` with nothing changed, else stores and sends `Deliver(MakeGuessOutcome(..))`; the store stays valid |
| `Store.RoomStore.GuessWord` | server/server.js:387-458 | `Room not found` with nothing changed, else stores and sends `Deliver(GuessWordOutcome(..))`; the store stays valid |
| `Store.RoomStore.Disconnect` | server/server.js:72-91 | removes exactly the rooms involving the leaving user, keeps the others unchanged and in order, and returns their forfeited snapshots |

## Left out

- The WebSocket server, JSON parsing and the message switch
  (`server/server.js:19-70`) are I/O. Each handler is a separate method.
  The catch's `Invalid message format` is modelled only where a handler
  throws on the room's own state. Handlers that throw on malformed
  payloads are not modelled.
- The `clients` registry, `broadcastToRoom`, `sendError`, `ws.roomId`
  and the host socket lookup in `handleAutoMatch` are connection
  plumbing. What would be sent is returned as a value.
- The awaited `fetch` calls and the trophy and error broadcasts of
  `handleGameOver` (`server/server.js:584-646`) are remote calls. The
  model keeps the guard, the side selection and the fixed deltas, as a
  `Report` value.
- The DynamoDB helpers and the AWS setup are foreign-service I/O.
- uuid generation is not modelled. Room ids are fresh `nat` keys that the
  caller passes in.
- `getRandomWord` is never called and uses randomness. `wait` is a timer.
  `handleWordInput` is a no-op. The `console.log` calls are left out, and
  so is the unused global `waitingRoom`.
- `server/create-tables.js` is not part of this model. It only creates
  tables.
- Concurrency is not modelled. The server handles one event at a time,
  and each handler is one atomic method.
- The room fields `round` and `categories` are never read, so they are
  not modelled.
- Stored ids are `null` (`None`) or strings. A message's `userId` is
  absent, `null` or a string (`Engine.Sender`). A `userId` of another JSON
  type, such as a number, is not modelled.
- `Store.RoomStore.AutoMatch` requires the requester's id as a string. An
  auto-match request without one would store an undefined `hostId`, which
  a later guess without a `userId` would match. No stored slot is
  undefined in this model.
- Snapshots are values. The server broadcasts the live room object and
  then sets `trophiesUpdated` on it. The model's broadcast snapshot still
  shows the flag unset, while the stored room has it set.
- `Text.Upper`: only ASCII letters are upper-cased. JavaScript's
  `toUpperCase` also maps other letters, some of them to two characters.
- Strings are sequences of characters, not UTF-16 code units. `split('')`
  on astral characters is not modelled.
