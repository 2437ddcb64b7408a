/** The server's room store (the `rooms` Map, kept in insertion order) and
    the handlers that change it: `handleCreateRoom`, `handleJoinRoom`,
    `handleAutoMatch`, `handleMakeGuess`, `handleGuessWord` and the
    disconnect loop of the connection's `close` handler. Each handler
    returns what it would send instead of sending it. */
module Store {
  import opened Wrappers
  import opened Text
  import opened Rooms
  import opened Engine
  import MatchProperties

  /** What `autoMatch` sends: `gameStart` to both players of the room it
      joined, `waitingForOpponent` to the requester of a new room, or an
      error when building the new room throws. */
  datatype MatchReply = GameStarted(room: Room) | WaitingForOpponent(room: Room) | MatchRefused(error: Error)

  predicate Distinct(ids: seq<RoomId>) {
    forall i, j :: 0 <= i < j < |ids| ==> ids[i] != ids[j]
  }

  /** `if (room.guestId)`: the guest slot holds a truthy id, so an empty
      id leaves the room open to `joinRoom`. */
  predicate Occupied(r: Room) {
    r.guestId.Some? && r.guestId.value != ""
  }

  /** The auto-match search condition: no guest yet, and not hosted by the
      requester. */
  predicate OpenFor(r: Room, requester: UserId) {
    r.guestId == None && r.hostId != Some(requester)
  }

  /** `Array.from(rooms.values()).find(...)`: the position of the first open
      room in insertion order, or the length of the order when there is none. */
  function FirstOpen(ids: seq<RoomId>, rooms: map<RoomId, Room>, requester: UserId): (k: nat)
    requires forall id :: id in ids ==> id in rooms
    ensures k <= |ids|
    ensures k < |ids| ==> OpenFor(rooms[ids[k]], requester)
    ensures forall j :: 0 <= j < k ==> !OpenFor(rooms[ids[j]], requester)
  {
    if ids == [] then 0
    else if OpenFor(rooms[ids[0]], requester) then 0
    else
      var k := 1 + FirstOpen(ids[1..], rooms, requester);
      assert forall j :: 1 <= j < k ==> ids[j] == ids[1..][j - 1];
      k
  }

  /** The room involves the user who left, as host or as guest. */
  predicate Involves(r: Room, leaving: Option<UserId>) {
    r.hostId == leaving || r.guestId == leaving
  }

  /** The last snapshot of a room its user left: over, and won by the other
      side. */
  function Farewell(r: Room, leaving: Option<UserId>): Room {
    r.(isGameOver := true, winner := if r.hostId == leaving then Guest else Host)
  }

  /** The ids, in order, of the rooms the disconnect loop keeps. */
  function Surviving(ids: seq<RoomId>, rooms: map<RoomId, Room>, leaving: Option<UserId>): seq<RoomId>
    requires forall id :: id in ids ==> id in rooms
  {
    if ids == [] then []
    else
      var last := ids[|ids| - 1];
      Surviving(ids[..|ids| - 1], rooms, leaving) + (if Involves(rooms[last], leaving) then [] else [last])
  }

  /** The final snapshots, in order, of the rooms the disconnect loop removes. */
  function Farewells(ids: seq<RoomId>, rooms: map<RoomId, Room>, leaving: Option<UserId>): seq<Room>
    requires forall id :: id in ids ==> id in rooms
  {
    if ids == [] then []
    else
      var last := ids[|ids| - 1];
      Farewells(ids[..|ids| - 1], rooms, leaving) +
        (if Involves(rooms[last], leaving) then [Farewell(rooms[last], leaving)] else [])
  }

  /** The ids of the rooms the disconnect loop removes. */
  function Dropped(ids: seq<RoomId>, rooms: map<RoomId, Room>, leaving: Option<UserId>): set<RoomId>
    requires forall id :: id in ids ==> id in rooms
  {
    if ids == [] then {}
    else
      var last := ids[|ids| - 1];
      Dropped(ids[..|ids| - 1], rooms, leaving) + (if Involves(rooms[last], leaving) then {last} else {})
  }

  /** `rooms.delete(x)` on the insertion order. */
  function Without(ids: seq<RoomId>, x: RoomId): seq<RoomId> {
    if ids == [] then [] else (if ids[0] == x then [] else [ids[0]]) + Without(ids[1..], x)
  }

  lemma {:induction false} WithoutAbsent(ids: seq<RoomId>, x: RoomId)
    requires x !in ids
    ensures Without(ids, x) == ids
  {
    if ids != [] {
      WithoutAbsent(ids[1..], x);
    }
  }

  lemma {:induction false} WithoutAppend(a: seq<RoomId>, b: seq<RoomId>, x: RoomId)
    ensures Without(a + b, x) == Without(a, x) + Without(b, x)
  {
    if a == [] {
      assert a + b == b;
    } else {
      assert (a + b)[1..] == a[1..] + b;
      WithoutAppend(a[1..], b, x);
    }
  }

  /** Deleting a key that occurs once removes just that occurrence. */
  lemma WithoutOne(before: seq<RoomId>, x: RoomId, after: seq<RoomId>)
    requires x !in before && x !in after
    ensures Without(before + ([x] + after), x) == before + after
  {
    var w := [x] + after;
    assert w[0] == x && w[1..] == after;
    WithoutAbsent(after, x);
    assert Without(w, x) == after;
    WithoutAppend(before, w, x);
    WithoutAbsent(before, x);
  }

  /** A room survives exactly when it was there and does not involve the
      user who left. */
  lemma {:induction false} SurvivingMembers(ids: seq<RoomId>, rooms: map<RoomId, Room>, leaving: Option<UserId>)
    requires forall id :: id in ids ==> id in rooms
    ensures forall id :: id in Surviving(ids, rooms, leaving) <==> id in ids && !Involves(rooms[id], leaving)
  {
    if ids != [] {
      var init := ids[..|ids| - 1];
      assert ids == init + [ids[|ids| - 1]];
      SurvivingMembers(init, rooms, leaving);
    }
  }

  lemma {:induction false} SurvivingDistinct(ids: seq<RoomId>, rooms: map<RoomId, Room>, leaving: Option<UserId>)
    requires forall id :: id in ids ==> id in rooms
    requires Distinct(ids)
    ensures Distinct(Surviving(ids, rooms, leaving))
  {
    if ids != [] {
      var init := ids[..|ids| - 1];
      var last := ids[|ids| - 1];
      assert ids == init + [last];
      assert Distinct(init);
      SurvivingDistinct(init, rooms, leaving);
      SurvivingMembers(init, rooms, leaving);
      assert last !in init;
    }
  }

  /** Every removed room's last snapshot is over, is won by the side that
      stayed, and involves the user who left. */
  lemma {:induction false} FarewellsAreForfeits(ids: seq<RoomId>, rooms: map<RoomId, Room>, leaving: Option<UserId>)
    requires forall id :: id in ids ==> id in rooms
    ensures forall f :: f in Farewells(ids, rooms, leaving) ==>
      f.isGameOver && Involves(f, leaving) &&
      f.winner == (if f.hostId == leaving then Guest else Host)
  {
    if ids != [] {
      FarewellsAreForfeits(ids[..|ids| - 1], rooms, leaving);
    }
  }

  /** Cutting a sequence one element further. */
  lemma PrefixStep(ids: seq<RoomId>, i: nat)
    requires Distinct(ids) && i < |ids|
    ensures ids[..i + 1] == ids[..i] + [ids[i]] && ids[..i + 1][..i] == ids[..i]
    ensures ids[i..] == [ids[i]] + ids[i + 1..]
    ensures ids[i] !in ids[..i] && ids[i] !in ids[i + 1..]
  {
  }

  /** One iteration of the disconnect loop on the snapshots sent: a visited
      room that involves the user who left adds its last snapshot. */
  lemma FarewellsStep(ids: seq<RoomId>, rooms: map<RoomId, Room>, leaving: Option<UserId>, i: nat)
    requires forall id :: id in ids ==> id in rooms
    requires Distinct(ids) && i < |ids|
    ensures Farewells(ids[..i + 1], rooms, leaving) == Farewells(ids[..i], rooms, leaving) +
      (if Involves(rooms[ids[i]], leaving) then [Farewell(rooms[ids[i]], leaving)] else [])
  {
    PrefixStep(ids, i);
  }

  /** One iteration of the disconnect loop on the order: a visited room that
      involves the user who left is deleted from it, any other is kept. */
  lemma SurvivingStep(ids: seq<RoomId>, rooms: map<RoomId, Room>, leaving: Option<UserId>, i: nat)
    requires forall id :: id in ids ==> id in rooms
    requires Distinct(ids) && i < |ids|
    ensures Involves(rooms[ids[i]], leaving) ==>
      Surviving(ids[..i + 1], rooms, leaving) + ids[i + 1..] ==
        Without(Surviving(ids[..i], rooms, leaving) + ids[i..], ids[i])
    ensures !Involves(rooms[ids[i]], leaving) ==>
      Surviving(ids[..i + 1], rooms, leaving) + ids[i + 1..] ==
        Surviving(ids[..i], rooms, leaving) + ids[i..]
  {
    PrefixStep(ids, i);
    var id, done, rest := ids[i], ids[..i], ids[i + 1..];
    var kept := Surviving(done, rooms, leaving);
    assert Surviving(ids[..i + 1], rooms, leaving) ==
      kept + (if Involves(rooms[id], leaving) then [] else [id]);
    if Involves(rooms[id], leaving) {
      SurvivingMembers(done, rooms, leaving);
      WithoutOne(kept, id, rest);
    } else {
      assert kept + [id] + rest == kept + ([id] + rest);
    }
  }

  /** A room is removed exactly when it was visited and involves the user
      who left. */
  lemma {:induction false} DroppedMembers(ids: seq<RoomId>, rooms: map<RoomId, Room>, leaving: Option<UserId>)
    requires forall id :: id in ids ==> id in rooms
    ensures forall id :: id in Dropped(ids, rooms, leaving) <==> id in ids && Involves(rooms[id], leaving)
  {
    if ids != [] {
      var init := ids[..|ids| - 1];
      assert ids == init + [ids[|ids| - 1]];
      DroppedMembers(init, rooms, leaving);
    }
  }

  /** One iteration of the disconnect loop on the map: a visited room that
      involves the user who left is deleted from it. */
  lemma DroppedStep(ids: seq<RoomId>, rooms: map<RoomId, Room>, leaving: Option<UserId>, i: nat)
    requires forall id :: id in ids ==> id in rooms
    requires Distinct(ids) && i < |ids|
    ensures Dropped(ids[..i + 1], rooms, leaving) ==
      Dropped(ids[..i], rooms, leaving) + (if Involves(rooms[ids[i]], leaving) then {ids[i]} else {})
  {
    PrefixStep(ids, i);
  }

  /** Whoever leaves, no surviving room involves them. In particular a
      connection that never identified itself (identity `None`) removes
      every room that still has no guest. */
  lemma NoSurvivorInvolvesLeaver(ids: seq<RoomId>, rooms: map<RoomId, Room>, leaving: Option<UserId>)
    requires forall id :: id in ids ==> id in rooms
    ensures forall id :: id in Surviving(ids, rooms, leaving) ==> id in ids && !Involves(rooms[id], leaving)
    ensures leaving == None ==>
      forall id :: id in Surviving(ids, rooms, leaving) ==> id in ids && rooms[id].guestId.Some?
  {
    SurvivingMembers(ids, rooms, leaving);
  }

  /** One round advance, step by step as the handlers write it; `failed`
      says that the handler threw part-way. */
  method NextRound(room: Room) returns (next: Room, failed: bool)
    ensures Advance(room) == Outcome(next, if failed then Some(InvalidMessageFormat) else None)
  {
    next := room.(currentWordIndex := room.currentWordIndex + 1);
    failed := false;
    if next.currentWordIndex >= Rounds {
      next := next.(isGameOver := true);
      if next.hostLives > next.guestLives {
        next := next.(winner := Host);
      } else if next.guestLives > next.hostLives {
        next := next.(winner := Guest);
      } else {
        next := next.(winner := Draw);
      }
    } else if next.words == None {
      // reading words[index] of a room that has no list throws
      failed := true;
    } else if next.currentWordIndex >= |next.words.value| {
      // words[index] is undefined, and building its mask throws
      next := next.(word := None);
      failed := true;
    } else {
      var word := next.words.value[next.currentWordIndex];
      next := next.(word := Some(word));
      next := next.(maskedWord := Some(CreateMaskedWord(word)));
      next := next.(guessedLetters := []);
    }
  }

  /** `lives -= amount; if (lives < 0) lives = 0;` on one side. */
  method LoseLives(room: Room, hostSide: bool, amount: nat) returns (next: Room)
    ensures next == TakeLives(room, hostSide, amount)
  {
    next := room;
    if hostSide {
      next := next.(hostLives := next.hostLives - amount);
      if next.hostLives < 0 {
        next := next.(hostLives := 0);
      }
    } else {
      next := next.(guestLives := next.guestLives - amount);
      if next.guestLives < 0 {
        next := next.(guestLives := 0);
      }
    }
  }

  class RoomStore {
    /** The room ids in insertion order. */
    var order: seq<RoomId>
    /** The rooms by id. */
    var rooms: map<RoomId, Room>

    /** The store holds each id once, in the order and in the map alike,
        every room under its own id, every room well formed and on pace, and
        so every room with a side at 0 lives over. */
    ghost predicate Valid()
      reads this
    {
      && Distinct(order)
      && (forall id :: id in rooms <==> id in order)
      && (forall id :: id in rooms ==>
            rooms[id].id == id && WellFormed(rooms[id]) && Paced(rooms[id]) && Decisive(rooms[id]))
    }

    constructor ()
      ensures Valid() && order == [] && rooms == map[]
    {
      order := [];
      rooms := map[];
    }

    /** `handleCreateRoom`: adds a new room for the given fresh id at the end
        of the order; the creator is sent `roomCreated` with the id and the
        room is broadcast as `snapshot`. */
    method CreateRoom(id: RoomId, conn: Option<UserId>, word: string,
                      userTag: Option<string>, hostName: Option<string>) returns (snapshot: Room)
      requires Valid() && id !in rooms
      modifies this
      ensures Valid()
      ensures snapshot == NewRoom(id, conn, word, userTag, hostName)
      ensures order == old(order) + [id] && rooms == old(rooms)[id := snapshot]
    {
      snapshot := NewRoom(id, conn, word, userTag, hostName);
      rooms := rooms[id := snapshot];
      order := order + [id];
    }

    /** `handleJoinRoom`: fails when the room is missing or already has a
        guest; otherwise sets the guest fields only (the connection's identity,
        tag and name) and broadcasts the room. */
    method JoinRoom(id: RoomId, conn: Option<UserId>, userTag: Option<string>,
                    guestName: Option<string>) returns (reply: Result<Room, Error>)
      requires Valid()
      modifies this
      ensures Valid() && order == old(order)
      ensures id !in old(rooms) ==> reply == Failure(RoomNotFound) && rooms == old(rooms)
      ensures id in old(rooms) && Occupied(old(rooms)[id]) ==>
        reply == Failure(RoomFull) && rooms == old(rooms)
      ensures id in old(rooms) && !Occupied(old(rooms)[id]) ==>
        var r := old(rooms)[id];
        var joined := r.(guestId := conn,
                         guest := r.guest.(userTag := Some(userTag.GetOr("")), name := Some(guestName.GetOr(""))));
        reply == Success(joined) && rooms == old(rooms)[id := joined]
    {
      if id !in rooms {
        return Failure(RoomNotFound);
      }
      var room := rooms[id];
      if room.guestId.Some? && room.guestId.value != "" {
        return Failure(RoomFull);
      }
      room := room.(guestId := conn);
      room := room.(guest := room.guest.(userTag := Some(userTag.GetOr(""))));
      room := room.(guest := room.guest.(name := Some(guestName.GetOr(""))));
      rooms := rooms[id := room];
      reply := Success(room);
    }

    /** `handleAutoMatch`: joins the first room in insertion order that has
        no guest and is not hosted by the requester, filling its guest
        fields; with no such room, opens a new room of the given words under
        the given fresh id at the end of the order. */
    method AutoMatch(newId: RoomId, requester: UserId, username: Option<string>,
                     gladiator: Option<string>, trophies: Option<int>,
                     words: seq<string>) returns (reply: MatchReply)
      requires Valid() && newId !in rooms
      modifies this
      ensures Valid()
      ensures var k := FirstOpen(old(order), old(rooms), requester);
        if k < |old(order)| then
          var r := old(rooms)[old(order)[k]];
          var joined := r.(guestId := Some(requester),
                           guest := r.guest.(username := username, gladiator := gladiator,
                                             trophies := Some(trophies.GetOr(0))));
          reply == GameStarted(joined) && order == old(order) && rooms == old(rooms)[old(order)[k] := joined]
        else
          match NewGameRoom(newId, requester, username, gladiator, trophies, words)
          case None => reply == MatchRefused(InvalidMessageFormat) && order == old(order) && rooms == old(rooms)
          case Some(created) =>
            reply == WaitingForOpponent(created) && order == old(order) + [newId] && rooms == old(rooms)[newId := created]
    {
      var k := FirstOpen(order, rooms, requester);
      if k < |order| {
        var id := order[k];
        var room := rooms[id];
        room := room.(guestId := Some(requester));
        room := room.(guest := room.guest.(username := username));
        room := room.(guest := room.guest.(gladiator := gladiator));
        room := room.(guest := room.guest.(trophies := Some(trophies.GetOr(0))));
        rooms := rooms[id := room];
        reply := GameStarted(room);
      } else {
        var made := NewGameRoom(newId, requester, username, gladiator, trophies, words);
        if made == None {
          return MatchRefused(InvalidMessageFormat);
        }
        rooms := rooms[newId := made.value];
        order := order + [newId];
        reply := WaitingForOpponent(made.value);
      }
    }

    /** `handleMakeGuess`: the room lookup, then the handler's steps on the
        stored room. A refused guess changes nothing, a handler that throws
        leaves the room as far as it got, and a successful one broadcasts the
        room and, once the match is over, runs the report guard. */
    method MakeGuess(id: RoomId, actor: Sender, guess: Guess) returns (reply: GuessReply)
      requires Valid()
      modifies this
      ensures Valid() && order == old(order)
      ensures id !in old(rooms) ==> reply == Refused(RoomNotFound) && rooms == old(rooms)
      ensures id in old(rooms) ==>
        var (stored, sent) := Deliver(MakeGuessOutcome(old(rooms)[id], actor, guess));
        reply == sent && rooms == old(rooms)[id := stored]
    {
      if id !in rooms {
        return Refused(RoomNotFound);
      }
      var room := rooms[id];
      var admitted := CheckGuess(room, actor);
      if admitted.Failure? {
        return Refused(admitted.error);
      }
      var next, error;
      match guess {
        case Letter(raw) => next, error := GuessLetter(room, admitted.value, raw);
        case Word(raw) => next, error := GuessWholeWord(room, admitted.value, raw);
      }
      assert MakeGuessOutcome(room, actor, guess) == Settle(Outcome(next, error));
      var stored;
      stored, reply := Conclude(next, error);
      MatchProperties.MakeGuessKeepsWellFormed(room, actor, guess);
      MatchProperties.MakeGuessKeepsId(room, actor, guess);
      MatchProperties.MakeGuessKeepsPace(room, actor, guess);
      rooms := rooms[id := stored];
    }

    /** `handleGuessWord`: the room lookup, the same guards, then the harsh
        word guess on the stored room. */
    method GuessWord(id: RoomId, actor: Sender, raw: string) returns (reply: GuessReply)
      requires Valid()
      modifies this
      ensures Valid() && order == old(order)
      ensures id !in old(rooms) ==> reply == Refused(RoomNotFound) && rooms == old(rooms)
      ensures id in old(rooms) ==>
        var (stored, sent) := Deliver(GuessWordOutcome(old(rooms)[id], actor, raw));
        reply == sent && rooms == old(rooms)[id := stored]
    {
      if id !in rooms {
        return Refused(RoomNotFound);
      }
      var room := rooms[id];
      var admitted := CheckGuess(room, actor);
      if admitted.Failure? {
        return Refused(admitted.error);
      }
      var next, error := GuessWordHarshly(room, admitted.value, raw);
      assert GuessWordOutcome(room, actor, raw) == Settle(Outcome(next, error));
      var stored;
      stored, reply := Conclude(next, error);
      MatchProperties.GuessWordKeepsWellFormed(room, actor, raw);
      MatchProperties.GuessWordKeepsId(room, actor, raw);
      MatchProperties.GuessWordKeepsPace(room, actor, raw);
      rooms := rooms[id := stored];
    }
    /** The disconnect loop: every room whose host or guest is the user who
        left is broadcast one last time as forfeited and deleted; every other
        room stays, unchanged and in order. */
    method Disconnect(leaving: Option<UserId>) returns (farewells: seq<Room>)
      requires Valid()
      modifies this
      ensures Valid()
      ensures order == Surviving(old(order), old(rooms), leaving)
      ensures rooms == old(rooms) - Dropped(old(order), old(rooms), leaving)
      ensures forall id :: id in rooms <==> id in old(rooms) && !Involves(old(rooms)[id], leaving)
      ensures farewells == Farewells(old(order), old(rooms), leaving)
    {
      assert forall id :: id in order ==> id in rooms;
      var kept, remaining;
      kept, remaining, farewells := ForfeitAll(order, rooms, leaving);
      SurvivingMembers(order, rooms, leaving);
      SurvivingDistinct(order, rooms, leaving);
      DroppedMembers(order, rooms, leaving);
      order, rooms := kept, remaining;
    }
  }

  /** The `for...of` loop of the `close` handler over the rooms in insertion
      order: each room that involves the user who left gets its last
      snapshot and is deleted, from the order and from the map. */
  method ForfeitAll(ids: seq<RoomId>, rooms: map<RoomId, Room>, leaving: Option<UserId>)
    returns (kept: seq<RoomId>, remaining: map<RoomId, Room>, farewells: seq<Room>)
    requires forall id :: id in ids ==> id in rooms
    requires Distinct(ids)
    ensures kept == Surviving(ids, rooms, leaving)
    ensures remaining == rooms - Dropped(ids, rooms, leaving)
    ensures farewells == Farewells(ids, rooms, leaving)
  {
    assert ids[..0] == [] && ids[0..] == ids;
    assert rooms - {} == rooms;
    kept, remaining, farewells := ids, rooms, [];
    var i := 0;
    while i < |ids|
      invariant 0 <= i <= |ids|
      invariant kept == Surviving(ids[..i], rooms, leaving) + ids[i..]
      invariant remaining == rooms - Dropped(ids[..i], rooms, leaving)
      invariant farewells == Farewells(ids[..i], rooms, leaving)
    {
      var id := ids[i];
      PrefixStep(ids, i);
      FarewellsStep(ids, rooms, leaving, i);
      SurvivingStep(ids, rooms, leaving, i);
      DroppedStep(ids, rooms, leaving, i);
      var room := rooms[id];
      if Involves(room, leaving) {
        farewells := farewells + [Farewell(room, leaving)];
        kept := Without(kept, id);
        remaining := remaining - {id};
      }
      i := i + 1;
    }
    assert ids[..i] == ids;
  }

  /** The lives check that closes a guess, step by step. */
  method CloseGuess(room: Room) returns (next: Room)
    ensures next == FinalCheck(room)
  {
    next := room;
    if next.hostLives <= 0 || next.guestLives <= 0 {
      next := next.(isGameOver := true);
      next := next.(winner := if next.hostLives <= 0 then Guest else Host);
    }
  }

  /** The guards of both guess handlers, step by step: the match is not over,
      the sender is in the room, and it is the sender's turn. */
  method CheckGuess(room: Room, actor: Sender) returns (res: Result<bool, Error>)
    ensures res == Admit(room, actor)
  {
    if room.isGameOver {
      return Failure(GameAlreadyOver);
    }
    var isHost := Matches(room.hostId, actor);
    var isGuest := Matches(room.guestId, actor);
    if !isHost && !isGuest {
      return Failure(NotInRoom);
    }
    if (isHost && !room.isHostTurn) || (isGuest && room.isHostTurn) {
      return Failure(NotYourTurn);
    }
    return Success(isHost);
  }

  /** The letter branch of `handleMakeGuess`, step by step on the room. */
  method GuessLetter(room: Room, isHost: bool, raw: string) returns (next: Room, error: Option<Error>)
    ensures LetterGuess(room, isHost, raw) == Outcome(next, error)
  {
    var letter := Upper(raw);
    next := room;
    if letter in next.guessedLetters {
      return next, Some(LetterAlreadyGuessed);
    }
    next := next.(guessedLetters := next.guessedLetters + [letter]);
    if next.word == None {
      // upper-casing the missing word throws
      return next, Some(InvalidMessageFormat);
    }
    var currentWord := Upper(next.word.value);
    error := None;
    if Includes(currentWord, letter) {
      next := next.(maskedWord := Some(Reveal(currentWord, next.guessedLetters)));
      if AllGuessed(currentWord, next.guessedLetters) {
        next := LoseLives(next, !isHost, 1);
        var failed;
        next, failed := NextRound(next);
        if failed {
          error := Some(InvalidMessageFormat);
        }
      }
    } else {
      next := next.(isHostTurn := !next.isHostTurn);
    }
  }

  /** The whole-word branch of `handleMakeGuess`, step by step on the room. */
  method GuessWholeWord(room: Room, isHost: bool, raw: string) returns (next: Room, error: Option<Error>)
    ensures WordGuess(room, isHost, raw) == Outcome(next, error)
  {
    var guessedWord := Upper(raw);
    next := room;
    if next.word == None {
      // upper-casing the missing word throws
      return next, Some(InvalidMessageFormat);
    }
    var currentWord := Upper(next.word.value);
    error := None;
    if guessedWord == currentWord {
      next := LoseLives(next, !isHost, 1);
      var failed;
      next, failed := NextRound(next);
      if failed {
        error := Some(InvalidMessageFormat);
      }
    } else {
      next := next.(isHostTurn := !next.isHostTurn);
    }
  }

  /** `handleGuessWord` after the guards, step by step on the room. */
  method GuessWordHarshly(room: Room, isHost: bool, raw: string) returns (next: Room, error: Option<Error>)
    ensures HarshWordGuess(room, isHost, raw) == Outcome(next, error)
  {
    var guess := Upper(Trim(raw));
    next := room;
    error := None;
    if next.word == Some(guess) {
      next := LoseLives(next, !isHost, 1);
      next := next.(maskedWord := next.word);
      var failed;
      next, failed := NextRound(next);
      if failed {
        error := Some(InvalidMessageFormat);
      } else if !next.isGameOver {
        next := next.(isHostTurn := !next.isHostTurn);
      }
    } else {
      next := LoseLives(next, isHost, WrongWordPenalty);
      next := next.(isHostTurn := !next.isHostTurn);
    }
  }

  /** The tail shared by both guess handlers: a step that threw reports the
      error; otherwise the lives check runs, the room is broadcast, and a
      finished match goes through the report guard. */
  method Conclude(room: Room, error: Option<Error>) returns (stored: Room, reply: GuessReply)
    ensures (stored, reply) == Deliver(Settle(Outcome(room, error)))
  {
    if error.Some? {
      return room, Refused(error.value);
    }
    var snapshot := CloseGuess(room);
    stored := snapshot;
    var report := None;
    if snapshot.isGameOver {
      stored, report := ReportOutcome(snapshot).0, ReportOutcome(snapshot).1;
    }
    reply := Updated(snapshot, report);
  }
}
