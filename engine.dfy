/** The guess transitions of the match engine as functions of one room:
    the guard sequence shared by `handleMakeGuess` and `handleGuessWord`,
    letter guesses, the lenient word guess of `makeGuess`, the harsh
    `guessWord`, the round advance, the lives check that closes every
    successful guess, and the one-shot guard of `handleGameOver`. */
module Engine {
  import opened Wrappers
  import opened Text
  import opened Rooms

  /** The payload of `makeGuess`: a letter, or a whole word when `isWordGuess` is set. */
  datatype Guess = Letter(letter: string) | Word(word: string)

  /** A room after a guess handler has run on it, with the error sent back,
      if any. A handler that throws part-way leaves the room as far as it got,
      because the source mutates the stored room in place. */
  datatype Outcome = Outcome(room: Room, error: Option<Error>)

  /** The synchronous part of outcome reporting: who gains and who loses
      trophies, by how much, and the opponent names sent to the scoring and
      history endpoints and in the final `trophyUpdate` broadcast. */
  datatype Report = Report(
    winnerId: Option<UserId>, loserId: Option<UserId>,
    winnerName: Option<string>, loserName: Option<string>,
    winnerChange: int, loserChange: int)

  /** What a guess handler sends: an `error` to the sender, or a `gameUpdate`
      broadcast of the snapshot followed by the trophy report, if one fires. */
  datatype GuessReply = Refused(error: Error) | Updated(snapshot: Room, report: Option<Report>)

  const WinnerTrophyChange := 10
  const LoserTrophyChange := -5
  /** Lives lost by the guesser of a wrong `guessWord`. */
  const WrongWordPenalty := 10

  /** The floor at 0 that follows every loss of lives. */
  function Clamp(x: int): (c: int)
    ensures c >= 0
    ensures x >= 0 ==> c == x
  {
    if x < 0 then 0 else x
  }

  /** The `userId` of an incoming message: missing (or of a type no stored
      id has), JSON `null`, or a string. */
  datatype Sender = Absent | Null | Id(id: UserId)

  /** `slot === data.userId`, where a stored id slot holds `null` (`None`)
      or a string: `null` matches only `null`, a missing id matches nothing. */
  predicate Matches(slot: Option<UserId>, actor: Sender) {
    match actor
    case Absent => false
    case Null => slot == None
    case Id(u) => slot == Some(u)
  }

  predicate IsHost(r: Room, actor: Sender) {
    Matches(r.hostId, actor)
  }

  predicate IsGuest(r: Room, actor: Sender) {
    Matches(r.guestId, actor)
  }

  /** The guards every guess passes, in the source's order: the match is not
      over, the sender is the host or the guest, and it is the sender's turn.
      On success the result says whether the sender is the host, which is
      then exactly whether it is the host's turn. */
  function Admit(r: Room, actor: Sender): (res: Result<bool, Error>)
    ensures res == Failure(GameAlreadyOver) <==> r.isGameOver
    ensures res == Failure(NotInRoom) <==> !r.isGameOver && !IsHost(r, actor) && !IsGuest(r, actor)
    ensures res.Success? <==>
      !r.isGameOver &&
      ((IsHost(r, actor) && !IsGuest(r, actor) && r.isHostTurn) ||
       (IsGuest(r, actor) && !IsHost(r, actor) && !r.isHostTurn))
    ensures res.Success? ==> res.value == r.isHostTurn && res.value == IsHost(r, actor)
    ensures res.Failure? ==> res.error in {GameAlreadyOver, NotInRoom, NotYourTurn}
  {
    if r.isGameOver then Failure(GameAlreadyOver)
    else
      var isHost := IsHost(r, actor);
      var isGuest := IsGuest(r, actor);
      if !isHost && !isGuest then Failure(NotInRoom)
      else if (isHost && !r.isHostTurn) || (isGuest && r.isHostTurn) then Failure(NotYourTurn)
      else Success(isHost)
  }

  /** One side (the host when `hostSide`) loses `amount` lives, clamped at 0. */
  function TakeLives(r: Room, hostSide: bool, amount: nat): (q: Room)
    ensures q == r.(hostLives := q.hostLives, guestLives := q.guestLives)
    ensures if hostSide then q.guestLives == r.guestLives else q.hostLives == r.hostLives
    ensures var before := if hostSide then r.hostLives else r.guestLives;
      var after := if hostSide then q.hostLives else q.guestLives;
      && after >= 0
      && (before >= amount ==> after == before - amount)
      && (before < amount ==> after == 0)
  {
    if hostSide then r.(hostLives := Clamp(r.hostLives - amount))
    else r.(guestLives := Clamp(r.guestLives - amount))
  }

  /** The winner at the end of the last round: whoever has more lives. */
  function ByLives(hostLives: int, guestLives: int): (w: Winner)
    ensures w == Host <==> hostLives > guestLives
    ensures w == Guest <==> guestLives > hostLives
    ensures w == Draw <==> hostLives == guestLives
  {
    if hostLives > guestLives then Host
    else if guestLives > hostLives then Guest
    else Draw
  }

  /** The round advance: the index goes up by one; at the bound the match
      ends and lives decide it; otherwise the next word of the list comes up
      with a fresh mask and no guessed letters. A room without a list (built
      by `createRoom`) throws on reading it, and a list that is too short
      yields an undefined word whose mask then throws: both end the handler
      with the room as far as it got. */
  function Advance(r: Room): (o: Outcome)
    ensures o.room.currentWordIndex == r.currentWordIndex + 1
    ensures o.room.hostLives == r.hostLives && o.room.guestLives == r.guestLives
    ensures o.room.isHostTurn == r.isHostTurn
    ensures o.error == None || o.error == Some(InvalidMessageFormat)
    ensures r.currentWordIndex + 1 >= Rounds ==>
      o.error == None && o.room.isGameOver && o.room.winner == ByLives(r.hostLives, r.guestLives)
    ensures r.currentWordIndex + 1 < Rounds ==>
      && o.room.isGameOver == r.isGameOver && o.room.winner == r.winner
      && (o.error == None <==> r.words.Some? && r.currentWordIndex + 1 < |r.words.value|)
    ensures r.currentWordIndex + 1 < Rounds && o.error == None ==>
      var next := r.words.value[r.currentWordIndex + 1];
      o.room.word == Some(next) && o.room.maskedWord == Some(CreateMaskedWord(next)) && o.room.guessedLetters == []
  {
    var index := r.currentWordIndex + 1;
    var moved := r.(currentWordIndex := index);
    if index >= Rounds then
      Outcome(moved.(isGameOver := true, winner := ByLives(moved.hostLives, moved.guestLives)), None)
    else
      match r.words
      case None => Outcome(moved, Some(InvalidMessageFormat))
      case Some(words) =>
        if index < |words| then
          Outcome(moved.(word := Some(words[index]), maskedWord := Some(CreateMaskedWord(words[index])),
                         guessedLetters := []), None)
        else Outcome(moved.(word := None), Some(InvalidMessageFormat))
  }

  /** The check that closes every guess that did not fail: a side at 0 lives
      ends the match, and the other side wins, the host being checked first. */
  function FinalCheck(r: Room): (q: Room)
    ensures q == r.(isGameOver := q.isGameOver, winner := q.winner)
    ensures r.hostLives > 0 && r.guestLives > 0 ==> q == r
    ensures r.hostLives <= 0 ==> q.isGameOver && q.winner == Guest
    ensures r.hostLives > 0 && r.guestLives <= 0 ==> q.isGameOver && q.winner == Host
  {
    if r.hostLives <= 0 || r.guestLives <= 0 then
      r.(isGameOver := true, winner := if r.hostLives <= 0 then Guest else Host)
    else r
  }

  /** A letter guess of `makeGuess`, after the guards. */
  function LetterGuess(r: Room, isHost: bool, raw: string): Outcome {
    var letter := Upper(raw);
    if letter in r.guessedLetters then Outcome(r, Some(LetterAlreadyGuessed))
    else
      var pushed := r.(guessedLetters := r.guessedLetters + [letter]);
      match r.word
      case None => Outcome(pushed, Some(InvalidMessageFormat))
      case Some(w) =>
        var current := Upper(w);
        if Includes(current, letter) then
          var shown := pushed.(maskedWord := Some(Reveal(current, pushed.guessedLetters)));
          if AllGuessed(current, pushed.guessedLetters) then Advance(TakeLives(shown, !isHost, 1))
          else Outcome(shown, None)
        else Outcome(pushed.(isHostTurn := !r.isHostTurn), None)
  }

  /** A whole-word guess of `makeGuess`, after the guards: a match costs the
      opponent one life and advances the round; a miss only passes the turn. */
  function WordGuess(r: Room, isHost: bool, raw: string): Outcome {
    var guessed := Upper(raw);
    match r.word
    case None => Outcome(r, Some(InvalidMessageFormat))
    case Some(w) =>
      if guessed == Upper(w) then Advance(TakeLives(r, !isHost, 1))
      else Outcome(r.(isHostTurn := !r.isHostTurn), None)
  }

  /** `guessWord`, after the guards: the trimmed, upper-cased guess is
      compared with the stored word as it is. A match costs the opponent one
      life, shows the word, advances the round and, when a next word comes
      up, passes the turn; a miss costs the guesser ten lives and passes the
      turn. */
  function HarshWordGuess(r: Room, isHost: bool, raw: string): Outcome {
    var guess := Upper(Trim(raw));
    if r.word == Some(guess) then
      var next := Advance(TakeLives(r, !isHost, 1).(maskedWord := r.word));
      if next.error == None && !next.room.isGameOver then
        Outcome(next.room.(isHostTurn := !next.room.isHostTurn), None)
      else next
    else Outcome(TakeLives(r, isHost, WrongWordPenalty).(isHostTurn := !r.isHostTurn), None)
  }

  /** A step that did not fail is closed by the lives check. */
  function Settle(o: Outcome): (s: Outcome)
    ensures s.error == o.error
    ensures o.error != None ==> s == o
    ensures o.error == None ==> s == Outcome(FinalCheck(o.room), None)
    ensures s.room.hostLives == o.room.hostLives && s.room.guestLives == o.room.guestLives
    ensures s.room.currentWordIndex == o.room.currentWordIndex
  {
    if o.error == None then Outcome(FinalCheck(o.room), None) else o
  }

  /** `handleMakeGuess` on the room it found. */
  function MakeGuessOutcome(r: Room, actor: Sender, g: Guess): Outcome {
    match Admit(r, actor)
    case Failure(e) => Outcome(r, Some(e))
    case Success(isHost) =>
      Settle(match g
             case Letter(l) => LetterGuess(r, isHost, l)
             case Word(w) => WordGuess(r, isHost, w))
  }

  /** `handleGuessWord` on the room it found. */
  function GuessWordOutcome(r: Room, actor: Sender, raw: string): Outcome {
    match Admit(r, actor)
    case Failure(e) => Outcome(r, Some(e))
    case Success(isHost) => Settle(HarshWordGuess(r, isHost, raw))
  }

  /** The synchronous prefix of `handleGameOver`. A room that has reported
      already is left alone; otherwise the room is marked as reported, and a
      report fires only when there is a winner: +10 for the winner and -5
      for the loser, the ids and names taken from the winning and losing
      sides. */
  function ReportOutcome(r: Room): (res: (Room, Option<Report>))
    ensures r.trophiesUpdated ==> res == (r, None)
    ensures !r.trophiesUpdated ==> res.0 == r.(trophiesUpdated := true)
    ensures res.1.Some? <==> !r.trophiesUpdated && r.winner in {Host, Guest}
    ensures res.1.Some? ==>
      var rep := res.1.value;
      && rep.winnerChange == 10 && rep.loserChange == -5
      && rep.winnerId == (if r.winner == Host then r.hostId else r.guestId)
      && rep.loserId == (if r.winner == Host then r.guestId else r.hostId)
      && rep.winnerName == (if r.winner == Host then r.host.username else r.guest.username)
      && rep.loserName == (if r.winner == Host then r.guest.username else r.host.username)
  {
    if r.trophiesUpdated then (r, None)
    else
      var marked := r.(trophiesUpdated := true);
      match r.winner
      case Host =>
        (marked, Some(Report(r.hostId, r.guestId, r.host.username, r.guest.username,
                             WinnerTrophyChange, LoserTrophyChange)))
      case Guest =>
        (marked, Some(Report(r.guestId, r.hostId, r.guest.username, r.host.username,
                             WinnerTrophyChange, LoserTrophyChange)))
      case _ => (marked, None)
  }

  /** What a guess handler stores and sends for an outcome: a failed step
      sends its error; a successful one broadcasts the snapshot and, when the
      match is over, runs the report guard on the stored room. */
  function Deliver(o: Outcome): (d: (Room, GuessReply))
    ensures d.0 == o.room.(trophiesUpdated := d.0.trophiesUpdated)
    ensures d.1.Refused? <==> o.error.Some?
    ensures o.error.Some? ==> d == (o.room, Refused(o.error.value))
    ensures o.error == None ==> d.1.snapshot == o.room
    ensures d.1.Updated? && d.1.report.Some? ==> o.room.isGameOver && d.0.trophiesUpdated
    ensures o.error == None && o.room.isGameOver ==>
      d == (ReportOutcome(o.room).0, Updated(o.room, ReportOutcome(o.room).1))
    ensures o.error == None && !o.room.isGameOver ==> d == (o.room, Updated(o.room, None))
  {
    match o.error
    case Some(e) => (o.room, Refused(e))
    case None =>
      if o.room.isGameOver then
        var (stored, report) := ReportOutcome(o.room);
        (stored, Updated(o.room, report))
      else (o.room, Updated(o.room, None))
  }
}
