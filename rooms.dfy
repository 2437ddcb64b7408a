/** The room record of the game server (server/server.js), the error kinds
    its handlers report, the word masks, and the two ways a room is built:
    by `createRoom` with one word and by auto-match with a list of words. */
module Rooms {
  import opened Wrappers
  import opened Text

  type UserId = string
  /** Room ids are fresh keys chosen by the caller (the source draws uuids). */
  type RoomId = nat

  /** Both players start every match with this many lives. */
  const StartingLives := 5
  /** A match ends once the word index reaches this bound. */
  const Rounds := 5

  datatype Winner = Unset | Host | Guest | Draw

  /** Display metadata of one side of a room. `None` stands for a field the
      source leaves null or never sets: `createRoom` fills `userTag` and
      `name` (hostUserId/hostName), auto-match fills `username`, `gladiator`
      and `trophies`. The engine never reads them except in the trophy report. */
  datatype Seat = Seat(
    userTag: Option<string>,
    name: Option<string>,
    username: Option<string>,
    gladiator: Option<string>,
    trophies: Option<int>)

  /** One match. `word` is `None` once a round advance has read past the
      end of the words list; `words` is `None` for a room built by
      `createRoom`, which has no list; `maskedWord` is `None` until the first
      correct letter in a `createRoom` room. A missing `currentWordIndex`,
      which the source reads as 0, is 0 here. */
  datatype Room = Room(
    id: RoomId,
    hostId: Option<UserId>,
    guestId: Option<UserId>,
    host: Seat,
    guest: Seat,
    word: Option<string>,
    words: Option<seq<string>>,
    currentWordIndex: nat,
    maskedWord: Option<string>,
    guessedLetters: seq<string>,
    hostLives: int,
    guestLives: int,
    isHostTurn: bool,
    isGameOver: bool,
    winner: Winner,
    trophiesUpdated: bool)

  /** The errors sent back to the offending connection. `InvalidMessageFormat`
      is what the message loop's catch reports when a handler throws. */
  datatype Error =
    | RoomNotFound
    | RoomFull
    | GameAlreadyOver
    | NotInRoom
    | NotYourTurn
    | LetterAlreadyGuessed
    | InvalidMessageFormat

  /** The text carried by the outgoing `error` message. */
  function ErrorText(e: Error): (text: string)
    ensures text != []
  {
    match e
    case RoomNotFound => "Room not found"
    case RoomFull => "Room is full"
    case GameAlreadyOver => "Game is already over"
    case NotInRoom => "You are not in this room"
    case NotYourTurn => "Not your turn"
    case LetterAlreadyGuessed => "Letter already guessed"
    case InvalidMessageFormat => "Invalid message format"
  }

  /** Different errors carry different texts. */
  lemma ErrorTextInjective(a: Error, b: Error)
    ensures ErrorText(a) == ErrorText(b) ==> a == b
  {
  }

  /** The mask of a new word: one underscore per character, separated by
      single spaces. */
  function CreateMaskedWord(word: string): (r: string)
    ensures |r| == if word == [] then 0 else 2 * |word| - 1
    ensures forall i :: 0 <= i < |r| ==> r[i] == if i % 2 == 0 then '_' else ' '
  {
    JoinWithSpaces(seq(|word|, _ => '_'))
  }

  /** A character of the word is shown once its upper-cased form is among the
      guessed letters. */
  predicate Shown(c: char, guessed: seq<string>) {
    [UpperChar(c)] in guessed
  }

  /** The per-character step of the reveal: shown characters stay, the others
      become underscores. */
  function RevealedChars(word: string, guessed: seq<string>): seq<char> {
    seq(|word|, i requires 0 <= i < |word| => if Shown(word[i], guessed) then word[i] else '_')
  }

  /** The mask after a correct letter: the word's characters, each one not yet
      guessed replaced by an underscore, separated by single spaces. */
  function Reveal(word: string, guessed: seq<string>): (r: string)
    ensures |r| == if word == [] then 0 else 2 * |word| - 1
    ensures forall i :: 0 <= i < |r| && i % 2 == 1 ==> r[i] == ' '
    ensures forall k :: 0 <= k < |word| ==>
      r[2 * k] == if Shown(word[k], guessed) then word[k] else '_'
  {
    var r := JoinWithSpaces(RevealedChars(word, guessed));
    assert forall k :: 0 <= k < |word| ==> r[2 * k] == RevealedChars(word, guessed)[k];
    r
  }

  /** The completion test: every character of the word has been guessed. */
  predicate AllGuessed(word: string, guessed: seq<string>) {
    forall i :: 0 <= i < |word| ==> Shown(word[i], guessed)
  }

  /** With nothing guessed, the reveal is the fresh mask. */
  lemma RevealNothing(word: string)
    ensures Reveal(word, []) == CreateMaskedWord(word)
  {
    assert RevealedChars(word, []) == seq(|word|, _ => '_');
  }

  /** Once every character is guessed the mask spells out the whole word. */
  lemma RevealAll(word: string, guessed: seq<string>)
    requires AllGuessed(word, guessed)
    ensures Reveal(word, guessed) == JoinWithSpaces(word)
  {
    assert RevealedChars(word, guessed) == word;
  }

  /** The state every room keeps: lives between 0 and 5, the word index at
      most 5 and the match over when it gets there, a winner exactly when the
      match is over, and a trophy report only for a finished match. */
  predicate WellFormed(r: Room) {
    && 0 <= r.hostLives <= StartingLives
    && 0 <= r.guestLives <= StartingLives
    && r.currentWordIndex <= Rounds
    && (r.currentWordIndex == Rounds ==> r.isGameOver)
    && (r.isGameOver <==> r.winner != Unset)
    && (r.trophiesUpdated ==> r.isGameOver)
  }

  /** The pace of a running match: a guess costs a side at most one life per
      round it advances, so each side keeps at least one life for every
      round left to play. A wrong `guessWord` costs more, but it ends the
      match. */
  predicate Paced(r: Room) {
    !r.isGameOver ==>
      r.hostLives >= Rounds - r.currentWordIndex && r.guestLives >= Rounds - r.currentWordIndex
  }

  /** A side at 0 lives means the match is over. */
  predicate Decisive(r: Room) {
    (r.hostLives == 0 || r.guestLives == 0) ==> r.isGameOver
  }

  /** A well-formed room that keeps its pace has ended once a side has no
      lives left: while it runs, at least one round is left to play. */
  lemma PacedDecisive(r: Room)
    requires WellFormed(r) && Paced(r)
    ensures Decisive(r)
  {
  }

  /** The state of a room that has just been opened. */
  predicate Opening(r: Room) {
    && r.guestId == None
    && r.hostLives == StartingLives && r.guestLives == StartingLives
    && r.isHostTurn && !r.isGameOver && r.winner == Unset && !r.trophiesUpdated
    && r.currentWordIndex == 0 && r.guessedLetters == []
  }

  /** `handleCreateRoom`: a room with a single upper-cased word, hosted by the
      connection's identity and waiting for a guest. */
  function NewRoom(id: RoomId, conn: Option<UserId>, word: string,
                   userTag: Option<string>, hostName: Option<string>): (r: Room)
    ensures Opening(r) && WellFormed(r) && Paced(r)
    ensures r.id == id && r.hostId == conn
    ensures r.word == Some(Upper(word)) && r.words == None && r.maskedWord == None
  {
    Room(
      id := id, hostId := conn, guestId := None,
      host := Seat(Some(userTag.GetOr("")), Some(hostName.GetOr("")), None, None, None),
      guest := Seat(Some(""), Some(""), None, None, None),
      word := Some(Upper(word)), words := None, currentWordIndex := 0, maskedWord := None,
      guessedLetters := [], hostLives := StartingLives, guestLives := StartingLives,
      isHostTurn := true, isGameOver := false, winner := Unset, trophiesUpdated := false)
  }

  /** `createGameRoom` as auto-match uses it: the requester hosts a room that
      plays the given words in order, starting with the first one under an
      all-underscore mask. With no words, building the mask of the missing
      first word throws, and no room is made. */
  function NewGameRoom(id: RoomId, requester: UserId, username: Option<string>,
                       gladiator: Option<string>, trophies: Option<int>,
                       words: seq<string>): (r: Option<Room>)
    ensures r.Some? <==> words != []
    ensures r.Some? ==> Opening(r.value) && WellFormed(r.value) && Paced(r.value)
    ensures r.Some? ==> r.value.id == id && r.value.hostId == Some(requester)
    ensures r.Some? ==> r.value.words == Some(words) && r.value.word == Some(words[0])
    ensures r.Some? ==> r.value.maskedWord == Some(CreateMaskedWord(words[0]))
  {
    if words == [] then None
    else
      Some(Room(
        id := id, hostId := Some(requester), guestId := None,
        host := Seat(None, None, username, gladiator, Some(trophies.GetOr(0))),
        guest := Seat(None, None, None, None, None),
        word := Some(words[0]), words := Some(words), currentWordIndex := 0,
        maskedWord := Some(CreateMaskedWord(words[0])),
        guessedLetters := [], hostLives := StartingLives, guestLives := StartingLives,
        isHostTurn := true, isGameOver := false, winner := Unset, trophiesUpdated := false))
  }
}
