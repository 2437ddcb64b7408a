/** Properties of the guess transitions: the room invariant is kept, the
    guards refuse in order and change nothing, letters and words behave as
    the handlers promise, the lives check overrides the round result, a
    room with five words never throws, and outcomes are reported once. */
module MatchProperties {
  import opened Wrappers
  import opened Text
  import opened Rooms
  import opened Engine

  lemma AdvanceKeepsWellFormed(r: Room)
    requires WellFormed(r) && !r.isGameOver
    ensures WellFormed(Advance(r).room)
    ensures Advance(r).room.currentWordIndex == r.currentWordIndex + 1
    ensures Advance(r).room.isHostTurn == r.isHostTurn
    ensures Advance(r).room.hostLives == r.hostLives && Advance(r).room.guestLives == r.guestLives
  {
  }

  lemma LetterGuessKeepsWellFormed(r: Room, isHost: bool, raw: string)
    requires WellFormed(r) && !r.isGameOver
    ensures WellFormed(LetterGuess(r, isHost, raw).room)
  {
    var letter := Upper(raw);
    if letter !in r.guessedLetters && r.word.Some? {
      var pushed := r.(guessedLetters := r.guessedLetters + [letter]);
      var current := Upper(r.word.value);
      if Includes(current, letter) && AllGuessed(current, pushed.guessedLetters) {
        var shown := pushed.(maskedWord := Some(Reveal(current, pushed.guessedLetters)));
        AdvanceKeepsWellFormed(TakeLives(shown, !isHost, 1));
      }
    }
  }

  lemma WordGuessKeepsWellFormed(r: Room, isHost: bool, raw: string)
    requires WellFormed(r) && !r.isGameOver
    ensures WellFormed(WordGuess(r, isHost, raw).room)
  {
    if r.word.Some? && Upper(raw) == Upper(r.word.value) {
      AdvanceKeepsWellFormed(TakeLives(r, !isHost, 1));
    }
  }

  lemma HarshWordGuessKeepsWellFormed(r: Room, isHost: bool, raw: string)
    requires WellFormed(r) && !r.isGameOver
    ensures WellFormed(HarshWordGuess(r, isHost, raw).room)
  {
    if r.word == Some(Upper(Trim(raw))) {
      AdvanceKeepsWellFormed(TakeLives(r, !isHost, 1).(maskedWord := r.word));
    }
  }

  /** The lives check and the report guard keep the invariant, and neither
      touches the lives or the word index. */
  lemma SettleKeepsWellFormed(o: Outcome)
    requires WellFormed(o.room)
    ensures WellFormed(Settle(o).room) && WellFormed(Deliver(Settle(o)).0)
    ensures Settle(o).room.hostLives == o.room.hostLives && Settle(o).room.guestLives == o.room.guestLives
    ensures Settle(o).room.currentWordIndex == o.room.currentWordIndex
  {
  }

  lemma LetterGuessBounds(r: Room, isHost: bool, raw: string)
    requires WellFormed(r) && !r.isGameOver
    ensures var o := LetterGuess(r, isHost, raw);
      && o.room.hostLives <= r.hostLives && o.room.guestLives <= r.guestLives
      && r.currentWordIndex <= o.room.currentWordIndex <= r.currentWordIndex + 1
  {
    var letter := Upper(raw);
    if letter !in r.guessedLetters && r.word.Some? {
      var pushed := r.(guessedLetters := r.guessedLetters + [letter]);
      var current := Upper(r.word.value);
      if Includes(current, letter) && AllGuessed(current, pushed.guessedLetters) {
        var shown := pushed.(maskedWord := Some(Reveal(current, pushed.guessedLetters)));
        AdvanceKeepsWellFormed(TakeLives(shown, !isHost, 1));
      }
    }
  }

  /** Every `makeGuess` keeps the room invariant; in particular both lives
      stay between 0 and 5, for the room broadcast and for the room stored
      after the report guard. Lives never grow, and the word index grows by
      at most one. */
  lemma MakeGuessKeepsWellFormed(r: Room, actor: Sender, g: Guess)
    requires WellFormed(r)
    ensures var o := MakeGuessOutcome(r, actor, g);
      && WellFormed(o.room) && WellFormed(Deliver(o).0)
      && o.room.hostLives <= r.hostLives && o.room.guestLives <= r.guestLives
      && r.currentWordIndex <= o.room.currentWordIndex <= r.currentWordIndex + 1
  {
    if Admit(r, actor).Success? {
      var isHost := Admit(r, actor).value;
      var step := match g
                  case Letter(l) => LetterGuess(r, isHost, l)
                  case Word(w) => WordGuess(r, isHost, w);
      match g
      case Letter(l) =>
        LetterGuessKeepsWellFormed(r, isHost, l);
        LetterGuessBounds(r, isHost, l);
      case Word(w) =>
        WordGuessKeepsWellFormed(r, isHost, w);
        if r.word.Some? && Upper(w) == Upper(r.word.value) {
          AdvanceKeepsWellFormed(TakeLives(r, !isHost, 1));
        }
      assert MakeGuessOutcome(r, actor, g) == Settle(step);
      SettleKeepsWellFormed(step);
    }
  }

  /** The same for `guessWord`. */
  lemma GuessWordKeepsWellFormed(r: Room, actor: Sender, raw: string)
    requires WellFormed(r)
    ensures var o := GuessWordOutcome(r, actor, raw);
      && WellFormed(o.room) && WellFormed(Deliver(o).0)
      && o.room.hostLives <= r.hostLives && o.room.guestLives <= r.guestLives
      && r.currentWordIndex <= o.room.currentWordIndex <= r.currentWordIndex + 1
  {
    if Admit(r, actor).Success? {
      var isHost := Admit(r, actor).value;
      var step := HarshWordGuess(r, isHost, raw);
      HarshWordGuessKeepsWellFormed(r, isHost, raw);
      if r.word == Some(Upper(Trim(raw))) {
        AdvanceKeepsWellFormed(TakeLives(r, !isHost, 1).(maskedWord := r.word));
      }
      SettleKeepsWellFormed(step);
    }
  }

  /** A round advance after the opponent lost at most one life keeps the
      pace: the index moves up by one, so one life fewer is needed. */
  lemma AdvancePaced(q: Room)
    requires WellFormed(q) && !q.isGameOver
    requires q.hostLives >= Rounds - q.currentWordIndex - 1
    requires q.guestLives >= Rounds - q.currentWordIndex - 1
    ensures Paced(Advance(q).room)
  {
  }

  lemma LetterGuessPaced(r: Room, isHost: bool, raw: string)
    requires WellFormed(r) && Paced(r) && !r.isGameOver
    ensures Paced(LetterGuess(r, isHost, raw).room)
  {
    var letter := Upper(raw);
    if letter !in r.guessedLetters && r.word.Some? {
      var pushed := r.(guessedLetters := r.guessedLetters + [letter]);
      var current := Upper(r.word.value);
      if Includes(current, letter) && AllGuessed(current, pushed.guessedLetters) {
        var shown := pushed.(maskedWord := Some(Reveal(current, pushed.guessedLetters)));
        AdvancePaced(TakeLives(shown, !isHost, 1));
      }
    }
  }

  lemma WordGuessPaced(r: Room, isHost: bool, raw: string)
    requires WellFormed(r) && Paced(r) && !r.isGameOver
    ensures Paced(WordGuess(r, isHost, raw).room)
  {
    if r.word.Some? && Upper(raw) == Upper(r.word.value) {
      AdvancePaced(TakeLives(r, !isHost, 1));
    }
  }

  /** A wrong `guessWord` leaves the guesser at 0 lives, off pace, until the
      lives check ends the match. */
  lemma HarshWordGuessPaced(r: Room, isHost: bool, raw: string)
    requires WellFormed(r) && Paced(r) && !r.isGameOver
    ensures Paced(Settle(HarshWordGuess(r, isHost, raw)).room)
  {
    if r.word == Some(Upper(Trim(raw))) {
      AdvancePaced(TakeLives(r, !isHost, 1).(maskedWord := r.word));
    } else {
      var missed := TakeLives(r, isHost, WrongWordPenalty).(isHostTurn := !r.isHostTurn);
      assert HarshWordGuess(r, isHost, raw) == Outcome(missed, None);
      assert FinalCheck(missed).isGameOver;
    }
  }

  /** Every `makeGuess` keeps the pace, so in every room it leaves a side at
      0 lives means the match is over. */
  lemma MakeGuessKeepsPace(r: Room, actor: Sender, g: Guess)
    requires WellFormed(r) && Paced(r)
    ensures var o := MakeGuessOutcome(r, actor, g);
      Paced(o.room) && Paced(Deliver(o).0) && Decisive(Deliver(o).0)
  {
    var o := MakeGuessOutcome(r, actor, g);
    if Admit(r, actor).Success? {
      var isHost := Admit(r, actor).value;
      var step := match g
                  case Letter(l) => LetterGuess(r, isHost, l)
                  case Word(w) => WordGuess(r, isHost, w);
      match g
      case Letter(l) => LetterGuessPaced(r, isHost, l);
      case Word(w) => WordGuessPaced(r, isHost, w);
      assert o == Settle(step);
    }
    MakeGuessKeepsWellFormed(r, actor, g);
    PacedDecisive(Deliver(o).0);
  }

  /** The same for `guessWord`. */
  lemma GuessWordKeepsPace(r: Room, actor: Sender, raw: string)
    requires WellFormed(r) && Paced(r)
    ensures var o := GuessWordOutcome(r, actor, raw);
      Paced(o.room) && Paced(Deliver(o).0) && Decisive(Deliver(o).0)
  {
    var o := GuessWordOutcome(r, actor, raw);
    if Admit(r, actor).Success? {
      HarshWordGuessPaced(r, Admit(r, actor).value, raw);
    }
    GuessWordKeepsWellFormed(r, actor, raw);
    PacedDecisive(Deliver(o).0);
  }

  /** Who plays a room, under which id, and with which words, never changes
      with a guess. */
  predicate SameMatch(a: Room, b: Room) {
    a.id == b.id && a.hostId == b.hostId && a.guestId == b.guestId &&
    a.host == b.host && a.guest == b.guest && a.words == b.words
  }

  lemma AdvanceSameMatch(q: Room)
    ensures SameMatch(Advance(q).room, q)
  {
  }

  lemma LetterGuessSameMatch(r: Room, isHost: bool, raw: string)
    ensures SameMatch(LetterGuess(r, isHost, raw).room, r)
  {
    var letter := Upper(raw);
    if letter !in r.guessedLetters && r.word.Some? {
      var pushed := r.(guessedLetters := r.guessedLetters + [letter]);
      var current := Upper(r.word.value);
      var shown := pushed.(maskedWord := Some(Reveal(current, pushed.guessedLetters)));
      AdvanceSameMatch(TakeLives(shown, !isHost, 1));
    }
  }

  lemma WordGuessSameMatch(r: Room, isHost: bool, raw: string)
    ensures SameMatch(WordGuess(r, isHost, raw).room, r)
  {
    AdvanceSameMatch(TakeLives(r, !isHost, 1));
  }

  lemma HarshWordGuessSameMatch(r: Room, isHost: bool, raw: string)
    ensures SameMatch(HarshWordGuess(r, isHost, raw).room, r)
  {
    if r.word == Some(Upper(Trim(raw))) {
      var q := TakeLives(r, !isHost, 1).(maskedWord := r.word);
      AdvanceSameMatch(q);
      var a := Advance(q);
      assert HarshWordGuess(r, isHost, raw).room in {a.room, a.room.(isHostTurn := !a.room.isHostTurn)};
    } else {
      assert HarshWordGuess(r, isHost, raw).room == TakeLives(r, isHost, WrongWordPenalty).(isHostTurn := !r.isHostTurn);
    }
  }

  lemma DeliverSameMatch(o: Outcome, r: Room)
    requires SameMatch(o.room, r)
    ensures SameMatch(Settle(o).room, r) && SameMatch(Deliver(Settle(o)).0, r)
  {
  }

  lemma MakeGuessKeepsId(r: Room, actor: Sender, g: Guess)
    ensures SameMatch(Deliver(MakeGuessOutcome(r, actor, g)).0, r)
  {
    if Admit(r, actor).Success? {
      var isHost := Admit(r, actor).value;
      var step := match g
                  case Letter(l) => LetterGuess(r, isHost, l)
                  case Word(w) => WordGuess(r, isHost, w);
      match g
      case Letter(l) => LetterGuessSameMatch(r, isHost, l);
      case Word(w) => WordGuessSameMatch(r, isHost, w);
      assert MakeGuessOutcome(r, actor, g) == Settle(step);
      DeliverSameMatch(step, r);
    }
  }

  lemma GuessWordKeepsId(r: Room, actor: Sender, raw: string)
    ensures SameMatch(Deliver(GuessWordOutcome(r, actor, raw)).0, r)
  {
    if Admit(r, actor).Success? {
      var step := HarshWordGuess(r, Admit(r, actor).value, raw);
      HarshWordGuessSameMatch(r, Admit(r, actor).value, raw);
      DeliverSameMatch(step, r);
    }
  }

  /** The guards of both guess handlers, in order, each with its own error
      and the room unchanged. */
  lemma GuardsInOrder(r: Room, actor: Sender, g: Guess, raw: string)
    ensures r.isGameOver ==>
      MakeGuessOutcome(r, actor, g) == Outcome(r, Some(GameAlreadyOver)) &&
      GuessWordOutcome(r, actor, raw) == Outcome(r, Some(GameAlreadyOver))
    ensures !r.isGameOver && !IsHost(r, actor) && !IsGuest(r, actor) ==>
      MakeGuessOutcome(r, actor, g) == Outcome(r, Some(NotInRoom)) &&
      GuessWordOutcome(r, actor, raw) == Outcome(r, Some(NotInRoom))
    ensures !r.isGameOver && (IsHost(r, actor) || IsGuest(r, actor)) &&
            ((IsHost(r, actor) && !r.isHostTurn) || (IsGuest(r, actor) && r.isHostTurn)) ==>
      MakeGuessOutcome(r, actor, g) == Outcome(r, Some(NotYourTurn)) &&
      GuessWordOutcome(r, actor, raw) == Outcome(r, Some(NotYourTurn))
  {
  }

  /** The round advance fails only by throwing. */
  lemma AdvanceOnlyThrows(q: Room)
    ensures Advance(q).error.Some? ==> Advance(q).error == Some(InvalidMessageFormat)
  {
  }

  /** Within a step, every error but a throw leaves the room as it was. */
  lemma LetterRefusalChangesNothing(r: Room, isHost: bool, raw: string)
    ensures var o := LetterGuess(r, isHost, raw);
      o.error.Some? && o.error != Some(InvalidMessageFormat) ==> o.room == r
  {
    var letter := Upper(raw);
    if letter !in r.guessedLetters && r.word.Some? {
      var pushed := r.(guessedLetters := r.guessedLetters + [letter]);
      var current := Upper(r.word.value);
      if Includes(current, letter) && AllGuessed(current, pushed.guessedLetters) {
        var shown := pushed.(maskedWord := Some(Reveal(current, pushed.guessedLetters)));
        AdvanceOnlyThrows(TakeLives(shown, !isHost, 1));
      }
    }
  }

  lemma WordRefusalOnlyThrows(r: Room, isHost: bool, raw: string)
    ensures WordGuess(r, isHost, raw).error.Some? ==> WordGuess(r, isHost, raw).error == Some(InvalidMessageFormat)
  {
    AdvanceOnlyThrows(TakeLives(r, !isHost, 1));
  }

  lemma HarshRefusalOnlyThrows(r: Room, isHost: bool, raw: string)
    ensures HarshWordGuess(r, isHost, raw).error.Some? ==> HarshWordGuess(r, isHost, raw).error == Some(InvalidMessageFormat)
  {
    AdvanceOnlyThrows(TakeLives(r, !isHost, 1).(maskedWord := r.word));
  }

  /** A refused `makeGuess` changes nothing; only a handler that throws
      part-way (`InvalidMessageFormat`) leaves a changed room behind. */
  lemma MakeGuessRefusalChangesNothing(r: Room, actor: Sender, g: Guess)
    ensures var o := MakeGuessOutcome(r, actor, g);
      o.error.Some? && o.error != Some(InvalidMessageFormat) ==> o.room == r
  {
    if Admit(r, actor).Success? {
      var isHost := Admit(r, actor).value;
      match g
      case Letter(l) => LetterRefusalChangesNothing(r, isHost, l);
      case Word(w) => WordRefusalOnlyThrows(r, isHost, w);
    }
  }

  /** The same for `guessWord`: its only errors are the guards, which change
      nothing, and the throw. */
  lemma GuessWordRefusalChangesNothing(r: Room, actor: Sender, raw: string)
    ensures var o := GuessWordOutcome(r, actor, raw);
      o.error.Some? && o.error != Some(InvalidMessageFormat) ==> o.room == r
  {
    if Admit(r, actor).Success? {
      HarshRefusalOnlyThrows(r, Admit(r, actor).value, raw);
    }
  }

  /** A letter guessed before is refused and nothing changes. */
  lemma RepeatedLetterRefused(r: Room, actor: Sender, raw: string)
    requires Admit(r, actor).Success?
    requires Upper(raw) in r.guessedLetters
    ensures MakeGuessOutcome(r, actor, Letter(raw)) == Outcome(r, Some(LetterAlreadyGuessed))
  {
  }

  /** A new letter that is not in the word is appended once and passes the
      turn; nothing else changes but the closing lives check. */
  lemma MissedLetterPassesTurn(r: Room, actor: Sender, raw: string, w: string)
    requires Admit(r, actor).Success? && r.word == Some(w)
    requires Upper(raw) !in r.guessedLetters && !Includes(Upper(w), Upper(raw))
    ensures var expected := r.(guessedLetters := r.guessedLetters + [Upper(raw)], isHostTurn := !r.isHostTurn);
      && MakeGuessOutcome(r, actor, Letter(raw)) == Outcome(FinalCheck(expected), None)
      && (r.hostLives > 0 && r.guestLives > 0 ==> MakeGuessOutcome(r, actor, Letter(raw)).room == expected)
  {
  }

  /** A new letter that is in the word but does not complete it is appended
      once, keeps the turn and re-renders the mask. */
  lemma CorrectLetterReveals(r: Room, actor: Sender, raw: string, w: string)
    requires Admit(r, actor).Success? && r.word == Some(w)
    requires Upper(raw) !in r.guessedLetters && Includes(Upper(w), Upper(raw))
    requires !AllGuessed(Upper(w), r.guessedLetters + [Upper(raw)])
    ensures var guessed := r.guessedLetters + [Upper(raw)];
      var expected := r.(guessedLetters := guessed, maskedWord := Some(Reveal(Upper(w), guessed)));
      && MakeGuessOutcome(r, actor, Letter(raw)) == Outcome(FinalCheck(expected), None)
      && (r.hostLives > 0 && r.guestLives > 0 ==> MakeGuessOutcome(r, actor, Letter(raw)).room == expected)
  {
  }

  /** For a one-character guess, "within the word" means "one of the
      word's characters". */
  lemma LetterHitIsMembership(w: string, c: char)
    ensures Includes(Upper(w), Upper([c])) <==> UpperChar(c) in Upper(w)
  {
    assert Upper([c]) == [UpperChar(c)];
    IncludesChar(Upper(w), UpperChar(c));
  }

  /** The guess completes the current word: an exact `makeGuess` word, or a
      new letter within the word after which every character is guessed. */
  predicate Completes(r: Room, g: Guess) {
    r.word.Some? &&
    match g
    case Word(raw) => Upper(raw) == Upper(r.word.value)
    case Letter(raw) =>
      && Upper(raw) !in r.guessedLetters
      && Includes(Upper(r.word.value), Upper(raw))
      && AllGuessed(Upper(r.word.value), r.guessedLetters + [Upper(raw)])
  }

  /** A round advance followed by the lives check, in terms of the room
      before the advance. */
  lemma AdvanceSettled(q: Room)
    requires q.hostLives >= 0 && q.guestLives >= 0
    ensures var o := Settle(Advance(q));
      && o.room.currentWordIndex == q.currentWordIndex + 1
      && o.room.isHostTurn == q.isHostTurn
      && o.room.hostLives == q.hostLives && o.room.guestLives == q.guestLives
      && (q.currentWordIndex + 1 >= Rounds ==>
            o.error == None && o.room.isGameOver &&
            o.room.winner == (if q.hostLives == 0 then Guest
                              else if q.guestLives == 0 then Host
                              else ByLives(q.hostLives, q.guestLives)))
      && (q.currentWordIndex + 1 < Rounds && q.words.Some? && q.currentWordIndex + 1 < |q.words.value| ==>
            var next := q.words.value[q.currentWordIndex + 1];
            o.error == None && o.room.word == Some(next) &&
            o.room.maskedWord == Some(CreateMaskedWord(next)) && o.room.guessedLetters == [])
      && (q.currentWordIndex + 1 < Rounds && (q.words.None? || q.currentWordIndex + 1 >= |q.words.value|) ==>
            o.error == Some(InvalidMessageFormat))
  {
  }

  /** Completing a word costs the opponent exactly one life (clamped at 0),
      raises the index by exactly one and keeps the turn. At the fifth word
      the match ends, won by the side with more lives unless a side is at 0;
      before it the next word comes up with a fresh mask and no letters; a
      room whose list has no such word throws. */
  lemma CompletionAdvances(r: Room, actor: Sender, g: Guess)
    requires WellFormed(r) && Admit(r, actor).Success? && Completes(r, g)
    ensures var isHost := r.isHostTurn;
      var o := MakeGuessOutcome(r, actor, g);
      && o.room.currentWordIndex == r.currentWordIndex + 1
      && o.room.isHostTurn == r.isHostTurn
      && (if isHost then o.room.guestLives == Clamp(r.guestLives - 1) && o.room.hostLives == r.hostLives
          else o.room.hostLives == Clamp(r.hostLives - 1) && o.room.guestLives == r.guestLives)
      && (r.currentWordIndex + 1 >= Rounds ==>
            o.error == None && o.room.isGameOver &&
            o.room.winner == (if o.room.hostLives == 0 then Guest
                              else if o.room.guestLives == 0 then Host
                              else ByLives(o.room.hostLives, o.room.guestLives)))
      && (r.currentWordIndex + 1 < Rounds && r.words.Some? && r.currentWordIndex + 1 < |r.words.value| ==>
            var next := r.words.value[r.currentWordIndex + 1];
            o.error == None && o.room.word == Some(next) &&
            o.room.maskedWord == Some(CreateMaskedWord(next)) && o.room.guessedLetters == [])
      && (r.currentWordIndex + 1 < Rounds && (r.words.None? || r.currentWordIndex + 1 >= |r.words.value|) ==>
            o.error == Some(InvalidMessageFormat))
  {
    var isHost := r.isHostTurn;
    assert Admit(r, actor) == Success(isHost);
    var w := r.word.value;
    match g
    case Word(raw) =>
      var q := TakeLives(r, !isHost, 1);
      assert WordGuess(r, isHost, raw) == Advance(q);
      AdvanceSettled(q);
    case Letter(raw) =>
      var guessed := r.guessedLetters + [Upper(raw)];
      var q := TakeLives(r.(guessedLetters := guessed, maskedWord := Some(Reveal(Upper(w), guessed))), !isHost, 1);
      assert LetterGuess(r, isHost, raw) == Advance(q);
      AdvanceSettled(q);
  }

  /** Completing a word before the fifth keeps the match running: on pace,
      the opponent still has a life after losing one, so the lives check
      leaves the match undecided, whether the next word comes up or the
      advance throws. */
  lemma CompletionKeepsRunning(r: Room, actor: Sender, g: Guess)
    requires WellFormed(r) && Paced(r) && Admit(r, actor).Success? && Completes(r, g)
    requires r.currentWordIndex + 1 < Rounds
    ensures var o := MakeGuessOutcome(r, actor, g);
      !o.room.isGameOver && o.room.winner == Unset && o.room.hostLives > 0 && o.room.guestLives > 0
  {
    CompletionAdvances(r, actor, g);
  }

  /** A wrong `makeGuess` word only passes the turn: no life is lost. */
  lemma LenientWrongWord(r: Room, actor: Sender, raw: string, w: string)
    requires Admit(r, actor).Success? && r.word == Some(w) && Upper(raw) != Upper(w)
    ensures MakeGuessOutcome(r, actor, Word(raw)) == Outcome(FinalCheck(r.(isHostTurn := !r.isHostTurn)), None)
    ensures MakeGuessOutcome(r, actor, Word(raw)).room.hostLives == r.hostLives
    ensures MakeGuessOutcome(r, actor, Word(raw)).room.guestLives == r.guestLives
  {
  }

  /** A wrong `guessWord` costs the guesser ten lives, clamped at 0, and
      passes the turn. Since nobody has more than five lives, the guesser
      always drops to 0 and the match ends on the spot. */
  lemma HarshWrongWord(r: Room, actor: Sender, raw: string)
    requires WellFormed(r) && Admit(r, actor).Success? && r.word != Some(Upper(Trim(raw)))
    ensures var o := GuessWordOutcome(r, actor, raw);
      && o == Outcome(FinalCheck(TakeLives(r, r.isHostTurn, WrongWordPenalty).(isHostTurn := !r.isHostTurn)), None)
      && o.room.isHostTurn == !r.isHostTurn
      && (if r.isHostTurn then o.room.hostLives == 0 && o.room.guestLives == r.guestLives
          else o.room.guestLives == 0 && o.room.hostLives == r.hostLives)
      && o.room.isGameOver
      && (r.isHostTurn ==> o.room.winner == Guest)
      && (!r.isHostTurn && r.hostLives > 0 ==> o.room.winner == Host)
  {
  }

  /** The step of a right `guessWord`, before the lives check: the word is
      shown, the opponent loses a life and the round advances; the turn
      passes only when a next word has come up. */
  lemma HarshRightStep(r: Room, raw: string)
    requires WellFormed(r) && !r.isGameOver && r.word == Some(Upper(Trim(raw)))
    ensures var t := TakeLives(r, !r.isHostTurn, 1).(maskedWord := r.word);
      var a := Advance(t);
      && WellFormed(t) && !t.isGameOver
      && HarshWordGuess(r, r.isHostTurn, raw) ==
           if a.error == None && !a.room.isGameOver then Outcome(a.room.(isHostTurn := !a.room.isHostTurn), None)
           else a
  {
  }

  /** A right `guessWord` costs the opponent one life and advances the
      index; at the fifth word the match ends with the last word shown and
      the turn where it was. */
  lemma HarshRightWord(r: Room, actor: Sender, raw: string)
    requires WellFormed(r) && Admit(r, actor).Success? && r.word == Some(Upper(Trim(raw)))
    ensures var o := GuessWordOutcome(r, actor, raw);
      && o.room.currentWordIndex == r.currentWordIndex + 1
      && (if r.isHostTurn then o.room.guestLives == Clamp(r.guestLives - 1) && o.room.hostLives == r.hostLives
          else o.room.hostLives == Clamp(r.hostLives - 1) && o.room.guestLives == r.guestLives)
      && (r.currentWordIndex + 1 >= Rounds ==>
            o.error == None && o.room.isGameOver && o.room.maskedWord == r.word &&
            o.room.isHostTurn == r.isHostTurn)
  {
    var t := TakeLives(r, !r.isHostTurn, 1).(maskedWord := r.word);
    HarshRightStep(r, raw);
    AdvanceKeepsWellFormed(t);
  }

  /** With a next word in the list, a right `guessWord` passes the turn and
      brings up that word with a fresh mask and no letters. */
  lemma HarshRightWordNext(r: Room, actor: Sender, raw: string)
    requires WellFormed(r) && Admit(r, actor).Success? && r.word == Some(Upper(Trim(raw)))
    requires r.currentWordIndex + 1 < Rounds && r.words.Some? && r.currentWordIndex + 1 < |r.words.value|
    ensures var o := GuessWordOutcome(r, actor, raw);
      var next := r.words.value[r.currentWordIndex + 1];
      && o.error == None && o.room.isHostTurn == !r.isHostTurn && o.room.word == Some(next)
      && o.room.maskedWord == Some(CreateMaskedWord(next)) && o.room.guessedLetters == []
  {
    var t := TakeLives(r, !r.isHostTurn, 1).(maskedWord := r.word);
    HarshRightStep(r, raw);
    AdvanceKeepsWellFormed(t);
    var a := Advance(t);
    var next := r.words.value[r.currentWordIndex + 1];
    assert a.error == None && !a.room.isGameOver && a.room.word == Some(next);
    var flipped := a.room.(isHostTurn := !a.room.isHostTurn);
    assert Admit(r, actor) == Success(r.isHostTurn);
    assert GuessWordOutcome(r, actor, raw) == Outcome(FinalCheck(flipped), None);
  }

  /** The lives check decides the match once a side is at 0 lives. */
  predicate LivesDecided(o: Outcome) {
    o.error == None && (o.room.hostLives <= 0 || o.room.guestLives <= 0) ==>
      o.room.isGameOver && o.room.winner == (if o.room.hostLives <= 0 then Guest else Host)
  }

  lemma SettleDecides(o: Outcome)
    ensures LivesDecided(Settle(o))
  {
  }

  /** After every guess that did not fail, a side at 0 lives means the match
      is over, and the other side is the winner, the host being checked first
      so that two empty sides give the win to the guest. This overrides a
      draw decided by the last round. */
  lemma LivesCheckOverrides(r: Room, actor: Sender, g: Guess, raw: string)
    ensures LivesDecided(MakeGuessOutcome(r, actor, g))
    ensures LivesDecided(GuessWordOutcome(r, actor, raw))
  {
    if Admit(r, actor).Success? {
      var isHost := Admit(r, actor).value;
      var step := match g
                  case Letter(l) => LetterGuess(r, isHost, l)
                  case Word(w) => WordGuess(r, isHost, w);
      assert MakeGuessOutcome(r, actor, g) == Settle(step);
      SettleDecides(step);
      SettleDecides(HarshWordGuess(r, isHost, raw));
    }
  }

  /** A room that holds its current word and a list of at least five words. */
  predicate Stocked(r: Room) {
    r.word.Some? && r.words.Some? && |r.words.value| >= Rounds
  }

  lemma AdvanceStocked(q: Room)
    requires WellFormed(q) && !q.isGameOver && Stocked(q)
    ensures Advance(q).error == None && Stocked(Advance(q).room)
  {
  }

  lemma LetterGuessStocked(r: Room, isHost: bool, raw: string)
    requires WellFormed(r) && !r.isGameOver && Stocked(r)
    ensures LetterGuess(r, isHost, raw).error != Some(InvalidMessageFormat)
    ensures Stocked(LetterGuess(r, isHost, raw).room)
  {
    var letter := Upper(raw);
    if letter !in r.guessedLetters {
      var pushed := r.(guessedLetters := r.guessedLetters + [letter]);
      var current := Upper(r.word.value);
      if Includes(current, letter) && AllGuessed(current, pushed.guessedLetters) {
        var shown := pushed.(maskedWord := Some(Reveal(current, pushed.guessedLetters)));
        AdvanceStocked(TakeLives(shown, !isHost, 1));
      }
    }
  }

  /** In a room with five words no `makeGuess` throws, the room stays
      stocked, and a side reaching 0 lives always ends the match. */
  lemma MakeGuessStocked(r: Room, actor: Sender, g: Guess)
    requires WellFormed(r) && Stocked(r) && Decisive(r)
    ensures var o := MakeGuessOutcome(r, actor, g);
      o.error != Some(InvalidMessageFormat) && Stocked(o.room) && Decisive(o.room)
  {
    if Admit(r, actor).Success? {
      var isHost := Admit(r, actor).value;
      match g
      case Letter(l) =>
        LetterGuessStocked(r, isHost, l);
        LetterRefusalChangesNothing(r, isHost, l);
      case Word(w) =>
        if Upper(w) == Upper(r.word.value) {
          AdvanceStocked(TakeLives(r, !isHost, 1));
        }
    }
  }

  /** The same for `guessWord`. */
  lemma GuessWordStocked(r: Room, actor: Sender, raw: string)
    requires WellFormed(r) && Stocked(r) && Decisive(r)
    ensures var o := GuessWordOutcome(r, actor, raw);
      o.error != Some(InvalidMessageFormat) && Stocked(o.room) && Decisive(o.room)
  {
    if Admit(r, actor).Success? {
      var isHost := Admit(r, actor).value;
      var step := HarshWordGuess(r, isHost, raw);
      if r.word == Some(Upper(Trim(raw))) {
        AdvanceStocked(TakeLives(r, !isHost, 1).(maskedWord := r.word));
      }
      assert step.error == None && Stocked(step.room);
      assert GuessWordOutcome(r, actor, raw) == Settle(step);
      SettleDecides(step);
    }
  }

  /** An auto-match room with at least five words starts stocked. */
  lemma GameRoomStocked(id: RoomId, requester: UserId, username: Option<string>,
                        gladiator: Option<string>, trophies: Option<int>, words: seq<string>)
    requires |words| >= Rounds
    ensures var r := NewGameRoom(id, requester, username, gladiator, trophies, words);
      r.Some? && WellFormed(r.value) && Stocked(r.value) && Decisive(r.value)
  {
  }

  /** The report guard fires at most once: after it has run, running it
      again reports nothing and changes nothing. */
  lemma ReportAtMostOnce(r: Room)
    ensures var (stored, _) := ReportOutcome(r);
      stored.trophiesUpdated && ReportOutcome(stored) == (stored, None)
  {
  }

  /** A room that has reported stays quiet: every later guess is refused as
      over and no second report fires. */
  lemma NoSecondReport(r: Room, actor: Sender, g: Guess, raw: string)
    requires WellFormed(r) && r.trophiesUpdated
    ensures Deliver(MakeGuessOutcome(r, actor, g)) == (r, Refused(GameAlreadyOver))
    ensures Deliver(GuessWordOutcome(r, actor, raw)) == (r, Refused(GameAlreadyOver))
  {
  }

  /** A successful guess that ended a match not yet reported runs the
      report guard on it: the stored room is marked as reported, and a report
      is sent exactly when the match has a winner rather than a draw. */
  predicate ReportsEnd(o: Outcome) {
    o.error == None && o.room.isGameOver ==>
      var (stored, sent) := Deliver(o);
      stored.trophiesUpdated && sent.Updated? && (sent.report.Some? <==> o.room.winner in {Host, Guest})
  }

  lemma DeliverReportsEnd(o: Outcome)
    requires !o.room.trophiesUpdated
    ensures ReportsEnd(o)
  {
  }

  /** Every `makeGuess` that ends the match reports it. */
  lemma MakeGuessReportsEnd(r: Room, actor: Sender, g: Guess)
    requires WellFormed(r)
    ensures ReportsEnd(MakeGuessOutcome(r, actor, g))
  {
    if Admit(r, actor).Success? {
      var isHost := Admit(r, actor).value;
      var step := match g
                  case Letter(l) => LetterGuess(r, isHost, l)
                  case Word(w) => WordGuess(r, isHost, w);
      assert step.room.trophiesUpdated == r.trophiesUpdated == false;
      assert MakeGuessOutcome(r, actor, g) == Settle(step);
      DeliverReportsEnd(Settle(step));
    }
  }

  /** Every `guessWord` that ends the match reports it. */
  lemma GuessWordReportsEnd(r: Room, actor: Sender, raw: string)
    requires WellFormed(r)
    ensures ReportsEnd(GuessWordOutcome(r, actor, raw))
  {
    if Admit(r, actor).Success? {
      var step := HarshWordGuess(r, Admit(r, actor).value, raw);
      assert step.room.trophiesUpdated == r.trophiesUpdated == false;
      DeliverReportsEnd(Settle(step));
    }
  }

  /** A report fires only from a guess that ended the match, with a winner. */
  lemma ReportOnlyWhenDecided(o: Outcome)
    requires Deliver(o).1.Updated? && Deliver(o).1.report.Some?
    ensures o.error == None && o.room.isGameOver && o.room.winner in {Host, Guest}
    ensures Deliver(o).0.trophiesUpdated
  {
  }
}

/** Two concrete matches, worked through the model. */
module Scenarios {
  import opened Wrappers
  import opened Text
  import opened Rooms
  import opened Engine

  /** An auto-match room of the given words, hosted by "h" and joined by "g". */
  function Match(words: seq<string>): (r: Room)
    requires words != []
    ensures WellFormed(r) && r.hostId == Some("h") && r.guestId == Some("g") && r.isHostTurn
    ensures r.words == Some(words) && r.word == Some(words[0]) && r.guessedLetters == []
  {
    NewGameRoom(0, "h", None, None, None, words).value.(guestId := Some("g"))
  }

  /** A message whose `userId` is `null` matches every empty slot. In a room
      still waiting for a guest it is the guest: refused as out of turn
      while the host holds the turn, and playing once the host has missed
      and passed it. In a room opened by a connection that had not
      identified itself it matches the host slot as well, so while no guest
      has joined it is always refused as out of turn; once a guest has
      joined it plays as host. A message with no `userId` at all is a
      stranger everywhere. */
  lemma NullSenderMatchesEmptySlots()
    ensures Admit(NewRoom(0, None, "cat", None, None).(guestId := Some("g")), Null) == Success(true)
    ensures Admit(NewRoom(0, None, "cat", None, None), Null) == Failure(NotYourTurn)
    ensures Admit(NewRoom(0, Some("h"), "cat", None, None), Null) == Failure(NotYourTurn)
    ensures Admit(NewRoom(0, Some("h"), "cat", None, None).(isHostTurn := false), Null) == Success(false)
    ensures Admit(NewRoom(0, None, "cat", None, None), Absent) == Failure(NotInRoom)
  {
  }

  /** The host's correct first letter shows its one occurrence and keeps the
      turn with the host. */
  lemma FirstLetterShown()
    ensures var o := MakeGuessOutcome(Match(["CAT", "DOG"]), Id("h"), Letter("c"));
      o.error == None && o.room.maskedWord == Some("C _ _") && o.room.isHostTurn
      && o.room.guessedLetters == ["C"]
  {
    var r := Match(["CAT", "DOG"]);
    assert Upper("c") == "C";
    assert Upper("CAT") == "CAT";
    assert StartsWith("CAT", "C");
    assert !Shown('A', ["C"]) && !Shown('T', ["C"]);
    assert !AllGuessed("CAT", ["C"]);
    var shown := Reveal("CAT", ["C"]);
    assert shown == "C _ _";
    assert Admit(r, Id("h")) == Success(true);
    assert Includes("CAT", "C");
    assert r.guessedLetters + ["C"] == ["C"];
    assert LetterGuess(r, true, "c") == Outcome(r.(guessedLetters := ["C"], maskedWord := Some(shown)), None);
  }

  /** The host's correct guess of the word of a `createRoom` room, whose
      guest is "g". */
  function HostGuessesCat(r: Room): Outcome {
    MakeGuessOutcome(r, Id("h"), Word("cat"))
  }

  /** A `createRoom` room has no word list: every correct guess costs the
      guest a life and raises the index, then throws on reading the list
      before the word or the turn changes. So the host can guess the same
      word again, and the fifth correct guess reaches the bound and ends
      the match without reading the list, won by the host. */
  lemma CreateRoomEndsOnFifthGuess()
    ensures var r0 := NewRoom(0, Some("h"), "cat", None, None).(guestId := Some("g"));
      var o1 := HostGuessesCat(r0);
      var o2 := HostGuessesCat(o1.room);
      var o3 := HostGuessesCat(o2.room);
      var o4 := HostGuessesCat(o3.room);
      var o5 := HostGuessesCat(o4.room);
      && o1.error == Some(InvalidMessageFormat) && o2.error == Some(InvalidMessageFormat)
      && o3.error == Some(InvalidMessageFormat) && o4.error == Some(InvalidMessageFormat)
      && o4.room.word == Some("CAT") && o4.room.isHostTurn && !o4.room.isGameOver
      && o4.room.guestLives == 1 && o4.room.currentWordIndex == 4
      && o5.error == None && o5.room.isGameOver && o5.room.winner == Host
      && o5.room.guestLives == 0 && o5.room.hostLives == 5 && o5.room.currentWordIndex == 5
  {
    assert Upper("cat") == "CAT";
    assert Upper("CAT") == "CAT";
    var r0 := NewRoom(0, Some("h"), "cat", None, None).(guestId := Some("g"));
    assert HostGuessesCat(r0).room == r0.(guestLives := 4, currentWordIndex := 1);
    var r1 := r0.(guestLives := 4, currentWordIndex := 1);
    assert HostGuessesCat(r1).room == r0.(guestLives := 3, currentWordIndex := 2);
    var r2 := r0.(guestLives := 3, currentWordIndex := 2);
    assert HostGuessesCat(r2).room == r0.(guestLives := 2, currentWordIndex := 3);
    var r3 := r0.(guestLives := 2, currentWordIndex := 3);
    assert HostGuessesCat(r3).room == r0.(guestLives := 1, currentWordIndex := 4);
  }

  /** A correct whole word in a one-word match does not end it: the index
      moves to 1, below the bound of five, the missing second word is read
      and building its mask throws, after the guest has already lost a life. */
  lemma OneWordMatchThrows()
    ensures var o := MakeGuessOutcome(Match(["CAT"]), Id("h"), Word("cat"));
      o.error == Some(InvalidMessageFormat) && !o.room.isGameOver
      && o.room.guestLives == 4 && o.room.currentWordIndex == 1 && o.room.word == None
  {
    assert Upper("cat") == "CAT";
    assert Upper("CAT") == "CAT";
  }
}
