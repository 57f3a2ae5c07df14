/** The game engine as the composable keeps it: one object whose fields are
    the game state and the pending input, changed in place by the actions.
    Each action is proved to leave the fields exactly as the matching
    transition function of GameModel says, and to keep GameModel.Inv. */
module GameEngine {
  import opened Text
  import opened LexOrder
  import opened GameModel
  import GameProperties

  class Game {
    /** The word lists, one per language, given when the engine is made. */
    const lists: WordLists

    var targetWord: string
    var language: Language
    var currentRound: nat
    var maxRounds: int
    var userGuesses: seq<string>
    var gameRange: Range
    var gameStatus: Status
    var currentGuess: string

    /** The fields as one value. */
    function State(): GameState
      reads this
    {
      GameState(targetWord, language, currentRound, maxRounds, userGuesses, gameRange, gameStatus, currentGuess)
    }

    ghost predicate Valid()
      reads this
    {
      Inv(lists, State())
    }

    /** Sets up the initial record, then starts a game with the default
      language and round limit. */
    constructor (lists: WordLists, pick: nat)
      requires ValidLists(lists)
      ensures Valid() && this.lists == lists
      ensures State() == GameModel.StartNewGame(lists, English, DefaultMaxRounds, pick)
    {
      this.lists := lists;
      targetWord := "";
      language := English;
      currentRound := 0;
      maxRounds := DefaultMaxRounds;
      userGuesses := [];
      gameRange := Range(StartSentinel, EndSentinel(English));
      gameStatus := Playing;
      currentGuess := "";
      new;
      StartNewGame(pick);
    }

    /** `wordsArray`: the list of the current language, which holds the target. */
    function WordsArray(): (words: seq<string>)
      reads this
      requires Valid()
      ensures targetWord in words
      ensures words == GameModel.WordsArray(lists, language)
    {
      GameModel.WordsArray(lists, language)
    }

    /** `isGameOver`: the game is won or lost. A game can only be over once
      a guess was made, and until it is over no guess hit the target. */
    function IsGameOver(): (over: bool)
      reads this
      requires Valid()
      ensures over <==> gameStatus != Playing
      ensures over ==> |userGuesses| > 0
      ensures !over ==> forall i :: 0 <= i < |userGuesses| ==> userGuesses[i] != targetWord
      ensures over == GameModel.IsGameOver(State())
    {
      GameModel.IsGameOver(State())
    }

    /** `remainingRounds`: the limit less the guesses spent, a winning guess
      not counting as one. */
    function RemainingRounds(): (n: int)
      reads this
      requires Valid()
      ensures n == maxRounds - |userGuesses| + (if gameStatus == Won then 1 else 0)
      ensures n == GameModel.RemainingRounds(State())
    {
      GameModel.RemainingRounds(State())
    }

    /** `startNewGame(language, maxRounds)`, with `pick` for the random draw. */
    method StartNewGame(pick: nat, language: Language := English, maxRounds: int := DefaultMaxRounds)
      requires ValidLists(lists)
      modifies this
      ensures Valid()
      ensures State() == GameModel.StartNewGame(lists, language, maxRounds, pick)
      ensures targetWord in GameModel.WordsArray(lists, language)
      ensures this.language == language && this.maxRounds == maxRounds
      ensures currentRound == 0 && userGuesses == [] && gameStatus == Playing && currentGuess == ""
      ensures gameRange == Range("a", if language == English then "zyzzyva" else "zona")
    {
      this.language := language;
      this.maxRounds := maxRounds;
      var words := GameModel.WordsArray(lists, this.language);
      targetWord := words[pick % |words|];
      currentRound := 0;
      userGuesses := [];
      gameRange := Range(StartSentinel, EndSentinel(this.language));
      gameStatus := Playing;
      currentGuess := "";
      GameProperties.StartNewGameValid(lists, language, maxRounds, pick);
    }

    /** `submitGuess()`: ignores a blank input or a finished game; otherwise
      records the normalised guess and either wins or plays a round. */
    method SubmitGuess()
      requires Valid()
      modifies this
      ensures Valid()
      ensures State() == GameModel.SubmitGuess(old(State()))
    {
      ghost var before := State();
      if Trim(currentGuess) == [] || IsGameOver() {
        assert GameModel.SubmitGuess(before) == before;
        return;
      }
      var guess := Normalise(currentGuess);
      if guess == targetWord {
        assert GameModel.SubmitGuess(before) ==
          before.(gameStatus := Won, userGuesses := before.userGuesses + [guess], currentGuess := "");
        Win(guess);
      } else {
        GameProperties.SubmitGuessMissState(before);
        Miss(guess);
      }
      GameProperties.SubmitGuessKeepsInv(lists, before);
    }

    /** The winning branch of `submitGuess()`: ends the game as won,
      records the guess and clears the input, without counting a round. */
    method Win(guess: string)
      modifies this
      ensures State() ==
        old(State()).(gameStatus := Won, userGuesses := old(userGuesses) + [guess], currentGuess := "")
    {
      gameStatus := Won;
      userGuesses := userGuesses + [guess];
      currentGuess := "";
    }

    /** The non-winning branch of `submitGuess()`: records the guess, counts
      the round, updates the range, ends the game as lost once the round
      count reaches the limit, and clears the input. */
    method Miss(guess: string)
      modifies this
      ensures State() ==
        old(State()).(userGuesses := old(userGuesses) + [guess],
                      currentRound := old(currentRound) + 1,
                      gameRange := GameModel.UpdateGameRange(old(gameRange), guess, old(targetWord)),
                      gameStatus := if old(currentRound) + 1 >= old(maxRounds) then Lost else old(gameStatus),
                      currentGuess := "")
    {
      userGuesses := userGuesses + [guess];
      currentRound := currentRound + 1;
      UpdateGameRange(guess);
      if currentRound >= maxRounds {
        gameStatus := Lost;
      }
      currentGuess := "";
    }

    /** `updateGameRange(guess)`: moves the bound on the guess's side of the
      target to the guess. */
    method UpdateGameRange(guess: string)
      modifies this
      ensures gameRange == GameModel.UpdateGameRange(old(gameRange), guess, targetWord)
      ensures State() == old(State()).(gameRange := gameRange)
    {
      var target := targetWord;
      if LexLess(guess, target) {
        gameRange := gameRange.(start := guess);
      } else if LexLess(target, guess) {
        gameRange := gameRange.(end := guess);
      }
    }

    /** `resetGame()`: a new game with the current language and limit. */
    method ResetGame(pick: nat)
      requires Valid()
      modifies this
      ensures Valid()
      ensures State() == GameModel.ResetGame(lists, old(State()), pick)
      ensures language == old(language) && maxRounds == old(maxRounds) && gameStatus == Playing
    {
      StartNewGame(pick, language, maxRounds);
    }

    /** `setLanguage(language)`: a new game in that language. */
    method SetLanguage(language: Language, pick: nat)
      requires Valid()
      modifies this
      ensures Valid()
      ensures State() == GameModel.SetLanguage(lists, old(State()), language, pick)
      ensures this.language == language && maxRounds == old(maxRounds) && gameStatus == Playing
    {
      this.language := language;
      StartNewGame(pick, language, maxRounds);
    }

    /** `setMaxRounds(rounds)`: only the limit changes; a finished game stays
      finished. */
    method SetMaxRounds(rounds: int)
      requires Valid()
      modifies this
      ensures Valid()
      ensures State() == GameModel.SetMaxRounds(old(State()), rounds)
      ensures State() == old(State()).(maxRounds := rounds)
    {
      maxRounds := rounds;
    }

    /** `addLetter(letter)`. */
    method AddLetter(letter: string)
      requires Valid()
      modifies this
      ensures Valid()
      ensures State() == GameModel.AddLetter(old(State()), letter)
      ensures currentGuess == if old(gameStatus) == Playing then old(currentGuess) + letter else old(currentGuess)
      ensures State() == old(State()).(currentGuess := currentGuess)
    {
      if IsGameOver() {
        return;
      }
      currentGuess := currentGuess + letter;
    }

    /** `deleteLetter()`. */
    method DeleteLetter()
      requires Valid()
      modifies this
      ensures Valid()
      ensures State() == GameModel.DeleteLetter(old(State()))
      ensures old(gameStatus) != Playing || old(currentGuess) == [] ==> currentGuess == old(currentGuess)
      ensures old(gameStatus) == Playing && old(currentGuess) != [] ==>
        currentGuess == old(currentGuess)[..|old(currentGuess)| - 1]
      ensures State() == old(State()).(currentGuess := currentGuess)
    {
      if IsGameOver() {
        return;
      }
      if currentGuess != [] {
        currentGuess := currentGuess[..|currentGuess| - 1];
      }
    }

    /** `clearGuess()`: empties the input whatever the status. */
    method ClearGuess()
      requires Valid()
      modifies this
      ensures Valid()
      ensures State() == GameModel.ClearGuess(old(State()))
      ensures State() == old(State()).(currentGuess := "")
    {
      currentGuess := "";
    }
  }
}
