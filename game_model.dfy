/** The game's state as values, and every action of the game engine as a
    function from the state before to the state after. The class in
    GameEngine is proved to change its fields exactly as these functions say. */
module GameModel {
  import opened Text
  import opened LexOrder

  datatype Language = English | Italian

  datatype Status = Playing | Won | Lost

  /** The lexicographic interval the player has narrowed the target to. */
  datatype Range = Range(start: string, end: string)

  /** The game state record, plus the pending input `currentGuess`, which
      the engine keeps beside it. The unused loading flag is not modelled. */
  datatype GameState = GameState(
    targetWord: string,
    language: Language,
    currentRound: nat,
    maxRounds: int,
    userGuesses: seq<string>,
    gameRange: Range,
    gameStatus: Status,
    currentGuess: string)

  /** The word lists the engine draws targets from, one per language. */
  datatype WordLists = WordLists(english: seq<string>, italian: seq<string>)

  predicate ValidLists(lists: WordLists) {
    |lists.english| > 0 && |lists.italian| > 0
  }

  const DefaultMaxRounds: int := 20

  /** The lower sentinel of a fresh range, for both languages. */
  const StartSentinel: string := "a"

  /** The upper sentinel of a fresh range. */
  function EndSentinel(language: Language): string {
    if language == English then "zyzzyva" else "zona"
  }

  /** The `wordsArray` view: the list of the given language. */
  function WordsArray(lists: WordLists, language: Language): seq<string> {
    if language == English then lists.english else lists.italian
  }

  /** The `isGameOver` view. */
  predicate IsGameOver(s: GameState) {
    s.gameStatus != Playing
  }

  /** The `remainingRounds` view. */
  function RemainingRounds(s: GameState): int {
    s.maxRounds - s.currentRound
  }

  /** `startNewGame(language, maxRounds)`; `pick` stands for the random
      draw, and `pick % |words|` can be any index of the list. */
  function StartNewGame(lists: WordLists, language: Language, maxRounds: int, pick: nat): GameState
    requires ValidLists(lists)
  {
    var words := WordsArray(lists, language);
    GameState(
      targetWord := words[pick % |words|],
      language := language,
      currentRound := 0,
      maxRounds := maxRounds,
      userGuesses := [],
      gameRange := Range(StartSentinel, EndSentinel(language)),
      gameStatus := Playing,
      currentGuess := "")
  }

  /** `updateGameRange(guess)`: a guess below the target becomes the start,
      one above it becomes the end. */
  function UpdateGameRange(range: Range, guess: string, target: string): Range {
    if LexLess(guess, target) then range.(start := guess)
    else if LexLess(target, guess) then range.(end := guess)
    else range
  }

  /** `submitGuess()`. */
  function SubmitGuess(s: GameState): GameState {
    if Trim(s.currentGuess) == [] || IsGameOver(s) then s
    else
      var guess := Normalise(s.currentGuess);
      if guess == s.targetWord then
        s.(gameStatus := Won, userGuesses := s.userGuesses + [guess], currentGuess := "")
      else
        var round := s.currentRound + 1;
        s.(userGuesses := s.userGuesses + [guess],
           currentRound := round,
           gameRange := UpdateGameRange(s.gameRange, guess, s.targetWord),
           gameStatus := if round >= s.maxRounds then Lost else s.gameStatus,
           currentGuess := "")
  }

  /** `resetGame()`: a new game with the current language and round limit. */
  function ResetGame(lists: WordLists, s: GameState, pick: nat): GameState
    requires ValidLists(lists)
  {
    StartNewGame(lists, s.language, s.maxRounds, pick)
  }

  /** `setLanguage(language)`: a new game in that language. */
  function SetLanguage(lists: WordLists, s: GameState, language: Language, pick: nat): GameState
    requires ValidLists(lists)
  {
    StartNewGame(lists, language, s.maxRounds, pick)
  }

  /** `setMaxRounds(rounds)`. */
  function SetMaxRounds(s: GameState, rounds: int): GameState {
    s.(maxRounds := rounds)
  }

  /** `addLetter(letter)`. */
  function AddLetter(s: GameState, letter: string): GameState {
    if IsGameOver(s) then s else s.(currentGuess := s.currentGuess + letter)
  }

  /** `deleteLetter()`: `slice(0, -1)`, which leaves an empty string empty. */
  function DeleteLetter(s: GameState): GameState {
    if IsGameOver(s) then s
    else if s.currentGuess == [] then s
    else s.(currentGuess := s.currentGuess[..|s.currentGuess| - 1])
  }

  /** `clearGuess()`. */
  function ClearGuess(s: GameState): GameState {
    s.(currentGuess := "")
  }

  /** One call of an action the engine exposes, with its arguments. */
  datatype Action =
    | StartNewGameAction(language: Language, maxRounds: int, pick: nat)
    | SubmitGuessAction
    | ResetGameAction(pick: nat)
    | SetLanguageAction(language: Language, pick: nat)
    | SetMaxRoundsAction(rounds: int)
    | AddLetterAction(letter: string)
    | DeleteLetterAction
    | ClearGuessAction

  /** The actions that start a new game. */
  predicate IsRestart(a: Action) {
    a.StartNewGameAction? || a.ResetGameAction? || a.SetLanguageAction?
  }

  function Step(lists: WordLists, s: GameState, a: Action): GameState
    requires ValidLists(lists)
  {
    match a
    case StartNewGameAction(language, maxRounds, pick) => StartNewGame(lists, language, maxRounds, pick)
    case SubmitGuessAction => SubmitGuess(s)
    case ResetGameAction(pick) => ResetGame(lists, s, pick)
    case SetLanguageAction(language, pick) => SetLanguage(lists, s, language, pick)
    case SetMaxRoundsAction(rounds) => SetMaxRounds(s, rounds)
    case AddLetterAction(letter) => AddLetter(s, letter)
    case DeleteLetterAction => DeleteLetter(s)
    case ClearGuessAction => ClearGuess(s)
  }

  /** The state after a sequence of actions, in order. */
  function Run(lists: WordLists, s: GameState, actions: seq<Action>): GameState
    requires ValidLists(lists)
    decreases |actions|
  {
    if actions == [] then s else Run(lists, Step(lists, s, actions[0]), actions[1..])
  }

  /** The invariant every state the engine reaches keeps:
      - the target is a word of the current language's list;
      - every guess made so far but the winning one is a round, so the
        history is one longer than the round count once the game is won;
      - no round guessed the target, and a won game's last guess did;
      - a lost game has played at least one round;
      - every stored guess is non-empty, trimmed and lower-case;
      - each bound of the range is its sentinel or a guess on that side of
        the target. */
  ghost predicate Inv(lists: WordLists, s: GameState) {
    ValidLists(lists) &&
    s.targetWord in WordsArray(lists, s.language) &&
    |s.userGuesses| == s.currentRound + (if s.gameStatus == Won then 1 else 0) &&
    (forall i :: 0 <= i < s.currentRound ==> s.userGuesses[i] != s.targetWord) &&
    (s.gameStatus == Won ==> s.userGuesses[s.currentRound] == s.targetWord) &&
    (s.gameStatus == Lost ==> s.currentRound > 0) &&
    (forall g :: g in s.userGuesses ==> IsGuessWord(g)) &&
    (s.gameRange.start == StartSentinel ||
      (s.gameRange.start in s.userGuesses && LexLess(s.gameRange.start, s.targetWord))) &&
    (s.gameRange.end == EndSentinel(s.language) ||
      (s.gameRange.end in s.userGuesses && LexLess(s.targetWord, s.gameRange.end)))
  }
}
