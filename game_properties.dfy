/** What the game engine promises, proved about the transition functions of
    GameModel: each action on its own, the invariant they all keep, and
    what holds over any sequence of actions. */
module GameProperties {
  import opened Text
  import opened LexOrder
  import opened GameModel

  // ----- Starting a game -----

  /** A new game draws its target from the chosen list, has played no
      round, is open, and satisfies the invariant. */
  lemma StartNewGameValid(lists: WordLists, language: Language, maxRounds: int, pick: nat)
    requires ValidLists(lists)
    ensures var t := StartNewGame(lists, language, maxRounds, pick);
      Inv(lists, t) &&
      t.targetWord in WordsArray(lists, language) &&
      t.language == language && t.maxRounds == maxRounds &&
      t.currentRound == 0 && t.userGuesses == [] &&
      t.gameRange == Range("a", if language == English then "zyzzyva" else "zona") &&
      t.gameStatus == Playing && t.currentGuess == "" &&
      RemainingRounds(t) == maxRounds
  {
  }

  // ----- The range rule -----

  /** A guess other than the target moves exactly one bound to itself: the
      start when it sorts before the target, the end when it sorts after. */
  lemma UpdateGameRangeDirectional(range: Range, guess: string, target: string)
    requires guess != target
    ensures var r := UpdateGameRange(range, guess, target);
      (LexLess(guess, target) && r.start == guess && r.end == range.end) ||
      (LexLess(target, guess) && r.end == guess && r.start == range.start)
    ensures var r := UpdateGameRange(range, guess, target);
      LexLess(guess, target) <==> r.start == guess && r.end == range.end && !LexLess(target, guess)
  {
    LexLessTotal(guess, target);
    if LexLess(guess, target) {
      LexLessAsymmetric(guess, target);
    }
  }

  /** The bound is overwritten, not tightened: a guess further from the
      target than the current start still replaces it, widening the range. */
  lemma RangeCanWiden(range: Range, guess: string, target: string)
    requires LexLess(guess, range.start) && LexLess(range.start, target)
    ensures UpdateGameRange(range, guess, target).start == guess
    ensures LexLess(UpdateGameRange(range, guess, target).start, range.start)
  {
    LexLessTransitive(guess, range.start, target);
  }

  /** When the target lies between the sentinels of its language, the range
      of every state satisfying the invariant contains the target, so
      `start <= end`. */
  lemma RangeBracketsTarget(lists: WordLists, s: GameState)
    requires Inv(lists, s)
    requires LexLessEq(StartSentinel, s.targetWord) && LexLessEq(s.targetWord, EndSentinel(s.language))
    ensures LexLessEq(s.gameRange.start, s.targetWord)
    ensures LexLessEq(s.targetWord, s.gameRange.end)
    ensures LexLessEq(s.gameRange.start, s.gameRange.end)
  {
    var a, t, b := s.gameRange.start, s.targetWord, s.gameRange.end;
    if a != t && t != b {
      LexLessTransitive(a, t, b);
    }
  }

  // ----- Submitting a guess -----

  /** `submitGuess()` does nothing exactly when the trimmed input is empty or
      the game is over. */
  lemma SubmitGuessNoOpIff(s: GameState)
    ensures SubmitGuess(s) == s <==> Trim(s.currentGuess) == [] || IsGameOver(s)
  {
    if !(Trim(s.currentGuess) == [] || IsGameOver(s)) {
      assert |SubmitGuess(s).userGuesses| == |s.userGuesses| + 1;
    }
  }

  /** A winning guess ends the game as won, records the guess and clears the
      input; it does not count as a round and leaves the range alone. */
  lemma SubmitGuessWin(s: GameState)
    requires !IsGameOver(s) && Trim(s.currentGuess) != []
    requires Normalise(s.currentGuess) == s.targetWord
    ensures var t := SubmitGuess(s);
      t.gameStatus == Won && IsGameOver(t) &&
      t.userGuesses == s.userGuesses + [s.targetWord] &&
      t.currentGuess == "" &&
      t.currentRound == s.currentRound && t.gameRange == s.gameRange &&
      t.targetWord == s.targetWord && t.maxRounds == s.maxRounds && t.language == s.language
  {
  }

  /** A non-winning guess records exactly the normalised, non-empty guess,
      counts one round, moves the bound on its side of the target, clears
      the input, and loses the game exactly when the round count reaches
      the limit. */
  lemma SubmitGuessMiss(s: GameState)
    requires !IsGameOver(s) && Trim(s.currentGuess) != []
    requires Normalise(s.currentGuess) != s.targetWord
    ensures var t, g := SubmitGuess(s), Normalise(s.currentGuess);
      IsGuessWord(g) &&
      t.userGuesses == s.userGuesses + [g] &&
      t.currentRound == s.currentRound + 1 &&
      RemainingRounds(t) == RemainingRounds(s) - 1 &&
      t.currentGuess == "" &&
      (t.gameStatus == Lost <==> t.currentRound >= t.maxRounds) &&
      (t.gameStatus == Playing <==> t.currentRound < t.maxRounds) &&
      ((LexLess(g, s.targetWord) && t.gameRange == s.gameRange.(start := g)) ||
       (LexLess(s.targetWord, g) && t.gameRange == s.gameRange.(end := g))) &&
      t.targetWord == s.targetWord && t.maxRounds == s.maxRounds && t.language == s.language
  {
    var g := Normalise(s.currentGuess);
    NormaliseGivesGuessWord(s.currentGuess);
    UpdateGameRangeDirectional(s.gameRange, g, s.targetWord);
  }

  /** Appending a guess to a history none of whose entries is the target
      leaves those entries as they were, and keeps the history free of the
      target when the new guess is not the target either. */
  lemma ExtendHistory(guesses: seq<string>, g: string, target: string)
    requires forall i :: 0 <= i < |guesses| ==> guesses[i] != target
    ensures forall i :: 0 <= i < |guesses| ==> (guesses + [g])[i] != target
    ensures g != target ==> forall i :: 0 <= i < |guesses| + 1 ==> (guesses + [g])[i] != target
  {
  }

  /** Recording a winning guess keeps the invariant. */
  lemma RecordWinKeepsInv(lists: WordLists, s: GameState, g: string)
    requires Inv(lists, s) && s.gameStatus == Playing
    requires g == s.targetWord && IsGuessWord(g)
    ensures Inv(lists, s.(gameStatus := Won, userGuesses := s.userGuesses + [g], currentGuess := ""))
  {
    var t := s.(gameStatus := Won, userGuesses := s.userGuesses + [g], currentGuess := "");
    ExtendHistory(s.userGuesses, g, s.targetWord);
    assert t.userGuesses[t.currentRound] == t.targetWord;
    assert forall h :: h in t.userGuesses ==> h in s.userGuesses || h == g;
  }

  /** A winning `submitGuess()` keeps the invariant. */
  lemma WinKeepsInv(lists: WordLists, s: GameState)
    requires Inv(lists, s) && !IsGameOver(s) && Trim(s.currentGuess) != []
    requires Normalise(s.currentGuess) == s.targetWord
    ensures Inv(lists, SubmitGuess(s))
  {
    var g := Normalise(s.currentGuess);
    NormaliseGivesGuessWord(s.currentGuess);
    RecordWinKeepsInv(lists, s, g);
  }

  /** Recording a non-winning guess as a round keeps the invariant. */
  lemma RecordMissKeepsInv(lists: WordLists, s: GameState, g: string)
    requires Inv(lists, s) && s.gameStatus == Playing
    requires g != s.targetWord && IsGuessWord(g)
    ensures Inv(lists, s.(userGuesses := s.userGuesses + [g],
                          currentRound := s.currentRound + 1,
                          gameRange := UpdateGameRange(s.gameRange, g, s.targetWord),
                          gameStatus := if s.currentRound + 1 >= s.maxRounds then Lost else Playing,
                          currentGuess := ""))
  {
    UpdateGameRangeDirectional(s.gameRange, g, s.targetWord);
    ExtendHistory(s.userGuesses, g, s.targetWord);
    assert forall h :: h in s.userGuesses + [g] ==> h in s.userGuesses || h == g;
  }

  /** A non-winning `submitGuess()` keeps the invariant. */
  lemma MissKeepsInv(lists: WordLists, s: GameState)
    requires Inv(lists, s) && !IsGameOver(s) && Trim(s.currentGuess) != []
    requires Normalise(s.currentGuess) != s.targetWord
    ensures Inv(lists, SubmitGuess(s))
  {
    NormaliseGivesGuessWord(s.currentGuess);
    SubmitGuessMissState(s);
    RecordMissKeepsInv(lists, s, Normalise(s.currentGuess));
  }

  /** Helper: unfolds the miss branch of `SubmitGuess` field by field. */
  lemma SubmitGuessMissState(s: GameState)
    requires !IsGameOver(s) && Trim(s.currentGuess) != []
    requires Normalise(s.currentGuess) != s.targetWord
    ensures var g := Normalise(s.currentGuess);
      SubmitGuess(s) ==
        s.(userGuesses := s.userGuesses + [g],
           currentRound := s.currentRound + 1,
           gameRange := UpdateGameRange(s.gameRange, g, s.targetWord),
           gameStatus := if s.currentRound + 1 >= s.maxRounds then Lost else Playing,
           currentGuess := "")
  {
  }

  /** `submitGuess()` keeps the invariant. */
  lemma SubmitGuessKeepsInv(lists: WordLists, s: GameState)
    requires Inv(lists, s)
    ensures Inv(lists, SubmitGuess(s))
  {
    if Trim(s.currentGuess) != [] && !IsGameOver(s) {
      if Normalise(s.currentGuess) == s.targetWord {
        WinKeepsInv(lists, s);
      } else {
        MissKeepsInv(lists, s);
      }
    }
  }

  // ----- The keyboard -----

  /** `addLetter` appends its argument verbatim while the game is open, and
      does nothing once it is over; nothing but the input ever changes. */
  lemma AddLetterAppends(s: GameState, letter: string)
    ensures var t := AddLetter(s, letter);
      t.currentGuess == (if IsGameOver(s) then s.currentGuess else s.currentGuess + letter) &&
      t == s.(currentGuess := t.currentGuess)
  {
  }

  /** `deleteLetter` drops the last character while the game is open (an
      empty input stays empty), and does nothing once it is over. */
  lemma DeleteLetterDrops(s: GameState)
    ensures var t := DeleteLetter(s);
      t == s.(currentGuess := t.currentGuess) &&
      (IsGameOver(s) ==> t == s) &&
      (!IsGameOver(s) && s.currentGuess != [] ==>
        t.currentGuess + [s.currentGuess[|s.currentGuess| - 1]] == s.currentGuess) &&
      (s.currentGuess == [] ==> t.currentGuess == [])
  {
  }

  /** While the game is open, deleting a letter undoes adding it. */
  lemma DeleteUndoesAddLetter(s: GameState, c: char)
    requires !IsGameOver(s)
    ensures DeleteLetter(AddLetter(s, [c])) == s
  {
    assert (s.currentGuess + [c])[..|s.currentGuess|] == s.currentGuess;
  }

  /** `clearGuess` empties the input in every state, over or not, and
      changes nothing else; clearing twice is clearing once. */
  lemma ClearGuessEmpties(s: GameState)
    ensures ClearGuess(s).currentGuess == []
    ensures ClearGuess(s) == s.(currentGuess := [])
    ensures ClearGuess(ClearGuess(s)) == ClearGuess(s)
  {
  }

  // ----- Any single action -----

  /** Every action keeps the invariant. */
  lemma StepKeepsInv(lists: WordLists, s: GameState, a: Action)
    requires Inv(lists, s)
    ensures Inv(lists, Step(lists, s, a))
  {
    match a
    case StartNewGameAction(language, maxRounds, pick) =>
      StartNewGameValid(lists, language, maxRounds, pick);
    case ResetGameAction(pick) =>
      StartNewGameValid(lists, s.language, s.maxRounds, pick);
    case SetLanguageAction(language, pick) =>
      StartNewGameValid(lists, language, s.maxRounds, pick);
    case SubmitGuessAction =>
      SubmitGuessKeepsInv(lists, s);
    case _ =>
  }

  /** The status only moves from `playing` to `won` or `lost`, except that a
      new game (started, reset, or by changing language) reopens it; the
      target and language likewise change only with a new game. */
  lemma StepStatusTransitions(lists: WordLists, s: GameState, a: Action)
    requires ValidLists(lists)
    ensures var t := Step(lists, s, a);
      (t.gameStatus != s.gameStatus ==> s.gameStatus == Playing || IsRestart(a)) &&
      (IsRestart(a) ==> t.gameStatus == Playing) &&
      (!IsRestart(a) ==> t.targetWord == s.targetWord && t.language == s.language)
  {
  }

  // ----- Any sequence of actions -----

  /** Every state reached from a state satisfying the invariant satisfies it:
      in particular the history is as long as the round count, plus one
      once the game is won. */
  lemma {:induction false} RunKeepsInv(lists: WordLists, s: GameState, actions: seq<Action>)
    requires Inv(lists, s)
    ensures Inv(lists, Run(lists, s, actions))
    ensures var t := Run(lists, s, actions);
      |t.userGuesses| == t.currentRound + (if t.gameStatus == Won then 1 else 0)
    decreases |actions|
  {
    if actions != [] {
      StepKeepsInv(lists, s, actions[0]);
      RunKeepsInv(lists, Step(lists, s, actions[0]), actions[1..]);
    }
  }

  /** Once the game is won or lost, no sequence of actions without a new
      game changes it: status, target, language, round count, history and
      range stay put; only the round limit and the pending input can move. */
  lemma {:induction false} FinishedGameIsFrozen(lists: WordLists, s: GameState, actions: seq<Action>)
    requires ValidLists(lists)
    requires IsGameOver(s)
    requires forall i :: 0 <= i < |actions| ==> !IsRestart(actions[i])
    ensures var t := Run(lists, s, actions);
      t == s.(maxRounds := t.maxRounds, currentGuess := t.currentGuess)
    decreases |actions|
  {
    if actions != [] {
      var s' := Step(lists, s, actions[0]);
      assert !IsRestart(actions[0]);
      assert s' == s.(maxRounds := s'.maxRounds, currentGuess := s'.currentGuess);
      FinishedGameIsFrozen(lists, s', actions[1..]);
    }
  }

  /** Round-limit bookkeeping that holds as long as the limit is not changed
      mid-game: at least one round is allowed, an open or won game has
      rounds left, and a lost game used exactly all of them. */
  predicate WithinLimit(s: GameState) {
    s.maxRounds >= 1 &&
    (s.gameStatus == Lost ==> s.currentRound == s.maxRounds) &&
    (s.gameStatus != Lost ==> s.currentRound < s.maxRounds)
  }

  /** An action that keeps the round limit at least one and unchanged within a game. */
  predicate KeepsLimit(a: Action) {
    !a.SetMaxRoundsAction? && (a.StartNewGameAction? ==> a.maxRounds >= 1)
  }

  /** As long as no action changes the limit, or starts a game whose limit
      is below one, no game plays more rounds than its limit allows. */
  lemma {:induction false} RunKeepsWithinLimit(lists: WordLists, s: GameState, actions: seq<Action>)
    requires ValidLists(lists) && WithinLimit(s)
    requires forall i :: 0 <= i < |actions| ==> KeepsLimit(actions[i])
    ensures WithinLimit(Run(lists, s, actions))
    ensures Run(lists, s, actions).currentRound <= Run(lists, s, actions).maxRounds
    decreases |actions|
  {
    if actions != [] {
      assert KeepsLimit(actions[0]);
      RunKeepsWithinLimit(lists, Step(lists, s, actions[0]), actions[1..]);
    }
  }

  /** `setMaxRounds` below the rounds already played leaves the game open
      with more rounds played than allowed: the limit is only enforced by the
      next `submitGuess()`, which then loses the game. */
  lemma SetMaxRoundsMayExceedLimit(s: GameState, rounds: int)
    requires s.gameStatus == Playing && rounds < s.currentRound
    requires Trim(s.currentGuess) != [] && Normalise(s.currentGuess) != s.targetWord
    ensures var t := SetMaxRounds(s, rounds);
      t.gameStatus == Playing && t.currentRound > t.maxRounds && RemainingRounds(t) < 0 &&
      SubmitGuess(t).gameStatus == Lost
  {
  }

  /** Typing a word and submitting it, for each word in turn. */
  function TypeAndSubmit(words: seq<string>): (actions: seq<Action>)
    ensures |actions| == 2 * |words|
    ensures forall i :: 0 <= i < |actions| ==> !IsRestart(actions[i]) && KeepsLimit(actions[i])
  {
    if words == [] then [] else [AddLetterAction(words[0]), SubmitGuessAction] + TypeAndSubmit(words[1..])
  }

  /** Running typed words peels off the first word. */
  lemma RunTypeAndSubmit(lists: WordLists, s: GameState, words: seq<string>)
    requires ValidLists(lists) && words != []
    ensures Run(lists, s, TypeAndSubmit(words)) ==
      Run(lists, SubmitGuess(AddLetter(s, words[0])), TypeAndSubmit(words[1..]))
  {
    var rest := TypeAndSubmit(words[1..]);
    var actions := [AddLetterAction(words[0]), SubmitGuessAction] + rest;
    assert actions[0] == AddLetterAction(words[0]);
    assert actions[1..] == [SubmitGuessAction] + rest;
    assert ([SubmitGuessAction] + rest)[1..] == rest;
  }

  /** Typing one non-winning word into an empty input and submitting it
      plays one round. */
  lemma TypeMiss(s: GameState, w: string)
    requires s.gameStatus == Playing && s.currentGuess == [] && s.currentRound < s.maxRounds
    requires Trim(w) != [] && Normalise(w) != s.targetWord
    ensures var t := SubmitGuess(AddLetter(s, w));
      t.currentRound == s.currentRound + 1 &&
      |t.userGuesses| == |s.userGuesses| + 1 &&
      t.currentGuess == [] &&
      t.gameStatus == (if t.currentRound == s.maxRounds then Lost else Playing) &&
      t.targetWord == s.targetWord && t.maxRounds == s.maxRounds
  {
    var s1 := AddLetter(s, w);
    assert s1.currentGuess == w;
    SubmitGuessMiss(s1);
  }

  /** Typing and submitting words that are not blank and do not normalise to
      the target, from an open game with an empty input and enough rounds
      left, plays one round per word and loses exactly when the last allowed
      round is played. */
  lemma {:induction false} MissesUseRounds(lists: WordLists, s: GameState, words: seq<string>)
    requires ValidLists(lists)
    requires s.gameStatus == Playing && s.currentGuess == []
    requires s.currentRound + |words| <= s.maxRounds
    requires forall i :: 0 <= i < |words| ==> Trim(words[i]) != [] && Normalise(words[i]) != s.targetWord
    ensures var t := Run(lists, s, TypeAndSubmit(words));
      t.currentRound == s.currentRound + |words| &&
      |t.userGuesses| == |s.userGuesses| + |words| &&
      t.currentGuess == [] &&
      t.gameStatus == (if words != [] && t.currentRound == s.maxRounds then Lost else Playing)
    decreases |words|
  {
    if words != [] {
      var w, rest := words[0], words[1..];
      assert Trim(w) != [] && Normalise(w) != s.targetWord;
      TypeMiss(s, w);
      var s2 := SubmitGuess(AddLetter(s, w));
      RunTypeAndSubmit(lists, s, words);
      if rest != [] {
        forall i | 0 <= i < |rest| ensures Trim(rest[i]) != [] && Normalise(rest[i]) != s2.targetWord {
          assert rest[i] == words[i + 1];
        }
        MissesUseRounds(lists, s2, rest);
      }
    }
  }

  /** A new game with limit `n >= 1`, followed by `n` non-winning guesses,
      ends lost with `n` rounds played. */
  lemma RoundLimitEndsGame(lists: WordLists, language: Language, n: int, pick: nat, words: seq<string>)
    requires ValidLists(lists) && n >= 1 && |words| == n
    requires forall i :: 0 <= i < |words| ==>
      Trim(words[i]) != [] && Normalise(words[i]) != StartNewGame(lists, language, n, pick).targetWord
    ensures var t := Run(lists, StartNewGame(lists, language, n, pick), TypeAndSubmit(words));
      t.gameStatus == Lost && t.currentRound == n && |t.userGuesses| == n
  {
    MissesUseRounds(lists, StartNewGame(lists, language, n, pick), words);
  }

  // ----- Worked games -----

  /** Submitting an input that already is a guess word other than the
      target, while the game is open, plays that word as a round. */
  lemma SubmitGuessWordMiss(s: GameState)
    requires s.gameStatus == Playing
    requires IsGuessWord(s.currentGuess) && s.currentGuess != s.targetWord
    ensures SubmitGuess(s) ==
      s.(userGuesses := s.userGuesses + [s.currentGuess],
         currentRound := s.currentRound + 1,
         gameRange := UpdateGameRange(s.gameRange, s.currentGuess, s.targetWord),
         gameStatus := if s.currentRound + 1 >= s.maxRounds then Lost else Playing,
         currentGuess := "")
  {
    GuessWordIsNormal(s.currentGuess);
    TrimOfTrimmed(s.currentGuess);
    SubmitGuessMissState(s);
  }

  /** With "dog" typed, submitting it: "dog" sorts after "cat", so it
      becomes the end of the range. */
  lemma CatGameFirstMiss()
    ensures SubmitGuess(GameState("cat", English, 0, 3, [], Range("a", "zyzzyva"), Playing, "dog")) ==
      GameState("cat", English, 1, 3, ["dog"], Range("a", "dog"), Playing, "")
  {
    SubmitGuessWordMiss(GameState("cat", English, 0, 3, [], Range("a", "zyzzyva"), Playing, "dog"));
  }

  /** With "ant" typed: it sorts before "cat", so it becomes the start of
      the range. */
  lemma CatGameSecondMiss()
    ensures SubmitGuess(GameState("cat", English, 1, 3, ["dog"], Range("a", "dog"), Playing, "ant")) ==
      GameState("cat", English, 2, 3, ["dog", "ant"], Range("ant", "dog"), Playing, "")
  {
    SubmitGuessWordMiss(GameState("cat", English, 1, 3, ["dog"], Range("a", "dog"), Playing, "ant"));
  }

  /** With "bee" typed: it also sorts before "cat" and replaces "ant" as
      the start; it is the third round, so the game is lost. */
  lemma CatGameThirdMiss()
    ensures SubmitGuess(GameState("cat", English, 2, 3, ["dog", "ant"], Range("ant", "dog"), Playing, "bee")) ==
      GameState("cat", English, 3, 3, ["dog", "ant", "bee"], Range("bee", "dog"), Lost, "")
  {
    SubmitGuessWordMiss(GameState("cat", English, 2, 3, ["dog", "ant"], Range("ant", "dog"), Playing, "bee"));
  }

  /** Target "cat", limit 3: "dog" lowers the end, "ant" and then "bee"
      raise the start, and the third round loses the game. */
  lemma ScenarioThreeMisses()
    ensures var s0 := StartNewGame(WordLists(["cat"], ["gatto"]), English, 3, 0);
      var s1 := SubmitGuess(AddLetter(s0, "dog"));
      var s2 := SubmitGuess(AddLetter(s1, "ant"));
      var s3 := SubmitGuess(AddLetter(s2, "bee"));
      s1.gameRange == Range("a", "dog") && s1.currentRound == 1 && s1.gameStatus == Playing &&
      s2.gameRange == Range("ant", "dog") && s2.currentRound == 2 && s2.gameStatus == Playing &&
      s3.gameRange == Range("bee", "dog") && s3.currentRound == 3 && s3.gameStatus == Lost &&
      s3.userGuesses == ["dog", "ant", "bee"]
  {
    assert StartNewGame(WordLists(["cat"], ["gatto"]), English, 3, 0) ==
      GameState("cat", English, 0, 3, [], Range("a", "zyzzyva"), Playing, "");
    CatGameFirstMiss();
    assert AddLetter(GameState("cat", English, 0, 3, [], Range("a", "zyzzyva"), Playing, ""), "dog") ==
      GameState("cat", English, 0, 3, [], Range("a", "zyzzyva"), Playing, "dog");
    CatGameSecondMiss();
    assert AddLetter(GameState("cat", English, 1, 3, ["dog"], Range("a", "dog"), Playing, ""), "ant") ==
      GameState("cat", English, 1, 3, ["dog"], Range("a", "dog"), Playing, "ant");
    CatGameThirdMiss();
    assert AddLetter(GameState("cat", English, 2, 3, ["dog", "ant"], Range("ant", "dog"), Playing, ""), "bee") ==
      GameState("cat", English, 2, 3, ["dog", "ant"], Range("ant", "dog"), Playing, "bee");
  }

  /** `" cat ".trim()` is `"cat"`. */
  lemma TrimSpacedCat()
    ensures Trim(" cat ") == "cat"
  {
    assert TrimStart(" cat ") == "cat ";
    assert TrimEnd("cat ") == "cat";
  }

  /** `" Cat "` is not blank and normalises to `"cat"`. */
  lemma NormaliseSpacedCat()
    ensures Trim(" Cat ") != [] && Normalise(" Cat ") == "cat"
  {
    assert ToLower(" Cat ") == " cat ";
    TrimSpacedCat();
    NormaliseEmptyIffTrimEmpty(" Cat ");
  }

  /** Target "cat": typing " Cat " and submitting wins at once, storing
      "cat" and playing no round. */
  lemma ScenarioWin()
    ensures var lists := WordLists(["cat"], ["gatto"]);
      var s0 := StartNewGame(lists, English, 20, 0);
      var s1 := SubmitGuess(AddLetter(s0, " Cat "));
      s1.gameStatus == Won && s1.userGuesses == ["cat"] && s1.currentRound == 0 && s1.currentGuess == ""
  {
    var s0 := StartNewGame(WordLists(["cat"], ["gatto"]), English, 20, 0);
    assert s0 == GameState("cat", English, 0, 20, [], Range("a", "zyzzyva"), Playing, "");
    NormaliseSpacedCat();
    var a := s0.(currentGuess := " Cat ");
    assert AddLetter(s0, " Cat ") == a;
    SubmitGuessWin(a);
  }
}
