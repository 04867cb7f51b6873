/** src/modules/WordleGame.ts: one game of the `modules` variant. The word to guess is a
    string, each play spends one of the remaining attempts, and the outcome is reported to
    an optional player. */
module ModulesWordleGame {
  import opened Common
  import opened GameLogicService
  import ArrayUtils
  import WordValidatorService
  import EntitiesPlayer

  /** The error messages the game throws. */
  const NotLoaded := "Wordle not loaded"
  const FailedToLoad := "Failed to load wordle"

  /** The codes `play` returns. */
  const Won := 1
  const Lost := -1
  const Continue := 0
  const NoAttemptsLeft := -2

  /** A guess wins exactly when it starts with the word to guess (see `SolvedIff`). */
  predicate Solves(guess: string, wordle: string)
  {
    |guess| >= |wordle| && guess[..|wordle|] == wordle
  }

  class WordleGame {
    const gameMode: string
    /** The list the constructor receives; no code path of the game reads it. */
    const dictionaryWords: seq<string>
    const player: EntitiesPlayer.Player?
    var maxAttempts: int
    var attemptRemaining: int
    var wordle: Option<string>
    var gameOver: bool
    var gameWon: bool

    /** `!this.wordle`: no word was loaded (null) or it is the empty string. */
    predicate Loaded()
      reads this
    {
      wordle.Some? && wordle.value != ""
    }

    /** What every method keeps: the remaining attempts never exceed the maximum, a loaded
        word sets the maximum to its length, and the counter of a loaded game stays
        non-negative; the player's own invariant holds. */
    ghost predicate Valid()
      reads this, player
    {
      && attemptRemaining <= maxAttempts
      && (Loaded() ==> maxAttempts == |wordle.value| && 0 <= attemptRemaining)
      && (player != null ==> player.Valid())
    }

    /** `game_mode || 'normal'` and `maxAttempts || 5`: an absent or zero maximum becomes 5. */
    constructor(dictionaryWords: seq<string>, player: EntitiesPlayer.Player?, gameMode: Option<string>, maxAttempts: Option<int>)
      requires player != null ==> player.Valid()
      ensures Valid()
      ensures this.dictionaryWords == dictionaryWords && this.player == player
      ensures this.gameMode == StringOr(gameMode, "normal")
      ensures this.maxAttempts == (if maxAttempts.Some? && maxAttempts.value != 0 then maxAttempts.value else 5)
      ensures attemptRemaining == this.maxAttempts
      ensures wordle == None && !gameOver && !gameWon
    {
      this.dictionaryWords := dictionaryWords;
      this.player := player;
      this.gameMode := StringOr(gameMode, "normal");
      this.maxAttempts := if maxAttempts.Some? && maxAttempts.value != 0 then maxAttempts.value else 5;
      attemptRemaining := if maxAttempts.Some? && maxAttempts.value != 0 then maxAttempts.value else 5;
      wordle := None;
      gameOver := false;
      gameWon := false;
    }

    /** Never throws, whatever the word: `validate` is `async`, so each `!validate(word)`
        negates a Promise, which is truthy. The three services still run; the dictionary
        service is given an object without `loadDictionary`, so its Promise rejects, and
        the rejection is not handled. */
    method IsValidWord(word: string) returns (r: Completion<bool>)
      ensures r == Normal(true)
    {
      var lenService := new WordValidatorService.WordValidationService([WordValidatorService.ExactLen], WordValidatorService.NoSource);
      var letterService := new WordValidatorService.WordValidationService([WordValidatorService.OnlyLetters], WordValidatorService.NoSource);
      var dictService := new WordValidatorService.WordValidationService([WordValidatorService.InDictionary], WordValidatorService.WithoutLoadDictionary);
      var lenOutcome, letterOutcome, dictOutcome;
      ghost var examined;
      lenOutcome, examined := lenService.Validate(word);
      letterOutcome, examined := letterService.Validate(word);
      dictOutcome, examined := dictService.Validate(word);
      return Normal(true);
    }

    /** Takes the word the supplier resolved to: the empty string fails; any other word is
        loaded, and the maximum and the remaining attempts become its length. */
    method LoadWordle(word: string) returns (r: Completion<()>)
      modifies this`wordle, this`maxAttempts, this`attemptRemaining
      requires Valid()
      ensures Valid()
      ensures word == "" ==> r == Throw(FailedToLoad) && unchanged(this)
      ensures word != "" ==>
        r == Normal(()) && wordle == Some(word) && maxAttempts == |word| && attemptRemaining == |word|
    {
      var valid := Normal(false);
      if word != "" {
        valid := IsValidWord(word);
      }
      if word != "" && valid.value {
        wordle := Some(word);
        maxAttempts := |word|;
        attemptRemaining := maxAttempts;
        return Normal(());
      } else {
        return Throw(FailedToLoad);
      }
    }

    /** One guess. Without a loaded word it throws; with no attempt left it ends the game
        and returns -2; otherwise it spends an attempt and returns 1 when every colour is
        green (the player records a win with the attempts still remaining), -1 when that
        was the last attempt (the player records a loss), and 0 otherwise. */
    method Play(word: string) returns (r: Completion<int>)
      modifies this`attemptRemaining, this`gameOver, this`gameWon, player
      requires Valid()
      ensures Valid()
      ensures wordle == old(wordle) && maxAttempts == old(maxAttempts)
      ensures !Loaded() ==> r == Throw(NotLoaded) && unchanged(this) && (player != null ==> unchanged(player))
      ensures Loaded() && old(attemptRemaining) <= 0 ==>
        r == Normal(NoAttemptsLeft) && gameOver && gameWon == old(gameWon)
        && attemptRemaining == old(attemptRemaining) && (player != null ==> unchanged(player))
      ensures Loaded() && old(attemptRemaining) > 0 ==> attemptRemaining == old(attemptRemaining) - 1
      ensures Loaded() && old(attemptRemaining) > 0 && Solves(word, wordle.value) ==>
        r == Normal(Won) && gameWon && gameOver == old(gameOver)
        && (player != null ==> player.gamesPlayed == old(player.gamesPlayed) + [EntitiesPlayer.GameHistory(wordle.value, attemptRemaining, true)])
      ensures Loaded() && old(attemptRemaining) == 1 && !Solves(word, wordle.value) ==>
        r == Normal(Lost) && gameOver && gameWon == old(gameWon)
        && (player != null ==> player.gamesPlayed == old(player.gamesPlayed) + [EntitiesPlayer.GameHistory(wordle.value, EntitiesPlayer.LossAttempts, false)])
      ensures Loaded() && old(attemptRemaining) > 1 && !Solves(word, wordle.value) ==>
        r == Normal(Continue) && gameOver == old(gameOver) && gameWon == old(gameWon) && (player != null ==> unchanged(player))
    {
      if wordle.None? || wordle.value == "" {
        return Throw(NotLoaded);
      }
      var target := wordle.value;
      if attemptRemaining <= 0 {
        gameOver := true;
        return Normal(NoAttemptsLeft);
      }
      attemptRemaining := attemptRemaining - 1;
      var verdict := CheckGuess(word, target);
      var equal := ArrayUtils.ArraysEqual(verdict, AllGreen(|target|));
      SolvedIff(word, target);
      if equal {
        gameWon := true;
        if player != null {
          player.AddWin(attemptRemaining, target);
        }
        return Normal(Won);
      } else if attemptRemaining == 0 {
        gameOver := true;
        if player != null {
          player.AddLoss(target);
        }
        return Normal(Lost);
      } else {
        return Normal(Continue);
      }
    }
  }

  /** A first-try win on "pomme" with five attempts: the player records the 4 attempts
      still remaining, so the average is 4, the score 100 and the win rate 100. */
  method FirstTryWin() returns (r: Completion<int>, attempts: seq<int>, average: real, score: int, rate: real)
    ensures r == Normal(Won) && attempts == [4] && average == 4.0 && score == 100 && rate == 100.0
  {
    var player := new EntitiesPlayer.Player("testPlayer");
    var game := new WordleGame(["pomme", "poire"], player, None, None);
    var loaded := game.LoadWordle("pomme");
    assert Solves("pomme", "pomme") by {
      assert "pomme"[..5] == "pomme";
    }
    r := game.Play("pomme");
    assert player.gamesPlayed == [EntitiesPlayer.GameHistory("pomme", 4, true)];
    attempts := player.attempts;
    assert attempts == [4];
    average := player.AverageAttempts();
    assert Sum([4]) == 4;
    score := player.Score();
    rate := player.WinRate();
  }

  /** A fresh game for the player on the given word, won on the first guess: the player
      records a win with one attempt fewer than the word's length. */
  method WinFirstTry(player: EntitiesPlayer.Player, word: string) returns (r: Completion<int>)
    modifies player
    requires player.Valid() && word != ""
    ensures player.Valid() && r == Normal(Won)
    ensures player.gamesPlayed == old(player.gamesPlayed) + [EntitiesPlayer.GameHistory(word, |word| - 1, true)]
  {
    var game := new WordleGame([], player, None, None);
    var loaded := game.LoadWordle(word);
    assert Solves(word, word) by {
      assert word[..|word|] == word;
    }
    r := game.Play(word);
  }

  /** Two games sharing a player, each won on the first guess: the second win follows a
      win, so the streak counter is 1. */
  method TwoWinsInARow() returns (wins: int, streak: int)
    ensures wins == 2 && streak == 1
  {
    var player := new EntitiesPlayer.Player("testPlayer");
    var r := WinFirstTry(player, "pomme");
    r := WinFirstTry(player, "poire");
    ghost var h := player.gamesPlayed;
    assert h == [EntitiesPlayer.GameHistory("pomme", 4, true), EntitiesPlayer.GameHistory("poire", 4, true)];
    EntitiesPlayer.AllWon(h);
    EntitiesPlayer.UnbrokenRun(h);
    wins := player.wins;
    streak := player.streaks;
  }

  /** Six wrong guesses at a five-letter word: four continue, the fifth loses, the sixth
      finds no attempt left; the player records one loss. */
  method SixWrongGuesses() returns (codes: seq<Completion<int>>, losses: int)
    ensures codes == [Normal(Continue), Normal(Continue), Normal(Continue), Normal(Continue), Normal(Lost), Normal(NoAttemptsLeft)]
    ensures losses == 1
  {
    var player := new EntitiesPlayer.Player("testPlayer");
    var game := new WordleGame([], player, None, None);
    var loaded := game.LoadWordle("pomme");
    assert !Solves("tigre", "pomme") by {
      assert "tigre"[..5][0] != "pomme"[0];
    }
    codes := [];
    var k := 0;
    while k < 6
      invariant 0 <= k <= 6
      invariant game.Valid() && game.Loaded() && game.wordle == Some("pomme")
      invariant game.attemptRemaining == if k < 5 then 5 - k else 0
      invariant |codes| == k
      invariant forall j :: 0 <= j < k && j < 4 ==> codes[j] == Normal(Continue)
      invariant k > 4 ==> codes[4] == Normal(Lost)
      invariant k > 5 ==> codes[5] == Normal(NoAttemptsLeft)
      invariant player.losses == if k < 5 then 0 else 1
      modifies game, player
    {
      var r := game.Play("tigre");
      codes := codes + [r];
      k := k + 1;
    }
    losses := player.losses;
  }

  /** Playing before a word is loaded throws. */
  method PlayBeforeLoad() returns (r: Completion<int>)
    ensures r == Throw(NotLoaded)
  {
    var game := new WordleGame([], null, None, None);
    r := game.Play("pomme");
  }

  /** No word is rejected at loading or at play time: "p0mme" loads, a four-letter guess just
      spends an attempt, and a longer guess that starts with the word wins. */
  method NoValidation() returns (loaded: Completion<()>, short: Completion<int>, longer: Completion<int>)
    ensures loaded == Normal(()) && short == Normal(Continue) && longer == Normal(Won)
  {
    var game := new WordleGame([], null, None, None);
    loaded := game.LoadWordle("p0mme");
    assert !Solves("deux", "p0mme");
    short := game.Play("deux");
    assert "p0mmes"[..5] == "p0mme";
    longer := game.Play("p0mmes");
  }
}
