/** src/entites/Player.ts: the player of the `modules` variant, who keeps wins, losses,
    a streak counter, the list of attempts and a record per finished game. */
module EntitiesPlayer {
  import opened Common

  /** One finished game: the word to guess, the attempts recorded for it, won or lost. */
  datatype GameHistory = GameHistory(word: string, attempts: int, result: bool)

  /** The attempt count `addLoss` records for every lost game. */
  const LossAttempts := 5

  /** The number of games won. */
  function Wins(h: seq<GameHistory>): (n: nat)
    ensures n <= |h|
  {
    if h == [] then 0 else Wins(h[..|h| - 1]) + (if h[|h| - 1].result then 1 else 0)
  }

  /** The number of won games whose previous game was also won: each one is a win for
      which `addWin` finds that the record before the new one is a win. */
  function WinPairs(h: seq<GameHistory>): nat
  {
    if |h| < 2 then 0
    else WinPairs(h[..|h| - 1]) + (if h[|h| - 1].result && h[|h| - 2].result then 1 else 0)
  }

  /** How the two counts change when a record is appended. */
  lemma Appended(h: seq<GameHistory>, g: GameHistory)
    ensures Wins(h + [g]) == Wins(h) + (if g.result then 1 else 0)
    ensures WinPairs(h + [g]) == WinPairs(h) + (if h != [] && h[|h| - 1].result && g.result then 1 else 0)
  {
    assert (h + [g])[..|h|] == h;
  }

  /** Every game was won exactly when the number of wins is the number of games. */
  lemma {:induction false} AllWon(h: seq<GameHistory>)
    ensures Wins(h) == |h| <==> forall i :: 0 <= i < |h| ==> h[i].result
  {
    if h != [] {
      var p := h[..|h| - 1];
      AllWon(p);
      if forall i :: 0 <= i < |h| ==> h[i].result {
        assert forall i :: 0 <= i < |p| ==> p[i].result by {
          forall i | 0 <= i < |p| ensures p[i].result {
            assert p[i] == h[i];
          }
        }
      }
      if Wins(h) == |h| {
        assert Wins(p) == |p| && h[|h| - 1].result;
        forall i | 0 <= i < |h| ensures h[i].result {
          if i < |p| {
            assert p[i] == h[i];
          }
        }
      }
    }
  }

  /** The streak counter stays below the number of wins: the first win of a run never counts. */
  lemma {:induction false} StreakBelowWins(h: seq<GameHistory>)
    ensures Wins(h) == 0 ==> WinPairs(h) == 0
    ensures Wins(h) > 0 ==> WinPairs(h) < Wins(h)
  {
    if |h| >= 2 {
      var p := h[..|h| - 1];
      StreakBelowWins(p);
      if h[|h| - 1].result && h[|h| - 2].result {
        assert p[..|p| - 1] + [p[|p| - 1]] == p;
        assert p[|p| - 1] == h[|h| - 2];
        assert Wins(p) > 0;
      }
    } else if |h| == 1 {
      assert h[..0] == [];
    }
  }

  /** In an unbroken run of n wins the counter is n - 1. */
  lemma {:induction false} UnbrokenRun(h: seq<GameHistory>)
    requires h != [] && forall i :: 0 <= i < |h| ==> h[i].result
    ensures WinPairs(h) == |h| - 1
  {
    if |h| >= 2 {
      var p := h[..|h| - 1];
      assert forall i :: 0 <= i < |p| ==> p[i] == h[i];
      UnbrokenRun(p);
    }
  }

  class Player {
    const username: string
    var wins: int
    var losses: int
    var streaks: int
    var gamesPlayed: seq<GameHistory>
    var attempts: seq<int>

    /** What every method keeps: the counters and the attempt list agree with the records,
        and every lost game carries the attempt count of a loss. */
    ghost predicate Valid()
      reads this
    {
      && wins == Wins(gamesPlayed)
      && losses == |gamesPlayed| - wins
      && streaks == WinPairs(gamesPlayed)
      && |attempts| == |gamesPlayed|
      && (forall i :: 0 <= i < |attempts| ==> attempts[i] == gamesPlayed[i].attempts)
      && (forall i :: 0 <= i < |gamesPlayed| && !gamesPlayed[i].result ==> gamesPlayed[i].attempts == LossAttempts)
    }

    constructor(username: string)
      ensures Valid()
      ensures this.username == username && gamesPlayed == [] && attempts == []
      ensures wins == 0 && losses == 0 && streaks == 0
    {
      this.username := username;
      wins := 0;
      losses := 0;
      streaks := 0;
      gamesPlayed := [];
      attempts := [];
    }

    /** 100 points per win and 50 off per loss. */
    function Score(): (r: int)
      reads this
      requires Valid()
      ensures r == 100 * Wins(gamesPlayed) - 50 * (|gamesPlayed| - Wins(gamesPlayed))
      ensures -50 * |gamesPlayed| <= r <= 100 * |gamesPlayed|
    {
      wins * 100 - losses * 50
    }

    /** The percentage of games won, 0 before any game. */
    function WinRate(): (r: real)
      reads this
      requires Valid()
      ensures 0.0 <= r <= 100.0
      ensures gamesPlayed == [] ==> r == 0.0
      ensures r == 100.0 <==> gamesPlayed != [] && forall i :: 0 <= i < |gamesPlayed| ==> gamesPlayed[i].result
    {
      AllWon(gamesPlayed);
      var total := wins + losses;
      if total > 0 then (wins as real / total as real) * 100.0 else 0.0
    }

    /** The mean of the recorded attempts; `NaN || 0` makes it 0 before any game. */
    function AverageAttempts(): (r: real)
      reads this
    {
      Mean(attempts)
    }

    /** Records a won game with the given attempt count; the streak grows when the
        previous record is a win, and is otherwise left as it was. */
    method AddWin(attempt: int, wordle: string)
      modifies this
      requires Valid()
      ensures Valid()
      ensures gamesPlayed == old(gamesPlayed) + [GameHistory(wordle, attempt, true)]
      ensures attempts == old(attempts) + [attempt]
      ensures wins == old(wins) + 1 && losses == old(losses)
      ensures streaks == old(streaks) + (if old(gamesPlayed) != [] && old(gamesPlayed)[|old(gamesPlayed)| - 1].result then 1 else 0)
    {
      Appended(gamesPlayed, GameHistory(wordle, attempt, true));
      wins := wins + 1;
      attempts := attempts + [attempt];
      gamesPlayed := gamesPlayed + [GameHistory(wordle, attempt, true)];
      // gamesPlayed[length - 2]?.result is undefined, so falsy, for the first game
      if |gamesPlayed| >= 2 && gamesPlayed[|gamesPlayed| - 2].result {
        streaks := streaks + 1;
      }
    }

    /** Records a lost game with 5 attempts; the streak counter is not touched. */
    method AddLoss(wordle: string)
      modifies this
      requires Valid()
      ensures Valid()
      ensures gamesPlayed == old(gamesPlayed) + [GameHistory(wordle, LossAttempts, false)]
      ensures attempts == old(attempts) + [LossAttempts]
      ensures wins == old(wins) && losses == old(losses) + 1 && streaks == old(streaks)
    {
      Appended(gamesPlayed, GameHistory(wordle, LossAttempts, false));
      losses := losses + 1;
      attempts := attempts + [LossAttempts];
      gamesPlayed := gamesPlayed + [GameHistory(wordle, LossAttempts, false)];
    }
  }

  /** A new player who loses a game and then wins one: the win follows a loss, so the
      streak counter stays 0. */
  method LossThenWin() returns (p: Player)
    ensures fresh(p) && p.Valid()
    ensures p.wins == 1 && p.losses == 1 && p.streaks == 0
    ensures |p.gamesPlayed| == 2 && p.gamesPlayed[1].result
  {
    p := new Player("testPlayer");
    p.AddLoss("pomme");
    p.AddWin(3, "poire");
  }

  /** A loss then a win leaves the streak at 0, a second win in a row makes it 1,
      and the score and win rate follow the counters. */
  method StreakExamples() returns (afterLossWin: int, afterTwoWins: int, score: int, rate: real)
    ensures afterLossWin == 0 && afterTwoWins == 1
    ensures score == 150 && 66.0 < rate < 67.0
  {
    var p := LossThenWin();
    afterLossWin := p.streaks;
    p.AddWin(4, "tuile");
    afterTwoWins := p.streaks;
    score := p.Score();
    rate := p.WinRate();
    assert rate == (2.0 / 3.0) * 100.0;
  }
}
