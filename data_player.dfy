/** src/data/modules/Player.ts: the player of the `data` variant, who keeps a score,
    the played, won and lost words, the attempt counts, a win rate and a streak counter. */
module DataPlayer {
  import opened Common

  /** A word as the `data` variant handles it: one string per letter. */
  type Letters = seq<string>

  /** The percentage `won / played * 100`, and 0 before any game. */
  function Rate(won: nat, played: nat): (r: real)
    requires won <= played
    ensures 0.0 <= r <= 100.0
    ensures r == 100.0 <==> played > 0 && won == played
    ensures r == 0.0 <==> won == 0
  {
    if played > 0 then (won as real / played as real) * 100.0 else 0.0
  }

  /** The points `computeScore` adds: nothing for a loss; for a win 100, plus 10 per unused
      attempt and 5 per streak step. */
  function Points(isWin: bool, attemptsUsed: int, maxAttempts: int, streaks: int): (p: int)
    ensures !isWin ==> p == 0
    ensures isWin && attemptsUsed <= maxAttempts && 0 <= streaks ==> p >= 100
    ensures isWin && attemptsUsed == maxAttempts ==> p == 100 + 5 * streaks
  {
    if !isWin then 0 else 100 + (maxAttempts - attemptsUsed) * 10 + streaks * 5
  }

  /** The counter once `addAttempt` has recorded `attempt` behind the counts `attempts`:
      unchanged for the first count, one more for a repeated count, and 0 otherwise. */
  function StreakAfter(attempts: seq<int>, attempt: int, streaks: int): int
  {
    if attempts == [] then streaks
    else if attempts[|attempts| - 1] == attempt then streaks + 1
    else 0
  }

  /** The length of the run of equal values that ends the list, minus one: what the
      streak counter of `addAttempt` holds when nothing else changes it. */
  function Repeats(a: seq<int>): nat
  {
    if |a| < 2 then 0
    else if a[|a| - 1] == a[|a| - 2] then Repeats(a[..|a| - 1]) + 1
    else 0
  }

  /** The counter measures repeated attempt counts, not consecutive wins: the last
      `Repeats(a) + 1` attempt counts are all equal. */
  lemma {:induction false} RepeatsMeansEqualTail(a: seq<int>)
    requires a != []
    ensures Repeats(a) < |a|
    ensures forall i :: |a| - 1 - Repeats(a) <= i < |a| ==> a[i] == a[|a| - 1]
  {
    if |a| >= 2 && a[|a| - 1] == a[|a| - 2] {
      var p := a[..|a| - 1];
      RepeatsMeansEqualTail(p);
      forall i | |a| - 1 - Repeats(a) <= i < |a| ensures a[i] == a[|a| - 1] {
        if i < |a| - 1 {
          assert a[i] == p[i] && p[|p| - 1] == a[|a| - 2];
        }
      }
    }
  }

  class Player {
    const username: string
    var score: int
    var gamesPlayed: seq<Letters>
    var gamesWon: seq<Letters>
    var gamesLost: seq<Letters>
    var attempts: seq<int>
    var winRate: real
    var streaks: int

    /** What every public mutator keeps: every played game was recorded as won or as lost,
        the win rate is up to date, and the counter is never negative. */
    ghost predicate Valid()
      reads this
    {
      && |gamesPlayed| == |gamesWon| + |gamesLost|
      && winRate == Rate(|gamesWon|, |gamesPlayed|)
      && streaks >= 0
    }

    constructor(username: string)
      ensures Valid()
      ensures this.username == username && score == 0 && streaks == 0 && winRate == 0.0
      ensures gamesPlayed == [] && gamesWon == [] && gamesLost == [] && attempts == []
    {
      this.username := username;
      score := 0;
      gamesPlayed := [];
      gamesWon := [];
      gamesLost := [];
      winRate := 0.0;
      streaks := 0;
      attempts := [];
    }

    /** Records an attempt count; from the second one on, the counter grows when it repeats
        the previous count and drops to 0 when it does not. */
    method AddAttempt(attempt: int)
      modifies this`attempts, this`streaks
      requires Valid()
      ensures Valid()
      ensures attempts == old(attempts) + [attempt]
      ensures streaks == StreakAfter(old(attempts), attempt, old(streaks))
      ensures old(streaks) == Repeats(old(attempts)) ==> streaks == Repeats(attempts)
    {
      attempts := attempts + [attempt];
      if |attempts| > 1 {
        var lastAttempt := attempts[|attempts| - 1];
        var previousAttempt := attempts[|attempts| - 2];
        if lastAttempt == previousAttempt {
          streaks := streaks + 1;
        } else {
          streaks := 0;
        }
      }
      assert attempts[..|attempts| - 1] == old(attempts);
    }

    method UpdateScore(points: int)
      modifies this`score
      requires Valid()
      ensures Valid()
      ensures score == old(score) + points
    {
      score := score + points;
    }

    /** Records a won word and brings the win rate up to date. */
    method AddGameWon(word: Letters)
      modifies this`gamesWon, this`gamesPlayed, this`winRate
      requires Valid()
      ensures Valid()
      ensures gamesWon == old(gamesWon) + [word] && gamesPlayed == old(gamesPlayed) + [word]
      ensures gamesLost == old(gamesLost)
    {
      gamesWon := gamesWon + [word];
      gamesPlayed := gamesPlayed + [word];
      UpdateWinRate();
    }

    /** Records a lost word and brings the win rate up to date. */
    method AddGameLost(word: Letters)
      modifies this`gamesLost, this`gamesPlayed, this`winRate
      requires Valid()
      ensures Valid()
      ensures gamesLost == old(gamesLost) + [word] && gamesPlayed == old(gamesPlayed) + [word]
      ensures gamesWon == old(gamesWon)
    {
      gamesLost := gamesLost + [word];
      gamesPlayed := gamesPlayed + [word];
      UpdateWinRate();
    }

    /** Adds the points of a finished game, using the current streak counter. */
    method ComputeScore(isWin: bool, attemptsUsed: int, maxAttempts: int)
      modifies this`score
      requires Valid()
      ensures Valid()
      ensures score == old(score) + Points(isWin, attemptsUsed, maxAttempts, streaks)
    {
      if !isWin {
        UpdateScore(0);
        return;
      }
      var basePoints := 100;
      var bonus := (maxAttempts - attemptsUsed) * 10;
      var streakBonus := streaks * 5;
      UpdateScore(basePoints + bonus + streakBonus);
    }

    /** The mean of the recorded attempt counts, 0 before any. */
    function ComputeAverageAttempts(): (r: real)
      reads this
    {
      Mean(attempts)
    }

    method UpdateWinRate()
      modifies this`winRate
      requires |gamesWon| <= |gamesPlayed|
      ensures winRate == Rate(|gamesWon|, |gamesPlayed|)
    {
      var totalGames := |gamesPlayed|;
      var totalWins := |gamesWon|;
      winRate := if totalGames > 0 then (totalWins as real / totalGames as real) * 100.0 else 0.0;
    }

    method IncrementStreaks()
      modifies this`streaks
      requires Valid()
      ensures Valid()
      ensures streaks == old(streaks) + 1
    {
      streaks := streaks + 1;
    }
  }

  /** Two wins on the first of five attempts: the second one repeats the attempt count, so the
      counter is 1 and the second win earns 145 points; the score ends at 285. */
  method TwoQuickWins() returns (streak: int, score: int, rate: real, average: real)
    ensures streak == 1 && score == 285 && rate == 100.0 && average == 1.0
  {
    var p := new Player("test");
    p.AddGameWon(["p", "o", "m", "m", "e"]);
    p.AddAttempt(1);
    p.ComputeScore(true, 1, 5);
    p.AddGameWon(["p", "o", "i", "r", "e"]);
    p.AddAttempt(1);
    p.ComputeScore(true, 1, 5);
    streak := p.streaks;
    score := p.score;
    rate := p.winRate;
    average := p.ComputeAverageAttempts();
    assert p.attempts == [1, 1] && Sum([1, 1]) == 2;
  }
}
