/** src/data/modules/WordleGame.ts: one game of the `data` variant. Words are arrays of
    one-letter strings, the colours of the last guess are kept in `colorsChecking`, and
    every finished game is reported to the player. */
module DataWordleGame {
  import opened Common
  import V = WordleGameValidationService
  import DataPlayer

  type Letters = V.Letters

  // ---------------------------------------------------------------------------
  // JavaScript arrays of colours

  /** Writing `c` at index `i` of a JavaScript array: past the end the array grows,
      and the slots it skips read as `undefined` (`Hole`). */
  function Put(colors: seq<Color>, i: nat, c: Color): (r: seq<Color>)
    ensures |r| == if i < |colors| then |colors| else i + 1
    ensures r[i] == c
    ensures forall j :: 0 <= j < |r| && j != i ==> r[j] == if j < |colors| then colors[j] else Hole
  {
    if i < |colors| then colors[i := c] else colors + seq(i - |colors|, _ => Hole) + [c]
  }

  /** `new Array(n).fill('gray')`. */
  function Grays(n: nat): seq<Color>
  {
    seq(n, _ => Gray)
  }

  /** `colors.every(color => color === 'green')`: `every` skips the slots JavaScript never
      wrote, so holes pass, and it is true of the empty array. */
  predicate EveryGreen(colors: seq<Color>)
  {
    forall j :: 0 <= j < |colors| ==> colors[j] == Green || colors[j] == Hole
  }

  // ---------------------------------------------------------------------------
  // getRightLetterRightPosition

  /** `this.wordle[i] === word[i]`; past the end of the guess `word[i]` is undefined. */
  predicate Matches(word: Letters, wordle: Letters, i: int)
  {
    0 <= i < |wordle| && i < |word| && wordle[i] == word[i]
  }

  /** One past the last matching position below n, or 0 when there is none. */
  function MatchEnd(word: Letters, wordle: Letters, n: nat): (e: nat)
    requires n <= |wordle|
    ensures e <= n
    ensures e > 0 ==> Matches(word, wordle, e - 1)
    ensures forall j :: e <= j < n ==> !Matches(word, wordle, j)
  {
    if n == 0 then 0 else if Matches(word, wordle, n - 1) then n else MatchEnd(word, wordle, n - 1)
  }

  /** The colours once the first n positions of the word to guess have been compared:
      green where they match, the old colour elsewhere, and the array grown with holes
      when a match lies past its end. */
  function RightPass(word: Letters, wordle: Letters, colors: seq<Color>, n: nat): seq<Color>
    requires n <= |wordle|
  {
    var e := MatchEnd(word, wordle, n);
    var w := if |colors| < e then e else |colors|;
    seq(w, j requires 0 <= j < w =>
      if j < n && Matches(word, wordle, j) then Green else if j < |colors| then colors[j] else Hole)
  }

  lemma RightPassStep(word: Letters, wordle: Letters, colors: seq<Color>, n: nat)
    requires n < |wordle|
    ensures RightPass(word, wordle, colors, n + 1)
         == if Matches(word, wordle, n) then Put(RightPass(word, wordle, colors, n), n, Green)
            else RightPass(word, wordle, colors, n)
  {
    var before := RightPass(word, wordle, colors, n);
    var after := RightPass(word, wordle, colors, n + 1);
    if Matches(word, wordle, n) {
      var put := Put(before, n, Green);
      assert |after| == |put|;
      forall j | 0 <= j < |after| ensures after[j] == put[j] {
      }
    } else {
      assert |after| == |before|;
      forall j | 0 <= j < |after| ensures after[j] == before[j] {
      }
    }
  }

  /** The effect of `getRightLetterRightPosition` on `colorsChecking`. */
  function RightPositions(word: Letters, wordle: Letters, colors: seq<Color>): seq<Color>
  {
    RightPass(word, wordle, colors, |wordle|)
  }

  /** When the colours are as long as the word to guess, the pass turns exactly the
      matching positions green and leaves every other colour as it was. */
  lemma RightPositionsMeaning(word: Letters, wordle: Letters, colors: seq<Color>)
    requires |wordle| <= |colors|
    ensures var r := RightPositions(word, wordle, colors);
      && |r| == |colors|
      && forall j :: 0 <= j < |r| ==> r[j] == if Matches(word, wordle, j) then Green else colors[j]
  {
  }

  // ---------------------------------------------------------------------------
  // getIncludedLettersInWrongPosition

  /** The copies of the guess and of the word to guess, and the colours, during the search. */
  datatype Search = Search(colors: seq<Color>, target: seq<Option<string>>)

  /** A truthy entry: neither `null` nor the empty string. */
  predicate Truthy(x: Option<string>)
  {
    x.Some? && x.value != ""
  }

  /** A copy with `null` at every position that `checked` marks green. A JavaScript write
      past the end would add `undefined` and `null` entries, which neither `includes` nor
      `indexOf` of a string can find, so the copy keeps its length here. */
  function Cleared(xs: seq<Option<string>>, checked: seq<Color>): seq<Option<string>>
  {
    seq(|xs|, j requires 0 <= j < |xs| => if j < |checked| && checked[j] == Green then None else xs[j])
  }

  /** Guess position i: a truthy letter still present in the target turns yellow, and its
      first occurrence in the target is used up. */
  function IncludedStep(copy: seq<Option<string>>, s: Search, i: nat): Search
    requires i < |copy|
  {
    if Truthy(copy[i]) && copy[i] in s.target then
      Search(Put(s.colors, i, Yellow), s.target[IndexOf(s.target, copy[i].value) := None])
    else s
  }

  function IncludedFrom(copy: seq<Option<string>>, s: Search, i: nat): Search
    requires i <= |copy|
    decreases |copy| - i
  {
    if i == |copy| then s else IncludedFrom(copy, IncludedStep(copy, s, i), i + 1)
  }

  /** The effect of `getIncludedLettersInWrongPosition` on `colorsChecking`. */
  function Included(word: Letters, wordle: Letters, colors: seq<Color>): seq<Color>
  {
    IncludedFrom(Cleared(Lift(word), colors), Search(colors, Cleared(Lift(wordle), colors)), 0).colors
  }

  /** The colour a position had before the search (a hole past the old end). */
  function Original(colors: seq<Color>, j: nat): Color
  {
    if j < |colors| then colors[j] else Hole
  }

  /** What holds before guess position i: the colours grew only up to i, every changed
      position is a yellow for a non-empty letter of the word to guess that was not green,
      and the target holds only letters of the word to guess at their own positions. */
  ghost predicate SearchInvariant(word: Letters, wordle: Letters, colors: seq<Color>, s: Search, i: nat)
  {
    && i <= |word|
    && |s.target| == |wordle|
    && |colors| <= |s.colors|
    && (|colors| < |s.colors| ==> |s.colors| <= i)
    && (forall j :: i <= j < |s.colors| ==> s.colors[j] == Original(colors, j))
    && (forall j :: 0 <= j < |s.colors| && s.colors[j] != Original(colors, j) ==>
          && s.colors[j] == Yellow && Original(colors, j) != Green
          && j < i && word[j] != "" && word[j] in wordle)
    && (forall k :: 0 <= k < |s.target| && s.target[k] != None ==> s.target[k] == Some(wordle[k]))
  }

  lemma IncludedStepInvariant(word: Letters, wordle: Letters, colors: seq<Color>, s: Search, i: nat)
    requires SearchInvariant(word, wordle, colors, s, i) && i < |word|
    ensures SearchInvariant(word, wordle, colors, IncludedStep(Cleared(Lift(word), colors), s, i), i + 1)
  {
    var copy := Cleared(Lift(word), colors);
    if Truthy(copy[i]) && copy[i] in s.target {
      var k := IndexOf(s.target, copy[i].value);
      assert s.target[k] == Some(wordle[k]);
    }
  }

  lemma {:induction false} IncludedFromInvariant(word: Letters, wordle: Letters, colors: seq<Color>, s: Search, i: nat)
    requires SearchInvariant(word, wordle, colors, s, i)
    ensures SearchInvariant(word, wordle, colors, IncludedFrom(Cleared(Lift(word), colors), s, i), |word|)
    decreases |word| - i
  {
    if i < |word| {
      IncludedStepInvariant(word, wordle, colors, s, i);
      IncludedFromInvariant(word, wordle, colors, IncludedStep(Cleared(Lift(word), colors), s, i), i + 1);
    }
  }

  /** The search never touches a green, never writes a green, and every colour it changes is
      a yellow for a non-empty letter of the guess that occurs in the word to guess; it grows
      the colours only up to the length of the guess. */
  lemma IncludedMeaning(word: Letters, wordle: Letters, colors: seq<Color>)
    ensures var r := Included(word, wordle, colors);
      && |colors| <= |r|
      && (|colors| < |r| ==> |r| <= |word|)
      && (forall j :: 0 <= j < |r| ==> (r[j] == Green <==> j < |colors| && colors[j] == Green))
      && (forall j :: 0 <= j < |r| && r[j] != Original(colors, j) ==>
            r[j] == Yellow && j < |word| && word[j] != "" && word[j] in wordle)
  {
    IncludedFromInvariant(word, wordle, colors, Search(colors, Cleared(Lift(wordle), colors)), 0);
  }

  /** For each guess position, its letter if that position is yellow. */
  function Yellows(word: Letters, colors: seq<Color>): seq<Option<string>>
  {
    seq(if |word| < |colors| then |word| else |colors|,
        j requires 0 <= j < |word| && j < |colors| => if colors[j] == Yellow then Some(word[j]) else None)
  }

  predicate NoYellow(colors: seq<Color>)
  {
    forall j :: 0 <= j < |colors| ==> colors[j] != Yellow
  }

  lemma YellowsAfterPut(word: Letters, colors: seq<Color>, i: nat, c: string)
    requires i < |word| && (i < |colors| ==> colors[i] != Yellow)
    ensures multiset(Yellows(word, Put(colors, i, Yellow)))[Some(c)]
         == multiset(Yellows(word, colors))[Some(c)] + (if word[i] == c then 1 else 0)
  {
    var before := Yellows(word, colors);
    var after := Yellows(word, Put(colors, i, Yellow));
    if i < |colors| {
      assert after == before[i := Some(word[i])];
      MultisetUpdate(before, i, Some(word[i]));
    } else {
      var gap := seq(i - |colors|, _ => None);
      assert after == before + gap + [Some(word[i])];
      NoneOnly(gap, c);
    }
  }

  lemma IncludedStepBalanced(word: Letters, wordle: Letters, colors: seq<Color>, s: Search, i: nat, c: string)
    requires SearchInvariant(word, wordle, colors, s, i) && i < |word| && NoYellow(colors)
    ensures var t := IncludedStep(Cleared(Lift(word), colors), s, i);
      multiset(Yellows(word, t.colors))[Some(c)] + multiset(t.target)[Some(c)]
      == multiset(Yellows(word, s.colors))[Some(c)] + multiset(s.target)[Some(c)]
  {
    var copy := Cleared(Lift(word), colors);
    if Truthy(copy[i]) && copy[i] in s.target {
      var k := IndexOf(s.target, copy[i].value);
      assert copy[i] == Some(word[i]);
      assert i < |s.colors| ==> s.colors[i] == Original(colors, i);
      YellowsAfterPut(word, s.colors, i, c);
      MultisetUpdate(s.target, k, None);
      assert IncludedStep(copy, s, i) == Search(Put(s.colors, i, Yellow), s.target[k := None]);
    }
  }

  lemma {:induction false} IncludedFromBalanced(word: Letters, wordle: Letters, colors: seq<Color>, s: Search, i: nat, c: string)
    requires SearchInvariant(word, wordle, colors, s, i) && NoYellow(colors)
    ensures var t := IncludedFrom(Cleared(Lift(word), colors), s, i);
      multiset(Yellows(word, t.colors))[Some(c)] + multiset(t.target)[Some(c)]
      == multiset(Yellows(word, s.colors))[Some(c)] + multiset(s.target)[Some(c)]
    decreases |word| - i
  {
    if i < |word| {
      IncludedStepBalanced(word, wordle, colors, s, i, c);
      IncludedStepInvariant(word, wordle, colors, s, i);
      IncludedFromBalanced(word, wordle, colors, IncludedStep(Cleared(Lift(word), colors), s, i), i + 1, c);
    }
  }

  /** Starting from colours with no yellow, a letter is marked yellow at most as many times as
      it occurs in the word to guess outside the positions already green. */
  lemma IncludedYellowBound(word: Letters, wordle: Letters, colors: seq<Color>, c: string)
    requires NoYellow(colors)
    ensures multiset(Yellows(word, Included(word, wordle, colors)))[Some(c)]
         <= multiset(Cleared(Lift(wordle), colors))[Some(c)]
  {
    var start := Search(colors, Cleared(Lift(wordle), colors));
    NoneOnly(Yellows(word, colors), c);
    IncludedFromBalanced(word, wordle, colors, start, 0, c);
  }

  /** With nothing left in the target, the search changes nothing. */
  lemma {:induction false} IncludedIdle(copy: seq<Option<string>>, s: Search, i: nat)
    requires i <= |copy|
    requires forall k :: 0 <= k < |s.target| ==> s.target[k] == None
    ensures IncludedFrom(copy, s, i) == s
    decreases |copy| - i
  {
    if i < |copy| {
      assert !(copy[i] in s.target && Truthy(copy[i]));
      IncludedIdle(copy, s, i + 1);
    }
  }

  /** Before guess position i, every truthy entry of the guess copy is yellow or its letter
      is no longer in the target. */
  ghost predicate UsedUp(copy: seq<Option<string>>, s: Search, i: nat)
    requires i <= |copy|
  {
    forall j :: 0 <= j < i && Truthy(copy[j]) && !(j < |s.colors| && s.colors[j] == Yellow) ==> copy[j] !in s.target
  }

  lemma IncludedStepUsedUp(copy: seq<Option<string>>, s: Search, i: nat)
    requires i < |copy| && UsedUp(copy, s, i)
    ensures UsedUp(copy, IncludedStep(copy, s, i), i + 1)
  {
  }

  lemma {:induction false} IncludedFromUsedUp(copy: seq<Option<string>>, s: Search, i: nat)
    requires i <= |copy| && UsedUp(copy, s, i)
    ensures UsedUp(copy, IncludedFrom(copy, s, i), |copy|)
    decreases |copy| - i
  {
    if i < |copy| {
      IncludedStepUsedUp(copy, s, i);
      IncludedFromUsedUp(copy, IncludedStep(copy, s, i), i + 1);
    }
  }

  // ---------------------------------------------------------------------------
  // The colours of one play

  /** `colorsChecking` after `play` resets it and runs both passes for a guess. */
  function Verdict(word: Letters, wordle: Letters): seq<Color>
  {
    Included(word, wordle, RightPositions(word, wordle, Grays(|wordle|)))
  }

  /** Green exactly at the matching positions; a yellow only at a non-matching position of
      the guess whose letter occurs in the word to guess; gray at the other positions of the
      word to guess. */
  lemma VerdictMeaning(word: Letters, wordle: Letters)
    ensures var r := Verdict(word, wordle);
      && |wordle| <= |r|
      && (forall j :: 0 <= j < |r| ==> (r[j] == Green <==> Matches(word, wordle, j)))
      && (forall j :: 0 <= j < |r| && r[j] == Yellow ==>
            j < |word| && !Matches(word, wordle, j) && word[j] in wordle)
      && (forall j :: 0 <= j < |wordle| && r[j] != Green && r[j] != Yellow ==> r[j] == Gray)
  {
    var colors := RightPositions(word, wordle, Grays(|wordle|));
    RightPositionsMeaning(word, wordle, Grays(|wordle|));
    IncludedMeaning(word, wordle, colors);
  }

  /** The guess, and the word to guess, with `null` at the positions where they match. */
  function UnmatchedGuess(word: Letters, wordle: Letters): seq<Option<string>>
  {
    Cleared(Lift(word), RightPositions(word, wordle, Grays(|wordle|)))
  }

  function UnmatchedTarget(word: Letters, wordle: Letters): seq<Option<string>>
  {
    Cleared(Lift(wordle), RightPositions(word, wordle, Grays(|wordle|)))
  }

  /** Each letter is marked yellow at most as many times as it occurs in the word to guess
      at a position the guess does not match. */
  lemma VerdictYellowBound(word: Letters, wordle: Letters, c: string)
    ensures multiset(Yellows(word, Verdict(word, wordle)))[Some(c)] <= multiset(UnmatchedTarget(word, wordle))[Some(c)]
  {
    RightPositionsMeaning(word, wordle, Grays(|wordle|));
    IncludedYellowBound(word, wordle, RightPositions(word, wordle, Grays(|wordle|)), c);
  }

  /** The converse of `VerdictYellowBound`: a non-empty letter of the guess at a position it
      does not match, and left without yellow, has all of its unmatched occurrences in the
      word to guess marked yellow at other positions. */
  lemma UnmarkedMeansUsedUp(word: Letters, wordle: Letters, j: nat)
    requires j < |word| && !Matches(word, wordle, j) && word[j] != ""
    requires var r := Verdict(word, wordle); j < |r| ==> r[j] != Yellow
    ensures multiset(Yellows(word, Verdict(word, wordle)))[Some(word[j])]
         == multiset(UnmatchedTarget(word, wordle))[Some(word[j])]
  {
    var g := RightPositions(word, wordle, Grays(|wordle|));
    RightPositionsMeaning(word, wordle, Grays(|wordle|));
    var copy := Cleared(Lift(word), g);
    var start := Search(g, UnmatchedTarget(word, wordle));
    IncludedFromUsedUp(copy, start, 0);
    IncludedFromBalanced(word, wordle, g, start, 0, word[j]);
    NoneOnly(Yellows(word, g), word[j]);
    var t := IncludedFrom(copy, start, 0);
    assert copy[j] == Some(word[j]);
    assert multiset(t.target)[Some(word[j])] == 0;
  }

  /** Every non-empty letter is marked yellow exactly as often as the smaller of its numbers
      of unmatched occurrences in the guess and in the word to guess. */
  lemma VerdictYellowCount(word: Letters, wordle: Letters, c: string)
    requires c != ""
    ensures var inGuess, inTarget := multiset(UnmatchedGuess(word, wordle))[Some(c)],
                                     multiset(UnmatchedTarget(word, wordle))[Some(c)];
      multiset(Yellows(word, Verdict(word, wordle)))[Some(c)] == if inGuess < inTarget then inGuess else inTarget
  {
    var g := RightPositions(word, wordle, Grays(|wordle|));
    var r := Verdict(word, wordle);
    RightPositionsMeaning(word, wordle, Grays(|wordle|));
    IncludedMeaning(word, wordle, g);
    VerdictYellowBound(word, wordle, c);
    var y := Yellows(word, r);
    var copy := UnmatchedGuess(word, wordle);
    KeptCount(y, copy, c);
    if j :| 0 <= j < |word| && word[j] == c && !Matches(word, wordle, j) && (j < |r| ==> r[j] != Yellow) {
      UnmarkedMeansUsedUp(word, wordle, j);
    } else {
      forall j | 0 <= j < |copy| && copy[j] == Some(c) ensures j < |y| && y[j] == Some(c) {
        assert word[j] == c && !Matches(word, wordle, j);
      }
    }
  }

  /** A guess entry that is `null` or not in the target leaves the search as it is. */
  lemma StepSkips(copy: seq<Option<string>>, s: Search, i: nat)
    requires i < |copy| && (copy[i] == None || copy[i] !in s.target)
    ensures IncludedFrom(copy, s, i) == IncludedFrom(copy, s, i + 1)
  {
  }

  /** When no guess entry from position i on is in the target, the rest of the search
      changes nothing. */
  lemma {:induction false} SkipsRest(copy: seq<Option<string>>, s: Search, i: nat)
    requires i <= |copy|
    requires forall j :: i <= j < |copy| ==> copy[j] == None || copy[j] !in s.target
    ensures IncludedFrom(copy, s, i) == s
    decreases |copy| - i
  {
    if i < |copy| {
      SkipsRest(copy, s, i + 1);
    }
  }

  /** A truthy guess entry whose first occurrence in the target is at k turns yellow and
      uses that occurrence up. */
  lemma StepMarks(copy: seq<Option<string>>, s: Search, i: nat, k: nat)
    requires i < |copy| && i < |s.colors| && Truthy(copy[i])
    requires k < |s.target| && s.target[k] == copy[i] && copy[i] !in s.target[..k]
    ensures IncludedFrom(copy, s, i) == IncludedFrom(copy, Search(s.colors[i := Yellow], s.target[k := None]), i + 1)
  {
  }

  /** The colour vectors of src/tests/GameLogicTests.test.ts against `pomme`: after the green
      pass for `tuile`, the yellow pass for `trone` marks its `o`, */
  lemma OtherGuessVector()
    ensures Included(["t", "r", "o", "n", "e"], ["p", "o", "m", "m", "e"],
                     RightPositions(["t", "u", "i", "l", "e"], ["p", "o", "m", "m", "e"], Grays(5)))
         == [Gray, Gray, Yellow, Gray, Green]
  {
    EndMatchOnly(["t", "u", "i", "l", "e"]);
    UnmatchedPomme(["t", "r", "o", "n", "e"]);
    OneSharedLetter("p", "o", "m", "t", "r", "n");
  }

  /** Against a target `p o m m` whose last position is cleared, a guess `t r o n` in which
      only `o` occurs in the target marks that `o` yellow. */
  lemma OneSharedLetter(p: string, o: string, m: string, t: string, r: string, n: string)
    requires o != "" && o != p
    requires t !in {p, o, m} && r !in {p, o, m} && n !in {p, m}
    ensures IncludedFrom([Some(t), Some(r), Some(o), Some(n), None],
                         Search([Gray, Gray, Gray, Gray, Green], [Some(p), Some(o), Some(m), Some(m), None]), 0)
         == Search([Gray, Gray, Yellow, Gray, Green], [Some(p), None, Some(m), Some(m), None])
  {
    var copy := [Some(t), Some(r), Some(o), Some(n), None];
    var s0 := Search([Gray, Gray, Gray, Gray, Green], [Some(p), Some(o), Some(m), Some(m), None]);
    StepSkips(copy, s0, 0);
    StepSkips(copy, s0, 1);
    StepMarks(copy, s0, 2, 1);
    var s3 := Search(s0.colors[2 := Yellow], s0.target[1 := None]);
    SkipsRest(copy, s3, 3);
  }

  /** `omise` has two letters present elsewhere, */
  lemma IncludedLettersVector()
    ensures Verdict(["o", "m", "i", "s", "e"], ["p", "o", "m", "m", "e"]) == [Yellow, Yellow, Gray, Gray, Green]
  {
    EndMatchOnly(["o", "m", "i", "s", "e"]);
    UnmatchedPomme(["o", "m", "i", "s", "e"]);
    TwoSharedLetters("p", "o", "m", "i", "s");
  }

  /** Against `p o m m`, a guess `o m i s` marks its `o` and its `m`, using up the first `m`. */
  lemma TwoSharedLetters(p: string, o: string, m: string, i: string, s: string)
    requires o != "" && m != "" && o != p && m != p && m != o
    requires i !in {p, m} && s !in {p, m}
    ensures IncludedFrom([Some(o), Some(m), Some(i), Some(s), None],
                         Search([Gray, Gray, Gray, Gray, Green], [Some(p), Some(o), Some(m), Some(m), None]), 0)
         == Search([Yellow, Yellow, Gray, Gray, Green], [Some(p), None, None, Some(m), None])
  {
    var copy := [Some(o), Some(m), Some(i), Some(s), None];
    var s0 := Search([Gray, Gray, Gray, Gray, Green], [Some(p), Some(o), Some(m), Some(m), None]);
    StepMarks(copy, s0, 0, 1);
    var s1 := Search(s0.colors[0 := Yellow], s0.target[1 := None]);
    StepMarks(copy, s1, 1, 2);
    var s2 := Search(s1.colors[1 := Yellow], s1.target[2 := None]);
    SkipsRest(copy, s2, 2);
    assert s2.colors == [Yellow, Yellow, Gray, Gray, Green] by {
      assert s1.colors == [Yellow, Gray, Gray, Gray, Green];
    }
    assert s2.target == [Some(p), None, None, Some(m), None] by {
      assert s1.target == [Some(p), None, Some(m), Some(m), None];
    }
  }

  /** and in `emise` the first `e` stays gray, because the only `e` of `pomme` is matched. */
  lemma DuplicatedLetterVector()
    ensures Verdict(["e", "m", "i", "s", "e"], ["p", "o", "m", "m", "e"]) == [Gray, Yellow, Gray, Gray, Green]
  {
    EndMatchOnly(["e", "m", "i", "s", "e"]);
    UnmatchedPomme(["e", "m", "i", "s", "e"]);
    MatchedLetterRepeated("p", "o", "m", "e", "i", "s");
  }

  /** Against `p o m m` whose last position, an `e`, is matched, a guess `e m i s` marks only
      its `m`. */
  lemma MatchedLetterRepeated(p: string, o: string, m: string, e: string, i: string, s: string)
    requires m != "" && m != p && m != o
    requires e !in {p, o, m} && i !in {p, o, m} && s !in {p, o, m}
    ensures IncludedFrom([Some(e), Some(m), Some(i), Some(s), None],
                         Search([Gray, Gray, Gray, Gray, Green], [Some(p), Some(o), Some(m), Some(m), None]), 0)
         == Search([Gray, Yellow, Gray, Gray, Green], [Some(p), Some(o), None, Some(m), None])
  {
    var copy := [Some(e), Some(m), Some(i), Some(s), None];
    var s0 := Search([Gray, Gray, Gray, Gray, Green], [Some(p), Some(o), Some(m), Some(m), None]);
    StepSkips(copy, s0, 0);
    StepMarks(copy, s0, 1, 2);
    var s2 := Search(s0.colors[1 := Yellow], s0.target[2 := None]);
    SkipsRest(copy, s2, 2);
  }

  /** For a guess that matches `pomme` only in its last letter, the search clears the last
      position of both words. */
  lemma UnmatchedPomme(word: Letters)
    requires |word| == 5
    ensures var g := [Gray, Gray, Gray, Gray, Green];
      && Cleared(Lift(word), g) == [Some(word[0]), Some(word[1]), Some(word[2]), Some(word[3]), None]
      && Cleared(Lift(["p", "o", "m", "m", "e"]), g) == [Some("p"), Some("o"), Some("m"), Some("m"), None]
  {
  }

  /** A guess against `pomme` that matches only in its last letter. */
  lemma EndMatchOnly(word: Letters)
    requires |word| == 5 && word[4] == "e"
    requires word[0] != "p" && word[1] != "o" && word[2] != "m" && word[3] != "m"
    ensures RightPositions(word, ["p", "o", "m", "m", "e"], Grays(5)) == [Gray, Gray, Gray, Gray, Green]
  {
    RightPositionsMeaning(word, ["p", "o", "m", "m", "e"], Grays(5));
  }

  /** `isWon()` after a play holds exactly when the guess starts with the word to guess; for
      the empty word (nothing loaded) every guess wins. */
  lemma WonIff(word: Letters, wordle: Letters)
    ensures EveryGreen(Verdict(word, wordle)) <==> |word| >= |wordle| && word[..|wordle|] == wordle
  {
    var colors := RightPositions(word, wordle, Grays(|wordle|));
    RightPositionsMeaning(word, wordle, Grays(|wordle|));
    if |word| >= |wordle| && word[..|wordle|] == wordle {
      forall j | 0 <= j < |wordle| ensures Matches(word, wordle, j) {
        assert word[..|wordle|][j] == word[j];
      }
      var target := Cleared(Lift(wordle), colors);
      IncludedIdle(Cleared(Lift(word), colors), Search(colors, target), 0);
    }
    if EveryGreen(Verdict(word, wordle)) {
      VerdictMeaning(word, wordle);
      forall j | 0 <= j < |wordle| ensures Matches(word, wordle, j) {
        assert Verdict(word, wordle)[j] == Green;
      }
      if |wordle| > 0 {
        assert Matches(word, wordle, |wordle| - 1);
      }
      assert word[..|wordle|] == wordle;
    }
  }

  // ---------------------------------------------------------------------------
  // The game

  /** The error messages the game throws. */
  const NoSpaceMessage := "Word should not have spaces"
  const LengthMessage := "Word should only have 5 letters"
  const LettersMessage := "Word should only have letters"
  const FailedToLoad := "Failed to load wordle"

  /** The codes `play` returns. */
  const Won := 1
  const Lost := -1
  const Continue := 0
  const Refused := -2

  /** The order in which `isValidWord` applies its three one-rule services. */
  const CheckOrder: seq<V.Rule> := [V.NoSpace, V.ExactLen, V.OnlyLetters]

  function Message(rule: V.Rule): string
  {
    match rule
    case NoSpace => NoSpaceMessage
    case ExactLen => LengthMessage
    case OnlyLetters => LettersMessage
  }

  /** A word `isValidWord` accepts: five one-letter strings, each an ASCII letter. */
  predicate ValidWord(word: Letters)
  {
    V.FirstFailing(CheckOrder, word) == |CheckOrder|
  }

  /** What `isValidWord` does with a word: the message of the first rule in `CheckOrder`
      that rejects it, or `true`. */
  function Validation(word: Letters): Completion<bool>
  {
    var k := V.FirstFailing(CheckOrder, word);
    if k == |CheckOrder| then Normal(true) else Throw(Message(CheckOrder[k]))
  }

  /** A valid word has five entries, each one ASCII letter. */
  lemma ValidWordShape(word: Letters)
    requires ValidWord(word)
    ensures |word| == 5 && forall j :: 0 <= j < |word| ==> V.IsLetter(word[j])
  {
    assert CheckOrder[1] == V.ExactLen && CheckOrder[2] == V.OnlyLetters;
  }

  /** In a game whose word to guess is empty or valid, a valid guess wins exactly when it
      is that word, or when no word was loaded. */
  lemma WonIffValid(word: Letters, wordle: Letters)
    requires ValidWord(word) && (wordle == [] || ValidWord(wordle))
    ensures EveryGreen(Verdict(word, wordle)) <==> wordle == [] || word == wordle
  {
    ValidWordShape(word);
    if wordle != [] {
      ValidWordShape(wordle);
      assert word[..|wordle|] == word;
    }
    WonIff(word, wordle);
  }

  class WordleGame {
    const gameMode: string
    const player: DataPlayer.Player
    var attemptCounter: int
    var maxAttempts: int
    var wordle: Letters
    var wordsAttempted: seq<Letters>
    var colorsChecking: seq<Color>

    /** What every method keeps: the maximum stays 5 (the only length a loaded word can
        have), the counter lies between 0 and the maximum and counts the recorded guesses,
        the word to guess is empty or valid, and the player's own invariant holds. */
    ghost predicate Valid()
      reads this, player
    {
      && player.Valid()
      && maxAttempts == 5
      && 0 <= attemptCounter <= maxAttempts
      && |wordsAttempted| == attemptCounter
      && (wordle == [] || ValidWord(wordle))
    }

    /** `game_mode || 'normal'`, `player || new Player('default')`, and five gray colours. */
    constructor(gameMode: Option<string>, player: DataPlayer.Player?)
      requires player != null ==> player.Valid()
      ensures Valid()
      ensures this.gameMode == StringOr(gameMode, "normal")
      ensures player != null ==> this.player == player
      ensures player == null ==> fresh(this.player) && this.player.username == "default" && this.player.gamesPlayed == []
      ensures attemptCounter == 0 && maxAttempts == 5 && wordle == [] && wordsAttempted == []
      ensures colorsChecking == Grays(5)
    {
      this.gameMode := StringOr(gameMode, "normal");
      if player != null {
        this.player := player;
      } else {
        this.player := new DataPlayer.Player("default");
      }
      attemptCounter := 0;
      maxAttempts := 5;
      wordle := [];
      wordsAttempted := [];
      colorsChecking := Grays(5);
    }

    /** Applies the three one-rule services in the order spaces, length, letters, and
        throws the message of the first that fails. */
    method IsValidWord(word: Letters) returns (r: Completion<bool>)
      ensures r == Validation(word)
      ensures r.Normal? <==> ValidWord(word)
      ensures r.Normal? ==> r.value && |word| == 5 && forall j :: 0 <= j < |word| ==> V.IsLetter(word[j])
    {
      assert CheckOrder[0] == V.NoSpace && CheckOrder[1] == V.ExactLen && CheckOrder[2] == V.OnlyLetters;
      var lenService := new V.WordleGameValidationService([V.ExactLen]);
      var letterService := new V.WordleGameValidationService([V.OnlyLetters]);
      var spaceService := new V.WordleGameValidationService([V.NoSpace]);
      var spaceFree := spaceService.Validate(word);
      if !spaceFree {
        return Throw(NoSpaceMessage);
      }
      var fiveLong := lenService.Validate(word);
      if !fiveLong {
        return Throw(LengthMessage);
      }
      var lettersOnly := letterService.Validate(word);
      if !lettersOnly {
        return Throw(LettersMessage);
      }
      return Normal(true);
    }

    /** Takes what the supplier resolved to (`None` for `null` or `undefined`): a missing
        word fails, an invalid one throws the message of `isValidWord`, and a valid one
        becomes the word to guess and sets the maximum to its length. */
    method LoadWordle(word: Option<Letters>) returns (r: Completion<()>)
      modifies this`wordle, this`maxAttempts
      requires Valid()
      ensures Valid()
      ensures word.None? ==> r == Throw(FailedToLoad) && unchanged(this)
      ensures word.Some? && !ValidWord(word.value) ==>
        r == Throw(Validation(word.value).message) && unchanged(this)
      ensures word.Some? && ValidWord(word.value) ==>
        r == Normal(()) && wordle == word.value && maxAttempts == |word.value|
    {
      if word.None? {
        return Throw(FailedToLoad);
      }
      var valid := IsValidWord(word.value);
      if valid.Throw? {
        return Throw(valid.message);
      }
      wordle := word.value;
      maxAttempts := |word.value|;
      // The source resizes `colorsChecking` when the word is longer than five letters;
      // a word that passed `isValidWord` has exactly five, so that branch never runs.
      return Normal(());
    }

    method AddWordAttempt(word: Letters)
      modifies this`wordsAttempted
      ensures wordsAttempted == old(wordsAttempted) + [word]
    {
      wordsAttempted := wordsAttempted + [word];
    }

    method ResetColorsChecking()
      modifies this`colorsChecking
      ensures colorsChecking == Grays(|wordle|)
    {
      colorsChecking := Grays(|wordle|);
    }

    method IncrementCounter()
      modifies this`attemptCounter
      ensures attemptCounter == old(attemptCounter) + 1
    {
      attemptCounter := attemptCounter + 1;
    }

    /** Every colour written is green: a hole does not make the game unwon, and an empty
        array counts as won. */
    function IsWon(): (won: bool)
      reads this
      ensures colorsChecking == [] ==> won
      ensures won <==> forall c :: c in colorsChecking ==> c == Green || c == Hole
    {
      assert forall j :: 0 <= j < |colorsChecking| ==> colorsChecking[j] in colorsChecking;
      EveryGreen(colorsChecking)
    }

    /** Turns green every position where the guess matches the word to guess. */
    method GetRightLetterRightPosition(word: Letters)
      modifies this`colorsChecking
      ensures colorsChecking == RightPositions(word, wordle, old(colorsChecking))
    {
      assert RightPass(word, wordle, colorsChecking, 0) == colorsChecking;
      for i := 0 to |wordle|
        invariant colorsChecking == RightPass(word, wordle, old(colorsChecking), i)
      {
        RightPassStep(word, wordle, old(colorsChecking), i);
        if i < |word| && wordle[i] == word[i] {
          colorsChecking := Put(colorsChecking, i, Green);
        }
      }
    }

    /** Marks yellow each guess letter, outside the green positions, that is still
        available in the word to guess, using up one occurrence each time. */
    method GetIncludedLettersInWrongPosition(word: Letters)
      modifies this`colorsChecking
      ensures colorsChecking == Included(word, wordle, old(colorsChecking))
    {
      var wordCopy := Lift(word);
      var targetWord := Lift(wordle);
      var checked := colorsChecking;
      for i := 0 to |checked|
        invariant |wordCopy| == |word| && |targetWord| == |wordle|
        invariant forall j :: 0 <= j < |word| ==>
          wordCopy[j] == if j < i && checked[j] == Green then None else Some(word[j])
        invariant forall j :: 0 <= j < |wordle| ==>
          targetWord[j] == if j < i && checked[j] == Green then None else Some(wordle[j])
      {
        if checked[i] == Green {
          if i < |targetWord| {
            targetWord := targetWord[i := None];
          }
          if i < |wordCopy| {
            wordCopy := wordCopy[i := None];
          }
        }
      }
      assert wordCopy == Cleared(Lift(word), checked);
      assert targetWord == Cleared(Lift(wordle), checked);
      ghost var start := Search(colorsChecking, targetWord);
      for i := 0 to |word|
        invariant IncludedFrom(wordCopy, Search(colorsChecking, targetWord), i) == IncludedFrom(wordCopy, start, 0)
      {
        if Truthy(wordCopy[i]) && wordCopy[i] in targetWord {
          colorsChecking := Put(colorsChecking, i, Yellow);
          var indexToRemove := IndexOf(targetWord, wordCopy[i].value);
          targetWord := targetWord[indexToRemove := None];
        }
      }
    }

    /** One guess. After the last attempt, or once every colour is green, it returns -2 and
        changes nothing. Otherwise it resets the colours, throws the message of the first
        rule the guess breaks, or colours the guess, records it and counts the attempt; then
        it reports a win (1) when every colour is green, a loss (-1) when that was the last
        attempt, and returns 0 otherwise. The player records the guess itself as the word
        won or lost. */
    method Play(word: Letters) returns (r: Completion<int>)
      modifies this`colorsChecking, this`wordsAttempted, this`attemptCounter, player
      requires Valid()
      ensures Valid()
      ensures wordle == old(wordle) && maxAttempts == old(maxAttempts)
      ensures old(attemptCounter >= maxAttempts || IsWon()) ==>
        r == Normal(Refused) && unchanged(this) && unchanged(player)
      ensures !old(attemptCounter >= maxAttempts || IsWon()) && !ValidWord(word) ==>
        && r == Throw(Validation(word).message) && colorsChecking == Grays(|wordle|)
        && attemptCounter == old(attemptCounter) && wordsAttempted == old(wordsAttempted)
        && unchanged(player)
      ensures !old(attemptCounter >= maxAttempts || IsWon()) && ValidWord(word) ==>
        && colorsChecking == Verdict(word, wordle)
        && (IsWon() <==> wordle == [] || word == wordle)
        && wordsAttempted == old(wordsAttempted) + [word]
        && attemptCounter == old(attemptCounter) + 1
      ensures !old(attemptCounter >= maxAttempts || IsWon()) && ValidWord(word) && IsWon() ==>
        && r == Normal(Won)
        && player.gamesWon == old(player.gamesWon) + [word] && player.gamesLost == old(player.gamesLost)
        && player.gamesPlayed == old(player.gamesPlayed) + [word]
        && player.attempts == old(player.attempts) + [attemptCounter]
        && player.streaks == DataPlayer.StreakAfter(old(player.attempts), attemptCounter, old(player.streaks))
        && player.score == old(player.score) + DataPlayer.Points(true, attemptCounter, maxAttempts, player.streaks)
        && (old(player.streaks) == DataPlayer.Repeats(old(player.attempts)) ==> player.streaks == DataPlayer.Repeats(player.attempts))
      ensures !old(attemptCounter >= maxAttempts || IsWon()) && ValidWord(word) && !IsWon() && attemptCounter == maxAttempts ==>
        && r == Normal(Lost)
        && player.gamesLost == old(player.gamesLost) + [word] && player.gamesWon == old(player.gamesWon)
        && player.gamesPlayed == old(player.gamesPlayed) + [word]
        && player.attempts == old(player.attempts) + [attemptCounter]
        && player.streaks == DataPlayer.StreakAfter(old(player.attempts), attemptCounter, old(player.streaks))
        && player.score == old(player.score)
        && (old(player.streaks) == DataPlayer.Repeats(old(player.attempts)) ==> player.streaks == DataPlayer.Repeats(player.attempts))
      ensures !old(attemptCounter >= maxAttempts || IsWon()) && ValidWord(word) && !IsWon() && attemptCounter < maxAttempts ==>
        r == Normal(Continue) && unchanged(player)
    {
      if attemptCounter >= maxAttempts || IsWon() {
        return Normal(Refused);
      }
      ResetColorsChecking();
      var valid := IsValidWord(word);
      if valid.Throw? {
        return Throw(valid.message);
      }
      GetRightLetterRightPosition(word);
      GetIncludedLettersInWrongPosition(word);
      AddWordAttempt(word);
      IncrementCounter();
      WonIffValid(word, wordle);

      if IsWon() {
        RecordGame(player, true, word, attemptCounter, maxAttempts);
        return Normal(Won);
      }

      if attemptCounter == maxAttempts {
        RecordGame(player, false, word, attemptCounter, maxAttempts);
        return Normal(Lost);
      }

      return Normal(Continue);
    }
  }

  /** The end of a won or lost game as `play` reports it to the player: the word goes to
      the won or the lost list, the attempt count is added, and the score gains the
      points of the game. */
  method RecordGame(player: DataPlayer.Player, isWin: bool, word: Letters, used: int, maxAttempts: int)
    modifies player
    requires player.Valid()
    ensures player.Valid()
    ensures isWin ==> player.gamesWon == old(player.gamesWon) + [word] && player.gamesLost == old(player.gamesLost)
    ensures !isWin ==> player.gamesLost == old(player.gamesLost) + [word] && player.gamesWon == old(player.gamesWon)
    ensures player.gamesPlayed == old(player.gamesPlayed) + [word]
    ensures player.attempts == old(player.attempts) + [used]
    ensures player.streaks == DataPlayer.StreakAfter(old(player.attempts), used, old(player.streaks))
    ensures player.score == old(player.score) + DataPlayer.Points(isWin, used, maxAttempts, player.streaks)
    ensures old(player.streaks) == DataPlayer.Repeats(old(player.attempts)) ==> player.streaks == DataPlayer.Repeats(player.attempts)
  {
    if isWin {
      player.AddGameWon(word);
    } else {
      player.AddGameLost(word);
    }
    player.AddAttempt(used);
    player.ComputeScore(isWin, used, maxAttempts);
  }

  /** Five ASCII letters make a valid word. */
  lemma FiveLettersAreValid(word: Letters)
    requires |word| == 5 && forall j :: 0 <= j < |word| ==> V.IsLetter(word[j])
    ensures ValidWord(word)
  {
    assert CheckOrder == [V.NoSpace, V.ExactLen, V.OnlyLetters];
    assert CheckOrder[1..] == [V.ExactLen, V.OnlyLetters];
    assert CheckOrder[1..][1..] == [V.OnlyLetters];
    assert CheckOrder[1..][1..][1..] == [];
  }

  /** A first-try win with five attempts: the player records the attempt count 1 and the
      guess, and scores 100 + (5 - 1) * 10 = 140. */
  method SingleWin() returns (r: Completion<int>, score: int, attempts: seq<int>, won: seq<Letters>)
    ensures r == Normal(Won) && score == 140 && attempts == [1] && won == [["p", "o", "m", "m", "e"]]
  {
    var player := new DataPlayer.Player("scoreTester");
    var game := new WordleGame(Some("normal"), player);
    var pomme := ["p", "o", "m", "m", "e"];
    FiveLettersAreValid(pomme);
    var loaded := game.LoadWordle(Some(pomme));
    assert game.colorsChecking[0] == Gray;
    r := game.Play(pomme);
    score := player.score;
    attempts := player.attempts;
    won := player.gamesWon;
  }

  /** A fresh game for the player that loads `word` and is won at the first attempt. */
  method PlayWinningGame(player: DataPlayer.Player, word: Letters)
    modifies player
    requires player.Valid() && ValidWord(word)
    ensures player.Valid()
    ensures player.attempts == old(player.attempts) + [1]
    ensures player.gamesWon == old(player.gamesWon) + [word] && player.gamesLost == old(player.gamesLost)
    ensures old(player.streaks) == DataPlayer.Repeats(old(player.attempts)) ==>
      player.streaks == DataPlayer.Repeats(player.attempts)
  {
    var game := new WordleGame(Some("normal"), player);
    var loaded := game.LoadWordle(Some(word));
    assert game.colorsChecking[0] == Gray;
    var r := game.Play(word);
  }

  /** A fresh game for the player that loads `word` and is lost by guessing `wrong` five
      times; the player records `wrong` as the word lost. */
  method PlayLosingGame(player: DataPlayer.Player, word: Letters, wrong: Letters)
    modifies player
    requires player.Valid() && ValidWord(word) && ValidWord(wrong) && wrong != word
    ensures player.Valid()
    ensures player.gamesLost == old(player.gamesLost) + [wrong] && player.gamesWon == old(player.gamesWon)
  {
    var game := new WordleGame(Some("normal"), player);
    var loaded := game.LoadWordle(Some(word));
    assert game.colorsChecking[0] == Gray;
    for i := 0 to 5
      invariant game.Valid() && game.wordle == word && game.attemptCounter == i
      invariant !game.IsWon()
      invariant i < 5 ==> player.gamesLost == old(player.gamesLost) && player.gamesWon == old(player.gamesWon)
      invariant i == 5 ==> player.gamesLost == old(player.gamesLost) + [wrong] && player.gamesWon == old(player.gamesWon)
    {
      var r := game.Play(wrong);
    }
  }

  /** Two games sharing a player, each won at the first attempt: the second win repeats the
      attempt count, so the counter is 1, and the win rate is 100. */
  method TwoWins() returns (streak: int, rate: real)
    ensures streak == 1 && rate == 100.0
  {
    var player := new DataPlayer.Player("streakTester");
    var tuile := ["t", "u", "i", "l", "e"];
    var pomme := ["p", "o", "m", "m", "e"];
    FiveLettersAreValid(tuile);
    FiveLettersAreValid(pomme);
    PlayWinningGame(player, tuile);
    PlayWinningGame(player, pomme);
    streak := player.streaks;
    rate := player.winRate;
  }

  /** A fresh game for the player that loads `word`, misses once with `wrong` and is then
      won: the player records 2 attempts. */
  method PlaySecondTryGame(player: DataPlayer.Player, word: Letters, wrong: Letters)
    modifies player
    requires player.Valid() && ValidWord(word) && ValidWord(wrong) && wrong != word
    ensures player.Valid()
    ensures player.attempts == old(player.attempts) + [2]
  {
    var game := new WordleGame(Some("normal"), player);
    var loaded := game.LoadWordle(Some(word));
    assert game.colorsChecking[0] == Gray;
    var r := game.Play(wrong);
    r := game.Play(word);
  }

  /** Two first-attempt wins and a win at the second attempt: the attempt counts are
      1, 1 and 2, and their mean is 4/3. */
  method AverageOverThreeGames() returns (attempts: seq<int>, average: real)
    ensures attempts == [1, 1, 2] && average == 4.0 / 3.0
  {
    var player := new DataPlayer.Player("avgAttemptsTester");
    PlayThreeGames(player);
    attempts := player.attempts;
    assert Sum(attempts) == 4 by {
      assert [1][..0] == [] && [1, 1][..1] == [1] && attempts[..2] == [1, 1];
    }
    average := player.ComputeAverageAttempts();
  }

  /** The three games of `AverageOverThreeGames` for a new player. */
  method PlayThreeGames(player: DataPlayer.Player)
    modifies player
    requires player.Valid() && player.attempts == []
    ensures player.attempts == [1, 1, 2]
  {
    var tuile := ["t", "u", "i", "l", "e"];
    var pomme := ["p", "o", "m", "m", "e"];
    var plume := ["p", "l", "u", "m", "e"];
    FiveLettersAreValid(tuile);
    FiveLettersAreValid(pomme);
    FiveLettersAreValid(plume);
    PlayWinningGame(player, tuile);
    PlayWinningGame(player, pomme);
    assert pomme != plume by {
      assert pomme[1] != plume[1];
    }
    PlaySecondTryGame(player, plume, pomme);
  }

  /** Two lost games: the player's list of lost words holds the wrong guesses, not the
      words to guess. */
  method LostGamesLogTheGuesses() returns (lost: seq<Letters>)
    ensures lost == [["p", "o", "m", "m", "e"], ["t", "u", "i", "l", "e"]]
  {
    var player := new DataPlayer.Player("gamesLostTester");
    var tuile := ["t", "u", "i", "l", "e"];
    var pomme := ["p", "o", "m", "m", "e"];
    FiveLettersAreValid(tuile);
    FiveLettersAreValid(pomme);
    assert pomme != tuile by {
      assert pomme[0] != tuile[0];
    }
    PlayLosingGame(player, tuile, pomme);
    PlayLosingGame(player, pomme, tuile);
    lost := player.gamesLost;
  }

  /** Five wrong guesses use up the attempts and the sixth play is refused with -2. */
  method RefusedAfterFiveAttempts() returns (counter: int, sixth: Completion<int>)
    ensures counter == 5 && sixth == Normal(Refused)
  {
    var game := new WordleGame(None, null);
    var pomme := ["p", "o", "m", "m", "e"];
    var poire := ["p", "o", "i", "r", "e"];
    FiveLettersAreValid(pomme);
    FiveLettersAreValid(poire);
    assert poire != pomme by {
      assert poire[2] != pomme[2];
    }
    var loaded := game.LoadWordle(Some(pomme));
    assert game.colorsChecking[0] == Gray;
    for i := 0 to 5
      invariant game.Valid() && game.wordle == pomme && game.attemptCounter == i && !game.IsWon()
    {
      var r := game.Play(poire);
    }
    counter := game.attemptCounter;
    sixth := game.Play(poire);
  }

  /** Playing before any word is loaded: the colours are reset to the empty array, on which
      `every` holds, so the first valid guess wins. Loading a word afterwards leaves the
      colours empty, so every later play is refused. */
  method PlayBeforeLoad() returns (first: Completion<int>, afterLoad: Completion<int>)
    ensures first == Normal(Won) && afterLoad == Normal(Refused)
  {
    var game;
    game, first := EarlyPlayThenLoad();
    afterLoad := game.Play(["p", "o", "m", "m", "e"]);
  }

  /** A new game that plays `pomme` before any word is loaded and then loads `pomme`: the
      play wins, and the colours stay empty. */
  method EarlyPlayThenLoad() returns (game: WordleGame, first: Completion<int>)
    ensures fresh(game) && fresh(game.player) && game.Valid()
    ensures first == Normal(Won) && game.wordle == ["p", "o", "m", "m", "e"] && game.colorsChecking == []
  {
    game := new WordleGame(None, null);
    var pomme := ["p", "o", "m", "m", "e"];
    FiveLettersAreValid(pomme);
    assert game.colorsChecking[0] == Gray;
    first := game.Play(pomme);
    var loaded := game.LoadWordle(Some(pomme));
  }

  /** A hole counts as green for `isWon()`: after the game of `EarlyPlayThenLoad`, a direct
      call of the green pass for a guess that matches only at position 1 leaves the colours
      `[undefined, 'green']`. The game now reads as won, and the next play is refused. */
  method HoleCountsAsGreen() returns (colors: seq<Color>, won: bool, next: Completion<int>)
    ensures colors == [Hole, Green] && won && next == Normal(Refused)
  {
    var game, first := EarlyPlayThenLoad();
    game.GetRightLetterRightPosition(["x", "o", "x", "x", "x"]);
    colors := game.colorsChecking;
    won := game.IsWon();
    next := game.Play(["p", "o", "m", "m", "e"]);
  }

  /** The three messages in their order: a space is reported before a wrong length, and a
      wrong length before a digit; a missing word fails to load. */
  method RejectedWords() returns (space: Completion<bool>, short: Completion<bool>, digit: Completion<bool>, missing: Completion<()>)
    ensures space == Throw(NoSpaceMessage) && short == Throw(LengthMessage) && digit == Throw(LettersMessage)
    ensures missing == Throw(FailedToLoad)
  {
    var game := new WordleGame(None, null);
    var spaced := ["p", " ", "m"];
    var shortWord := ["p", "o"];
    var withDigit := ["p", "0", "m", "m", "e"];
    assert spaced[1] == " ";
    assert !V.IsLetter(withDigit[1]);
    space := game.IsValidWord(spaced);
    short := game.IsValidWord(shortWord);
    digit := game.IsValidWord(withDigit);
    missing := game.LoadWordle(None);
  }
}
