/** `checkGuess` of src/modules/services/GameLogicService.ts: scores a guess against the
    word in two passes, green where the letters agree by position, then yellow for letters
    present elsewhere, crossing out one unit of the word's letter for every mark. */
module GameLogicService {
  import opened Common

  /** The state of `checkGuess` between and during its passes: the colours of the result
      array, with one slot for each position of the longer of the two words (slots past
      the word's length stay `Hole` until written); the word's letters, with used ones
      crossed out (`None` is the `null` tombstone); and the JavaScript length of the result. */
  datatype Scan = Scan(colors: seq<Color>, letters: seq<Option<char>>, length: nat)

  function Width(guess: string, word: string): nat
  {
    if |guess| < |word| then |word| else |guess|
  }

  /** Position i holds the same letter in both words (`guessLetters[i] === wordLetters[i]`;
      past the end of either word one side is `undefined` and the test fails). */
  predicate Matches(guess: string, word: string, i: int)
  {
    0 <= i < |guess| && i < |word| && guess[i] == word[i]
  }

  /** The scan after the first pass: green and crossed out where the letters match. */
  function GreenPass(guess: string, word: string): Scan
  {
    Scan(seq(Width(guess, word), i => if Matches(guess, word, i) then Green else if i < |word| then Gray else Hole),
         seq(|word|, i requires 0 <= i < |word| => if Matches(guess, word, i) then None else Some(word[i])),
         |word|)
  }

  /** The second pass from guess position i on: a position that is not green and whose
      letter is still among the uncrossed letters turns yellow, and the first uncrossed
      occurrence of that letter is crossed out. Writing past the end grows the array. */
  function YellowPass(guess: string, s: Scan, i: nat): (t: Scan)
    requires |guess| <= |s.colors| && s.length <= |s.colors|
    ensures |t.colors| == |s.colors| && |t.letters| == |s.letters|
    ensures s.length <= t.length <= |t.colors|
    decreases |guess| - i
  {
    if i >= |guess| then s else YellowPass(guess, YellowStep(guess, s, i), i + 1)
  }

  function FinalScan(guess: string, word: string): Scan
  {
    YellowPass(guess, GreenPass(guess, word), 0)
  }

  /** The array `checkGuess(guess, word)` returns. */
  function Verdict(guess: string, word: string): seq<Color>
  {
    var s := FinalScan(guess, word);
    s.colors[..s.length]
  }

  /** The array `Array(n).fill('green')` that the game compares a verdict with. */
  function AllGreen(n: nat): seq<Color>
  {
    seq(n, _ => Green)
  }

  /** `checkGuess`: two index loops over arrays, marking in place. */
  method CheckGuess(guess: string, word: string) returns (result: seq<Color>)
    ensures result == Verdict(guess, word)
  {
    var colors := new Color[Width(guess, word)](i => if i < |word| then Gray else Hole);
    var letters := new Option<char>[|word|](i requires 0 <= i < |word| => Some(word[i]));
    MarkRightPositions(guess, word, colors, letters);
    var length := MarkWrongPositions(guess, colors, letters, |word|);
    result := colors[..length];
  }

  /** The first loop: green, and the word's letter crossed out, where the letters match. */
  method MarkRightPositions(guess: string, word: string, colors: array<Color>, letters: array<Option<char>>)
    modifies colors, letters
    requires colors.Length == Width(guess, word) && letters.Length == |word|
    requires forall j :: 0 <= j < colors.Length ==> colors[j] == if j < |word| then Gray else Hole
    requires forall j :: 0 <= j < letters.Length ==> letters[j] == Some(word[j])
    ensures Scan(colors[..], letters[..], |word|) == GreenPass(guess, word)
  {
    for i := 0 to |guess|
      invariant forall j :: 0 <= j < colors.Length ==>
        colors[j] == if j < i && Matches(guess, word, j) then Green else if j < |word| then Gray else Hole
      invariant forall j :: 0 <= j < letters.Length ==>
        letters[j] == if j < i && Matches(guess, word, j) then None else Some(word[j])
    {
      if i < |word| && guess[i] == word[i] {
        colors[i] := Green;
        letters[i] := None;
      }
    }
  }

  /** The second loop, from the scan the first one left; returns the array's new length. */
  method MarkWrongPositions(guess: string, colors: array<Color>, letters: array<Option<char>>, length0: nat)
    returns (length: nat)
    modifies colors, letters
    requires |guess| <= colors.Length && length0 <= colors.Length
    ensures Scan(colors[..], letters[..], length)
      == YellowPass(guess, Scan(old(colors[..]), old(letters[..]), length0), 0)
  {
    length := length0;
    ghost var start := Scan(colors[..], letters[..], length);
    for i := 0 to |guess|
      invariant length <= colors.Length
      invariant YellowPass(guess, Scan(colors[..], letters[..], length), i) == YellowPass(guess, start, 0)
    {
      if colors[i] != Green && Some(guess[i]) in letters[..] {
        var k := IndexOf(letters[..], guess[i]);
        ghost var before := Scan(colors[..], letters[..], length);
        colors[i] := Yellow;
        letters[k] := None;
        if length <= i {
          length := i + 1;
        }
        assert Scan(colors[..], letters[..], length)
          == Scan(before.colors[i := Yellow], before.letters[k := None], if i < before.length then before.length else i + 1);
      }
    }
  }

  // ---------------------------------------------------------------------------
  // What the verdict means

  /** For each guess position, its letter if that position is green or yellow. */
  function Marked(guess: string, colors: seq<Color>): seq<Option<char>>
  {
    seq(if |guess| < |colors| then |guess| else |colors|,
        j requires 0 <= j < |guess| && j < |colors| =>
          if colors[j] == Green || colors[j] == Yellow then Some(guess[j]) else None)
  }

  /** How many green-or-yellow positions of the result hold the letter c in the guess. */
  function MarkedCount(guess: string, result: seq<Color>, c: char): nat
  {
    multiset(Marked(guess, result))[Some(c)]
  }

  /** What holds of a scan after the first pass and before guess position i: its shape, */
  ghost predicate ScanShape(guess: string, word: string, s: Scan, i: nat)
  {
    && |s.colors| == Width(guess, word) && |s.letters| == |word|
    && |word| <= s.length <= |s.colors| && i <= |guess|
  }

  /** what its colours mean, */
  ghost predicate ScanColors(guess: string, word: string, s: Scan, i: nat)
    requires ScanShape(guess, word, s, i)
  {
    && (forall j :: 0 <= j < |s.colors| ==> (s.colors[j] == Green <==> Matches(guess, word, j)))
    && (forall j :: 0 <= j < |word| ==> s.colors[j] != Hole)
    && (forall j :: s.length <= j < |s.colors| ==> s.colors[j] == Hole)
    && (forall j :: 0 <= j < |s.colors| && s.colors[j] == Yellow ==> j < i && guess[j] in word)
    && (forall j :: 0 <= j < |word| && s.letters[j] != None ==> s.letters[j] == Some(word[j]))
  }

  /** and that every letter of the word is either marked or still available. */
  ghost predicate ScanBalanced(guess: string, word: string, s: Scan)
  {
    forall c :: multiset(Marked(guess, s.colors))[Some(c)] + multiset(s.letters)[Some(c)] == multiset(word)[c]
  }

  ghost predicate ScanInvariant(guess: string, word: string, s: Scan, i: nat)
  {
    ScanShape(guess, word, s, i) && ScanColors(guess, word, s, i) && ScanBalanced(guess, word, s)
  }

  /** After the first pass, exactly the matching positions are marked. */
  lemma MarkedAfterGreenPass(guess: string, word: string)
    ensures var m := Marked(guess, GreenPass(guess, word).colors);
      && |m| == (if |guess| < |word| then |guess| else |word|) + (if |guess| > |word| then |guess| - |word| else 0)
      && forall j :: 0 <= j < |m| ==> m[j] == if Matches(guess, word, j) then Some(word[j]) else None
  {
  }

  /** The word's letters at the matching positions. */
  function MatchedLetters(guess: string, word: string): seq<Option<char>>
  {
    seq(|word|, j requires 0 <= j < |word| => if Matches(guess, word, j) then Some(word[j]) else None)
  }

  lemma GreenPassSplit(guess: string, word: string, c: char)
    ensures multiset(MatchedLetters(guess, word))[Some(c)] + multiset(GreenPass(guess, word).letters)[Some(c)]
            == multiset(word)[c]
  {
    SplitCount(word, MatchedLetters(guess, word), GreenPass(guess, word).letters, c);
  }

  lemma GreenPassMarked(guess: string, word: string, c: char)
    ensures multiset(Marked(guess, GreenPass(guess, word).colors))[Some(c)]
            == multiset(MatchedLetters(guess, word))[Some(c)]
  {
    var a := MatchedLetters(guess, word);
    var m := Marked(guess, GreenPass(guess, word).colors);
    MarkedAfterGreenPass(guess, word);
    if |guess| <= |word| {
      assert a[..|guess|] == m;
      assert a == m + a[|guess|..];
      NoneOnly(a[|guess|..], c);
    } else {
      assert m[..|word|] == a;
      assert m == a + m[|word|..];
      NoneOnly(m[|word|..], c);
    }
  }

  lemma GreenPassInvariant(guess: string, word: string)
    ensures ScanInvariant(guess, word, GreenPass(guess, word), 0)
  {
    var s := GreenPass(guess, word);
    forall c
      ensures multiset(Marked(guess, s.colors))[Some(c)] + multiset(s.letters)[Some(c)] == multiset(word)[c]
    {
      GreenPassSplit(guess, word, c);
      GreenPassMarked(guess, word, c);
    }
  }

  /** The scan after the second pass handles guess position i. */
  function YellowStep(guess: string, s: Scan, i: nat): Scan
    requires i < |guess| <= |s.colors|
  {
    if s.colors[i] != Green && Some(guess[i]) in s.letters
    then Scan(s.colors[i := Yellow], s.letters[IndexOf(s.letters, guess[i]) := None],
              if i < s.length then s.length else i + 1)
    else s
  }

  lemma YellowStepBalanced(guess: string, word: string, s: Scan, i: nat, c: char)
    requires ScanInvariant(guess, word, s, i) && i < |guess|
    requires s.colors[i] != Green && Some(guess[i]) in s.letters
    ensures var t := YellowStep(guess, s, i);
      multiset(Marked(guess, t.colors))[Some(c)] + multiset(t.letters)[Some(c)] == multiset(word)[c]
  {
    var k := IndexOf(s.letters, guess[i]);
    var t := YellowStep(guess, s, i);
    var m := Marked(guess, s.colors);
    assert t.colors == s.colors[i := Yellow] && t.letters == s.letters[k := None];
    assert multiset(m)[Some(c)] + multiset(s.letters)[Some(c)] == multiset(word)[c];
    assert s.colors[i] != Yellow;
    assert m[i] == None;
    MarkedAfterYellow(guess, s.colors, i);
    MultisetUpdate(m, i, Some(guess[i]));
    MultisetUpdate(s.letters, k, None);
  }

  /** Marking position i yellow marks the guess letter there. */
  lemma MarkedAfterYellow(guess: string, colors: seq<Color>, i: nat)
    requires i < |guess| && i < |colors|
    ensures Marked(guess, colors[i := Yellow]) == Marked(guess, colors)[i := Some(guess[i])]
  {
  }

  /** One step of the second pass keeps the invariant. */
  lemma YellowStepInvariant(guess: string, word: string, s: Scan, i: nat)
    requires ScanInvariant(guess, word, s, i) && i < |guess|
    ensures ScanInvariant(guess, word, YellowStep(guess, s, i), i + 1)
  {
    if s.colors[i] != Green && Some(guess[i]) in s.letters {
      var k := IndexOf(s.letters, guess[i]);
      var t := YellowStep(guess, s, i);
      assert guess[i] == word[k];
      assert ScanShape(guess, word, t, i + 1);
      assert ScanColors(guess, word, t, i + 1);
      forall c {
        YellowStepBalanced(guess, word, s, i, c);
      }
    }
  }

  lemma {:induction false} YellowPassInvariant(guess: string, word: string, s: Scan, i: nat)
    requires ScanInvariant(guess, word, s, i)
    ensures ScanInvariant(guess, word, YellowPass(guess, s, i), |guess|)
    decreases |guess| - i
  {
    if i < |guess| {
      YellowStepInvariant(guess, word, s, i);
      YellowPassInvariant(guess, word, YellowStep(guess, s, i), i + 1);
    }
  }

  lemma FinalScanInvariant(guess: string, word: string)
    ensures ScanInvariant(guess, word, FinalScan(guess, word), |guess|)
  {
    GreenPassInvariant(guess, word);
    YellowPassInvariant(guess, word, GreenPass(guess, word), 0);
  }

  /** The result covers the word; every position of the word is gray, green or yellow;
      for a guess no longer than the word the result has exactly the word's length. */
  lemma VerdictShape(guess: string, word: string)
    ensures var r := Verdict(guess, word);
      && |word| <= |r|
      && (|guess| <= |word| ==> |r| == |word|)
      && (forall j :: 0 <= j < |word| ==> r[j] == Gray || r[j] == Green || r[j] == Yellow)
  {
    FinalScanInvariant(guess, word);
  }

  /** A position is green exactly when guess and word hold the same letter there. */
  lemma GreenExactlyOnMatch(guess: string, word: string)
    ensures var r := Verdict(guess, word);
      forall j :: 0 <= j < |r| ==> (r[j] == Green <==> Matches(guess, word, j))
  {
    FinalScanInvariant(guess, word);
  }

  /** A yellow position holds, in the guess, a letter that does not match there and
      that occurs somewhere in the word. */
  lemma YellowMeansPresentElsewhere(guess: string, word: string)
    ensures var r := Verdict(guess, word);
      forall j :: 0 <= j < |r| && r[j] == Yellow ==>
        j < |guess| && !Matches(guess, word, j) && guess[j] in word
  {
    FinalScanInvariant(guess, word);
  }

  /** A guess letter that the word does not contain is gray. */
  lemma AbsentLetterIsGray(guess: string, word: string, j: nat)
    requires j < |guess| && j < |word| && guess[j] !in word
    ensures j < |Verdict(guess, word)| && Verdict(guess, word)[j] == Gray
  {
    FinalScanInvariant(guess, word);
  }

  /** Duplicate letters: for every letter, the green-or-yellow positions holding it are
      no more than its occurrences in the word. */
  lemma DuplicateLetterBound(guess: string, word: string, c: char)
    ensures MarkedCount(guess, Verdict(guess, word), c) <= multiset(word)[c]
  {
    FinalScanInvariant(guess, word);
    var s := FinalScan(guess, word);
    MarkedOfPrefix(guess, s.colors, s.length, c);
  }

  /** Cutting off trailing holes does not change what is marked. */
  lemma MarkedOfPrefix(guess: string, colors: seq<Color>, n: nat, c: char)
    requires n <= |colors|
    requires forall j :: n <= j < |colors| ==> colors[j] == Hole
    ensures multiset(Marked(guess, colors[..n]))[Some(c)] == multiset(Marked(guess, colors))[Some(c)]
  {
    var full := Marked(guess, colors);
    var m := Marked(guess, colors[..n]);
    if n < |guess| {
      assert full[..n] == m;
      assert full == m + full[n..];
      NoneOnly(full[n..], c);
    } else {
      assert full == m;
    }
  }

  /** Before guess position i, every position left neither green nor yellow holds a letter
      with no uncrossed occurrence in the word. */
  ghost predicate UsedUp(guess: string, s: Scan, i: nat)
    requires i <= |guess| <= |s.colors|
  {
    forall j :: 0 <= j < i && s.colors[j] != Green && s.colors[j] != Yellow ==> Some(guess[j]) !in s.letters
  }

  lemma YellowStepUsedUp(guess: string, s: Scan, i: nat)
    requires i < |guess| <= |s.colors| && UsedUp(guess, s, i)
    ensures UsedUp(guess, YellowStep(guess, s, i), i + 1)
  {
  }

  lemma {:induction false} YellowPassUsedUp(guess: string, s: Scan, i: nat)
    requires i <= |guess| <= |s.colors| && s.length <= |s.colors| && UsedUp(guess, s, i)
    ensures UsedUp(guess, YellowPass(guess, s, i), |guess|)
    decreases |guess| - i
  {
    if i < |guess| {
      YellowStepUsedUp(guess, s, i);
      YellowPassUsedUp(guess, YellowStep(guess, s, i), i + 1);
    }
  }

  /** The converse of `DuplicateLetterBound`: a guess position that the result leaves
      neither green nor yellow (or does not reach) holds a letter whose occurrences in the
      word are all marked elsewhere, so no occurrence was left for it. */
  lemma UnmarkedMeansUsedUp(guess: string, word: string, j: nat)
    requires j < |guess|
    requires var r := Verdict(guess, word); j < |r| ==> r[j] != Green && r[j] != Yellow
    ensures MarkedCount(guess, Verdict(guess, word), guess[j]) == multiset(word)[guess[j]]
  {
    var s := FinalScan(guess, word);
    FinalScanInvariant(guess, word);
    YellowPassUsedUp(guess, GreenPass(guess, word), 0);
    assert s.colors[j] != Green && s.colors[j] != Yellow by {
      if j < s.length {
        assert Verdict(guess, word)[j] == s.colors[j];
      }
    }
    assert multiset(s.letters)[Some(guess[j])] == 0;
    MarkedOfPrefix(guess, s.colors, s.length, guess[j]);
  }

  /** Every letter is marked green or yellow exactly as often as the smaller of its number
      of occurrences in the guess and in the word. */
  lemma MarkedIsMin(guess: string, word: string, c: char)
    ensures var inGuess, inWord := multiset(guess)[c], multiset(word)[c];
      MarkedCount(guess, Verdict(guess, word), c) == if inGuess < inWord then inGuess else inWord
  {
    var r := Verdict(guess, word);
    var s := FinalScan(guess, word);
    FinalScanInvariant(guess, word);
    DuplicateLetterBound(guess, word, c);
    MarkedOfPrefix(guess, s.colors, s.length, c);
    LiftCount(guess, c);
    var m := Marked(guess, s.colors);
    KeptCount(m, Lift(guess), c);
    if j :| 0 <= j < |guess| && guess[j] == c && (j < |r| ==> r[j] != Green && r[j] != Yellow) {
      UnmarkedMeansUsedUp(guess, word, j);
    } else {
      forall j | 0 <= j < |guess| && Lift(guess)[j] == Some(c) ensures j < |m| && m[j] == Some(c) {
        assert r[j] == s.colors[j];
      }
    }
  }

  /** With every letter of the word crossed out, the second pass writes nothing. */
  lemma {:induction false} YellowPassIdle(guess: string, s: Scan, i: nat)
    requires |guess| <= |s.colors| && s.length <= |s.colors|
    requires forall j :: 0 <= j < |s.letters| ==> s.letters[j] == None
    ensures YellowPass(guess, s, i) == s
    decreases |guess| - i
  {
    if i < |guess| {
      assert Some(guess[i]) !in s.letters;
      YellowPassIdle(guess, s, i + 1);
    }
  }

  /** The verdict is all green, with the word's length, exactly when the guess begins with
      the word. For guesses of the word's length: exactly when guess and word are equal;
      a longer guess that starts with the word is all green as well. */
  lemma SolvedIff(guess: string, word: string)
    ensures Verdict(guess, word) == AllGreen(|word|) <==> |guess| >= |word| && guess[..|word|] == word
  {
    FinalScanInvariant(guess, word);
    var r := Verdict(guess, word);
    if |guess| >= |word| && guess[..|word|] == word {
      var s0 := GreenPass(guess, word);
      assert forall j :: 0 <= j < |word| ==> Matches(guess, word, j) by {
        forall j | 0 <= j < |word| ensures Matches(guess, word, j) {
          assert guess[..|word|][j] == guess[j];
        }
      }
      YellowPassIdle(guess, s0, 0);
      assert r == AllGreen(|word|);
    }
    if r == AllGreen(|word|) {
      GreenExactlyOnMatch(guess, word);
      if |word| > 0 {
        assert r[|word| - 1] == Green;
        assert Matches(guess, word, |word| - 1);
      }
      assert |guess| >= |word|;
      forall j | 0 <= j < |word| ensures guess[..|word|][j] == word[j] {
        assert r[j] == Green;
      }
      assert guess[..|word|] == word;
    }
  }

  /** A word scored against itself is all green; a guess of the word's length that differs
      from it is not. */
  lemma SelfIsAllGreen(guess: string, word: string)
    requires |guess| == |word|
    ensures Verdict(guess, word) == AllGreen(|word|) <==> guess == word
  {
    SolvedIff(guess, word);
    assert guess[..|word|] == guess;
  }

  /** The examples of tests/gameLogic.test.ts, one lemma each: the right word is all green, */
  lemma RightWordVector()
    ensures Verdict("pomme", "pomme") == [Green, Green, Green, Green, Green]
  {
    SelfIsAllGreen("pomme", "pomme");
    assert AllGreen(5) == [Green, Green, Green, Green, Green];
  }

  /** a letter found elsewhere is not yellow when its one occurrence is already green, */
  lemma OneOffVector()
    ensures Verdict("tuile", "huile") == [Gray, Green, Green, Green, Green]
  {
    Vector("tuile", "huile", [Gray, Green, Green, Green, Green]);
  }

  /** no common letter gives all gray, */
  lemma DisjointVector()
    ensures Verdict("caler", "puits") == [Gray, Gray, Gray, Gray, Gray]
  {
    Vector("caler", "puits", [Gray, Gray, Gray, Gray, Gray]);
  }

  /** and a doubled letter already matched in place is not marked again. */
  lemma DuplicateVector()
    ensures Verdict("pomme", "femme") == [Gray, Gray, Green, Green, Green]
  {
    Vector("pomme", "femme", [Gray, Gray, Green, Green, Green]);
  }

  /** A verdict without yellows is fixed by the matches and the absent letters alone. */
  lemma Vector(guess: string, word: string, expected: seq<Color>)
    requires |guess| == |word| == |expected|
    requires forall j :: 0 <= j < |word| ==>
      (Matches(guess, word, j) && expected[j] == Green) || (guess[j] !in word && expected[j] == Gray)
    ensures Verdict(guess, word) == expected
  {
    VerdictShape(guess, word);
    GreenExactlyOnMatch(guess, word);
    YellowMeansPresentElsewhere(guess, word);
  }
}
