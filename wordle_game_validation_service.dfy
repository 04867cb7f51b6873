/** src/data/services/WordleGameValidationService.ts: rules over a word given as an array
    of one-letter strings, and a service that checks a list of them in order. */
module WordleGameValidationService {
  import opened Common

  /** A word as the `data` variant handles it: one string per letter. */
  type Letters = seq<string>

  /** The entries of `WordleGameValidationRules`. */
  datatype Rule = ExactLen | OnlyLetters | NoSpace

  /** A string made of exactly one ASCII letter (/^[a-zA-Z]$/). */
  predicate IsLetter(s: string)
  {
    |s| == 1 && IsAsciiLetter(s[0])
  }

  /** Whether `rule` accepts `word`. */
  predicate Holds(rule: Rule, word: Letters)
  {
    match rule
    case ExactLen => |word| == 5
    case OnlyLetters => forall i :: 0 <= i < |word| ==> IsLetter(word[i])
    case NoSpace => " " !in word
  }

  /** The index of the first rule that rejects the word, or the number of rules when none does. */
  function FirstFailing(rules: seq<Rule>, word: Letters): (k: nat)
    ensures k <= |rules|
    ensures forall j :: 0 <= j < k ==> Holds(rules[j], word)
    ensures k < |rules| ==> !Holds(rules[k], word)
  {
    if rules == [] then 0
    else if !Holds(rules[0], word) then 0
    else 1 + FirstFailing(rules[1..], word)
  }

  class WordleGameValidationService {
    const rules: seq<Rule>

    constructor(rules: seq<Rule>)
      ensures this.rules == rules
    {
      this.rules := rules;
    }

    /** True exactly when every rule accepts the word; it stops at the first that does not. */
    method Validate(word: Letters) returns (valid: bool)
      ensures valid <==> forall j :: 0 <= j < |rules| ==> Holds(rules[j], word)
      ensures valid <==> FirstFailing(rules, word) == |rules|
    {
      var i := 0;
      while i < |rules|
        invariant i <= |rules|
        invariant forall j :: 0 <= j < i ==> Holds(rules[j], word)
        invariant FirstFailing(rules[i..], word) + i == FirstFailing(rules, word)
      {
        if !Holds(rules[i], word) {
          return false;
        }
        assert rules[i..][1..] == rules[i + 1..];
        i := i + 1;
      }
      return true;
    }
  }

  /** A letter rule accepts the empty word and rejects a word holding a space or a
      two-character entry; a space is not a letter either. */
  lemma {:induction false} RuleExamples()
    ensures Holds(OnlyLetters, []) && Holds(NoSpace, [])
    ensures !Holds(OnlyLetters, ["a", "bc"]) && !Holds(OnlyLetters, ["a", " "])
    ensures !Holds(NoSpace, ["a", " ", "b"]) && Holds(NoSpace, ["a", "  "])
  {
    assert !IsLetter(["a", "bc"][1]);
    assert !IsLetter(["a", " "][1]);
    assert ["a", " ", "b"][1] == " ";
    assert ["a", "  "][0] != " " && ["a", "  "][1] != " ";
  }
}
