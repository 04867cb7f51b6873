/** src/modules/services/WordValidatorService.ts: the rules `exactlen`, `onlyletters`,
    `inDictionary` and a service that checks a word against a list of them in order. */
module WordValidatorService {
  import opened Common

  /** The entries of `WordValidationRules`. */
  datatype Rule = ExactLen | OnlyLetters | InDictionary

  /** Whether `rule` accepts `word`, given the dictionary the service passes along. */
  predicate Holds(rule: Rule, word: string, dictionary: seq<string>)
  {
    match rule
    case ExactLen => |word| == 5
    // /^[a-zA-Z]+$/: one or more ASCII letters and nothing else
    case OnlyLetters => |word| > 0 && forall i :: 0 <= i < |word| ==> IsAsciiLetter(word[i])
    // exact, case-sensitive membership
    case InDictionary => word in dictionary
  }

  predicate AllHold(rules: seq<Rule>, word: string, dictionary: seq<string>)
  {
    forall i :: 0 <= i < |rules| ==> Holds(rules[i], word, dictionary)
  }

  /** The index of the first rule that rejects the word, or the number of rules when none does. */
  function FirstFailing(rules: seq<Rule>, word: string, dictionary: seq<string>): (k: nat)
    ensures k <= |rules|
    ensures forall j :: 0 <= j < k ==> Holds(rules[j], word, dictionary)
    ensures k < |rules| ==> !Holds(rules[k], word, dictionary)
  {
    if rules == [] then 0
    else if !Holds(rules[0], word, dictionary) then 0
    else 1 + FirstFailing(rules[1..], word, dictionary)
  }

  /** The optional dictionary collaborator: absent (falsy), an object with a
      `loadDictionary` method giving the word list, or an object without one. */
  datatype DictionarySource = NoSource | WithLoadDictionary(words: seq<string>) | WithoutLoadDictionary

  /** How the Promise returned by the `async validate` settles. */
  datatype Settled = Fulfilled(valid: bool) | Rejected(reason: string)

  /** The TypeError raised when `loadDictionary` is called on an object that lacks it. */
  const LoadDictionaryMissing := "this.dictionaryWord.loadDictionary is not a function"

  class WordValidationService {
    var dictionary: seq<string>
    const rules: seq<Rule>
    const source: DictionarySource

    constructor(rules: seq<Rule>, source: DictionarySource)
      ensures this.rules == rules && this.source == source && dictionary == []
    {
      this.rules := rules;
      this.source := source;
      dictionary := [];
    }

    /** Reloads the dictionary when there is a source, then checks the rules in order and
        stops at the first that fails; `examined` is the index where it stopped. */
    method Validate(word: string) returns (outcome: Settled, ghost examined: nat)
      modifies this`dictionary
      ensures source.WithLoadDictionary? ==> dictionary == source.words
      ensures !source.WithLoadDictionary? ==> dictionary == old(dictionary)
      ensures source.WithoutLoadDictionary? ==> outcome == Rejected(LoadDictionaryMissing)
      ensures !source.WithoutLoadDictionary? ==>
        && outcome == Fulfilled(AllHold(rules, word, dictionary))
        && examined == FirstFailing(rules, word, dictionary)
        && (outcome.valid <==> examined == |rules|)
    {
      match source {
        case NoSource =>
        case WithLoadDictionary(words) =>
          dictionary := words;
        case WithoutLoadDictionary =>
          return Rejected(LoadDictionaryMissing), 0;
      }
      var i := 0;
      while i < |rules|
        invariant i <= |rules|
        invariant forall j :: 0 <= j < i ==> Holds(rules[j], word, dictionary)
        invariant FirstFailing(rules[i..], word, dictionary) + i == FirstFailing(rules, word, dictionary)
      {
        if !Holds(rules[i], word, dictionary) {
          return Fulfilled(false), i;
        }
        assert rules[i..][1..] == rules[i + 1..];
        i := i + 1;
      }
      return Fulfilled(true), i;
    }
  }

  /** Without a dictionary source the dictionary stays empty, so `inDictionary` rejects
      every word, including one that an unused word list holds. */
  method InDictionaryWithoutSource(word: string) returns (outcome: Settled)
    ensures outcome == Fulfilled(false)
  {
    var service := new WordValidationService([InDictionary], NoSource);
    ghost var examined;
    outcome, examined := service.Validate(word);
  }

  /** An empty rule list accepts every word. */
  method EmptyRulesAccept(word: string, source: DictionarySource) returns (outcome: Settled)
    ensures !source.WithoutLoadDictionary? ==> outcome == Fulfilled(true)
  {
    var service := new WordValidationService([], source);
    ghost var examined;
    outcome, examined := service.Validate(word);
  }

  /** The examples of tests/wordValidator.test.ts: "Banane" has six letters, "spel5" a digit,
      and the dictionary ["Pomme", "Poire"] holds "Pomme" but neither "Banane" nor "pomme". */
  method ValidatorExamples() returns (long: Settled, digit: Settled, known: Settled, unknown: Settled, lower: Settled)
    ensures long == Fulfilled(false) && digit == Fulfilled(false)
    ensures known == Fulfilled(true) && unknown == Fulfilled(false) && lower == Fulfilled(false)
  {
    ghost var e;
    var lengthService := new WordValidationService([ExactLen], NoSource);
    long, e := lengthService.Validate("Banane");
    var letterService := new WordValidationService([OnlyLetters], NoSource);
    digit, e := letterService.Validate("spel5");
    assert !IsAsciiLetter("spel5"[4]);
    var dictionaryService := new WordValidationService([InDictionary], WithLoadDictionary(["Pomme", "Poire"]));
    known, e := dictionaryService.Validate("Pomme");
    unknown, e := dictionaryService.Validate("Banane");
    lower, e := dictionaryService.Validate("pomme");
  }
}
