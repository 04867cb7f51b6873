/** Values and JavaScript built-ins shared by the two variants of the game. */
module Common {

  datatype Option<T> = None | Some(value: T)

  /** How a JavaScript call ends: it returns a value, or it throws an `Error` with a message. */
  datatype Completion<T> = Normal(value: T) | Throw(message: string)

  /** The colour written for one position of a guess ('gray', 'green', 'yellow').
      `Hole` is an array slot that JavaScript never wrote (it reads as `undefined`):
      it appears only when a write lands past the end of an array and the array grows. */
  datatype Color = Gray | Green | Yellow | Hole

  /** One character of the class `[a-zA-Z]`. */
  predicate IsAsciiLetter(c: char)
  {
    'a' <= c <= 'z' || 'A' <= c <= 'Z'
  }

  /** `s || fallback` for an optional string argument: an absent or empty string is falsy. */
  function StringOr(s: Option<string>, fallback: string): (r: string)
    ensures s.Some? && s.value != "" ==> r == s.value
    ensures s.None? || s.value == "" ==> r == fallback
  {
    if s.Some? && s.value != "" then s.value else fallback
  }

  /** `Array.prototype.indexOf` over an array whose used entries were overwritten with
      `null` (here `None`), for an element that `includes` has already found. */
  function IndexOf<T(==)>(s: seq<Option<T>>, x: T): (k: nat)
    requires Some(x) in s
    ensures k < |s| && s[k] == Some(x)
    ensures forall j :: 0 <= j < k ==> s[j] != Some(x)
  {
    if s[0] == Some(x) then 0 else 1 + IndexOf(s[1..], x)
  }

  /** `reduce((acc, x) => acc + x, 0)`: the sum, added from left to right. */
  function Sum(s: seq<int>): int
  {
    if s == [] then 0 else Sum(s[..|s| - 1]) + s[|s| - 1]
  }

  /** A lower and an upper bound on every element bound the sum. */
  lemma {:induction false} SumBounds(s: seq<int>, lo: int, hi: int)
    requires forall j :: 0 <= j < |s| ==> lo <= s[j] <= hi
    ensures lo * |s| <= Sum(s) <= hi * |s|
  {
    if s != [] {
      SumBounds(s[..|s| - 1], lo, hi);
    }
  }

  /** `total / length` for a non-empty list and 0 for an empty one, computed exactly
      (the JavaScript number is a floating-point approximation of this value). */
  function Mean(s: seq<int>): (r: real)
    ensures s == [] ==> r == 0.0
  {
    if s == [] then 0.0 else (Sum(s) as real) / (|s| as real)
  }

  /** The mean lies between any lower and upper bound of the elements. */
  lemma MeanWithin(s: seq<int>, lo: int, hi: int)
    requires s != []
    requires forall j :: 0 <= j < |s| ==> lo <= s[j] <= hi
    ensures lo as real <= Mean(s) <= hi as real
  {
    SumBounds(s, lo, hi);
    var n := |s|;
    CastProduct(lo, n);
    CastProduct(hi, n);
    DivisionBounds(Sum(s) as real, n as real, lo as real, hi as real);
  }

  lemma CastProduct(a: int, b: int)
    ensures (a * b) as real == (a as real) * (b as real)
  {
  }

  lemma DivisionBounds(x: real, n: real, lo: real, hi: real)
    requires n > 0.0 && lo * n <= x <= hi * n
    ensures lo <= x / n <= hi
  {
  }

  /** Elements split between two sequences, each position going to exactly one of them. */
  lemma {:induction false} SplitCount<T>(w: seq<T>, a: seq<Option<T>>, b: seq<Option<T>>, c: T)
    requires |a| == |b| == |w|
    requires forall j :: 0 <= j < |w| ==>
      (a[j] == Some(w[j]) && b[j] == None) || (a[j] == None && b[j] == Some(w[j]))
    ensures multiset(a)[Some(c)] + multiset(b)[Some(c)] == multiset(w)[c]
  {
    if w != [] {
      var n := |w| - 1;
      SplitCount(w[..n], a[..n], b[..n], c);
      assert multiset(w) == multiset(w[..n]) + multiset{w[n]} by {
        assert w == w[..n] + [w[n]];
      }
      assert multiset(a) == multiset(a[..n]) + multiset{a[n]} by {
        assert a == a[..n] + [a[n]];
      }
      assert multiset(b) == multiset(b[..n]) + multiset{b[n]} by {
        assert b == b[..n] + [b[n]];
      }
    }
  }

  /** `[...s]` with room for the `null` entries written over used elements. */
  function Lift<T>(s: seq<T>): seq<Option<T>>
  {
    seq(|s|, j requires 0 <= j < |s| => Some(s[j]))
  }

  /** A sequence that keeps some entries of `b` at their positions and has `None` elsewhere
      holds each value at most as often as `b`, and exactly as often when it keeps every
      occurrence of that value. */
  lemma {:induction false} KeptCount<T>(a: seq<Option<T>>, b: seq<Option<T>>, x: T)
    requires |a| <= |b|
    requires forall j :: 0 <= j < |a| ==> a[j] == None || a[j] == b[j]
    ensures multiset(a)[Some(x)] <= multiset(b)[Some(x)]
    ensures (forall j :: 0 <= j < |b| && b[j] == Some(x) ==> j < |a| && a[j] == Some(x))
            ==> multiset(a)[Some(x)] == multiset(b)[Some(x)]
  {
    if b != [] {
      var n := |b| - 1;
      var a' := if |a| == |b| then a[..n] else a;
      KeptCount(a', b[..n], x);
      assert multiset(b) == multiset(b[..n]) + multiset{b[n]} by {
        assert b == b[..n] + [b[n]];
      }
      if |a| == |b| {
        assert multiset(a) == multiset(a') + multiset{a[n]} by {
          assert a == a' + [a[n]];
        }
      }
    }
  }

  /** Lifting a sequence keeps the count of every element. */
  lemma LiftCount<T>(s: seq<T>, x: T)
    ensures multiset(Lift(s))[Some(x)] == multiset(s)[x]
  {
    var gone := seq(|s|, _ => None);
    SplitCount(s, Lift(s), gone, x);
    NoneOnly(gone, x);
  }

  lemma NoneOnly<T>(s: seq<Option<T>>, c: T)
    requires forall j :: 0 <= j < |s| ==> s[j] == None
    ensures multiset(s)[Some(c)] == 0
  {
    assert Some(c) !in s;
  }

  /** The multiset of a sequence after one element is replaced. */
  lemma MultisetUpdate<T>(s: seq<T>, i: nat, v: T)
    requires i < |s|
    ensures multiset(s[i := v]) == multiset(s) - multiset{s[i]} + multiset{v}
  {
    assert s == s[..i] + [s[i]] + s[i + 1..];
    assert s[i := v] == s[..i] + [v] + s[i + 1..];
  }
}
