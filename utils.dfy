/** `arraysEqual` of src/modules/utils/utils.ts, a second copy of the same loop. */
module Utils {
  import ArrayUtils

  /** Different lengths compare false; otherwise the first differing index returns false. */
  method ArraysEqual<T(==)>(arr1: seq<T>, arr2: seq<T>) returns (equal: bool)
    ensures equal <==> arr1 == arr2
    ensures |arr1| != |arr2| ==> !equal
    ensures (exists i :: 0 <= i < |arr1| && i < |arr2| && arr1[i] != arr2[i]) ==> !equal
  {
    if |arr1| != |arr2| {
      return false;
    }
    var i := 0;
    while i < |arr1|
      invariant 0 <= i <= |arr1|
      invariant forall j :: 0 <= j < i ==> arr1[j] == arr2[j]
    {
      if arr1[i] != arr2[i] {
        return false;
      }
      i := i + 1;
    }
    return true;
  }

  /** The two copies answer alike on every pair of arrays, and the comparison is
      reflexive and symmetric. */
  method AgreesWithArrayUtils<T(==)>(arr1: seq<T>, arr2: seq<T>) returns (here: bool, there: bool, swapped: bool, self: bool)
    ensures here == there && here == swapped && self
  {
    here := ArraysEqual(arr1, arr2);
    there := ArrayUtils.ArraysEqual(arr1, arr2);
    swapped := ArraysEqual(arr2, arr1);
    self := ArraysEqual(arr1, arr1);
  }
}
