/** `arraysEqual` of src/modules/utils/ArrayUtils.ts: element-wise `===` comparison. */
module ArrayUtils {

  /** Different lengths compare false; otherwise the first differing index returns false. */
  method ArraysEqual<T(==)>(arr1: seq<T>, arr2: seq<T>) returns (equal: bool)
    ensures equal <==> arr1 == arr2
    ensures |arr1| != |arr2| ==> !equal
    ensures (exists i :: 0 <= i < |arr1| && i < |arr2| && arr1[i] != arr2[i]) ==> !equal
  {
    if |arr1| != |arr2| {
      return false;
    }
    for i := 0 to |arr1|
      invariant arr1[..i] == arr2[..i]
    {
      if arr1[i] != arr2[i] {
        return false;
      }
      assert arr1[..i + 1] == arr1[..i] + [arr1[i]];
      assert arr2[..i + 1] == arr2[..i] + [arr2[i]];
    }
    assert arr1 == arr1[..|arr1|];
    return true;
  }
}
