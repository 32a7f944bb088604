/**
 * Lookup of a code value in an ascending table of common characters
 * (src/chardet/binary_search.ts): a recursive search over the inclusive
 * index range [left, right] that answers an index holding the value, or -1.
 */
module BinarySearch {

  predicate Sorted(a: seq<int>) {
    forall i, j :: 0 <= i < j < |a| ==> a[i] <= a[j]
  }

  /**
   * The midpoint as the source computes it, `(left + right) >>> 1`: the
   * sum is first reduced to an unsigned 32-bit value, then halved.
   */
  function MidAsWritten(left: int, right: int): (mid: int)
    ensures 0 <= mid < 0x8000_0000
  {
    ((left + right) % 0x1_0000_0000) / 2
  }

  /** While the sum fits in 32 unsigned bits the two agree... */
  lemma MidAsWrittenAgrees(left: int, right: int)
    requires 0 <= left <= right && left + right < 0x1_0000_0000
    ensures MidAsWritten(left, right) == Mid(left, right)
  {
  }

  /** ...but for indices of an array longer than 2^31 the midpoint falls below left. */
  lemma MidAsWrittenEscapesRange()
    ensures var left, right := 0xFFFF_FFFD, 0xFFFF_FFFE;
            MidAsWritten(left, right) == 0x7FFF_FFFD && MidAsWritten(left, right) < left
  {
  }

  /** The intended midpoint, always within the range being searched. */
  function Mid(left: int, right: int): (mid: int)
    requires 0 <= left <= right
    ensures left <= mid <= right
    ensures mid - left <= right - mid <= mid - left + 1
  {
    (left + right) / 2
  }

  /** The inner recursive `find`: where in arr[left..right] searchValue sits, or -1. */
  function Find(arr: seq<int>, searchValue: int, left: int, right: int): (r: int)
    requires 0 <= left && right < |arr|
    ensures r == -1 || (left <= r <= right && arr[r] == searchValue)
    ensures Sorted(arr) && r == -1 ==> forall k :: left <= k <= right ==> arr[k] != searchValue
    decreases right - left
  {
    if right < left then -1
    else
      var mid := Mid(left, right);
      if searchValue > arr[mid] then Find(arr, searchValue, mid + 1, right)
      else if searchValue < arr[mid] then Find(arr, searchValue, left, mid - 1)
      else mid
  }

  /** `binarySearch(arr, searchValue)`. */
  function Search(arr: seq<int>, searchValue: int): (r: int)
    ensures -1 <= r < |arr|
    ensures r >= 0 ==> arr[r] == searchValue
    ensures |arr| == 0 ==> r == -1
    ensures Sorted(arr) ==> (r >= 0 <==> searchValue in arr)
  {
    Find(arr, searchValue, 0, |arr| - 1)
  }

  /** The sample table [1, 5, 9, 20, 77]: 9 and 77 are found at their indices, 4 is not. */
  lemma SearchSampleTable()
    ensures Search([1, 5, 9, 20, 77], 9) == 2
    ensures Search([1, 5, 9, 20, 77], 77) == 4
    ensures Search([1, 5, 9, 20, 77], 4) == -1
    ensures forall v :: Search([], v) == -1
  {
    assert Sorted([1, 5, 9, 20, 77]);
  }
}
