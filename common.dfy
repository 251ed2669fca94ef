/** Small shared vocabulary: optional values, results, and list removal. */
module Common {

  datatype Option<+T> = None | Some(value: T)

  datatype Result<+R, +E> = Success(value: R) | Failure(error: E)

  /** Index of the first occurrence of `x` in `s`. */
  function FirstIndex<T(==)>(s: seq<T>, x: T): (i: nat)
    requires x in s
    ensures i < |s| && s[i] == x && x !in s[..i]
  {
    if s[0] == x then 0
    else
      var j := FirstIndex(s[1..], x);
      assert s[1..][..j] == s[1..j + 1];
      1 + j
  }

  /**
   * Python's `list.remove(x)`: drop the first element equal to `x`. Python
   * raises `ValueError` when `x` is absent; every removal in the program takes
   * out an element it has just read from the list, so that case is excluded.
   */
  function RemoveFirst<T(==)>(s: seq<T>, x: T): (r: seq<T>)
    requires x in s
    ensures |r| == |s| - 1
  {
    var i := FirstIndex(s, x);
    assert s == s[..i] + [x] + s[i + 1..];
    s[..i] + s[i + 1..]
  }

  /** Removing `x` from `a + [x] + b` removes exactly that occurrence when `a` holds no `x`. */
  lemma RemoveFirstSplit<T>(a: seq<T>, x: T, b: seq<T>)
    requires x !in a
    ensures RemoveFirst(a + [x] + b, x) == a + b
  {
    var s := a + [x] + b;
    assert s[|a|] == x;
    assert FirstIndex(s, x) == |a|;
    assert s[..|a|] == a && s[|a| + 1..] == b;
  }
}
