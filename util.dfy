/** lib/util.js: `addTo` appends the elements of one list onto another. */
module Util {

  /** Appends `toAdd` onto `list` one element at a time. The source pushes
      onto `list` in place; here the extended list is returned. */
  method AddTo<T>(list: seq<T>, toAdd: seq<T>) returns (r: seq<T>)
    ensures r == list + toAdd
    ensures |r| == |list| + |toAdd|
  {
    r := list;
    for i := 0 to |toAdd|
      invariant r == list + toAdd[..i]
    {
      r := r + [toAdd[i]];
    }
    assert toAdd[..|toAdd|] == toAdd;
  }
}
