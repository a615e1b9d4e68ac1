// The componentwise comparison operators on BGRA pixels. Despite their names
// both are non-strict: `<` holds when no channel of the left pixel exceeds the
// right one, `>` when no channel of the left pixel is below the right one.
module Pixels {
  import opened KinectTypes

  ghost predicate NoChannelAbove(l: Vec4b, r: Vec4b)
  {
    forall i :: 0 <= i < 4 ==> l[i] <= r[i]
  }

  /** operator< : scans the four channels and fails at the first one where `l` is larger. */
  method Less(l: Vec4b, r: Vec4b) returns (b: bool)
    ensures b <==> NoChannelAbove(l, r)
  {
    for i := 0 to 4
      invariant forall k :: 0 <= k < i ==> l[k] <= r[k]
    {
      if l[i] > r[i] {
        return false;
      }
    }
    return true;
  }

  /** operator> : scans the four channels and fails at the first one where `l` is smaller. */
  method Greater(l: Vec4b, r: Vec4b) returns (b: bool)
    ensures b <==> NoChannelAbove(r, l)
  {
    for i := 0 to 4
      invariant forall k :: 0 <= k < i ==> r[k] <= l[k]
    {
      if l[i] < r[i] {
        return false;
      }
    }
    return true;
  }

  /** Both operators hold of a pair exactly when the pixels are equal; in particular each is reflexive. */
  lemma BothHoldIffEqual(l: Vec4b, r: Vec4b)
    ensures NoChannelAbove(l, r) && NoChannelAbove(r, l) <==> l == r
  {
    if NoChannelAbove(l, r) && NoChannelAbove(r, l) {
      assert forall i :: 0 <= i < 4 ==> l[i] == r[i];
    }
  }

  /** The componentwise order is transitive. */
  lemma NoChannelAboveTransitive(a: Vec4b, b: Vec4b, c: Vec4b)
    requires NoChannelAbove(a, b) && NoChannelAbove(b, c)
    ensures NoChannelAbove(a, c)
  {
  }
}
