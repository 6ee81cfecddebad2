/** Choosing among options by a numeric key the way the host language's
    `min(options, key=...)` does: the first option with the least key wins. */
module Selection {

  /** Index of the first element of `s` whose key is least. */
  function FirstMinimum<T>(s: seq<T>, key: T -> int): (i: nat)
    requires |s| > 0
    ensures i < |s|
    ensures forall j :: 0 <= j < |s| ==> key(s[i]) <= key(s[j])
    ensures forall j :: 0 <= j < i ==> key(s[j]) > key(s[i])
    decreases |s|
  {
    if |s| == 1 then 0
    else
      var k := 1 + FirstMinimum(s[1..], key);
      if key(s[0]) <= key(s[k]) then 0 else k
  }
}
