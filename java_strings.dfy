/** The `java.lang.String` operations that the parsers of the model rely on. */
module JavaStrings {

  /** `indexOf(c)`: the first index of `c`, or -1. */
  function IndexOf(s: string, c: char): (i: int)
    ensures -1 <= i < |s|
    ensures i == -1 <==> forall j :: 0 <= j < |s| ==> s[j] != c
    ensures i >= 0 ==> s[i] == c && forall j :: 0 <= j < i ==> s[j] != c
  {
    if s == [] then -1
    else if s[0] == c then 0
    else
      var j := IndexOf(s[1..], c);
      assert forall m :: 1 <= m < |s| ==> s[m] == s[1..][m - 1];
      if j < 0 then -1 else j + 1
  }

  /** The first `c` of `k + rest` is the one that starts `rest` when `k` has none. */
  lemma IndexOfAfter(k: string, rest: string, c: char)
    requires forall j :: 0 <= j < |k| ==> k[j] != c
    requires rest != [] && rest[0] == c
    ensures IndexOf(k + rest, c) == |k|
  {
    var s := k + rest;
    assert s[|k|] == c;
    assert forall j :: 0 <= j < |k| ==> s[j] == k[j];
  }
}
