/** The part of Go's `strings` package the client relies on: `TrimRight`
    with a cutset, which removes every trailing character that occurs in the
    cutset (not a suffix string). */
module GoStrings {

  /** True iff every character of `s` occurs in `cutset`. */
  predicate AllIn(s: string, cutset: string) {
    forall i :: 0 <= i < |s| ==> s[i] in cutset
  }

  /** True iff `s` does not end in a character of `cutset`. */
  predicate EndsOutside(s: string, cutset: string) {
    |s| == 0 || s[|s| - 1] !in cutset
  }

  /** `strings.TrimRight(s, cutset)`: the result is the longest prefix of `s`
      that does not end in a cutset character; what was removed consists of
      cutset characters only. These three facts determine the result. */
  function TrimRight(s: string, cutset: string): (r: string)
    ensures |r| <= |s| && r == s[..|r|]
    ensures EndsOutside(r, cutset)
    ensures AllIn(s[|r|..], cutset)
    decreases |s|
  {
    if |s| > 0 && s[|s| - 1] in cutset then
      var r := TrimRight(s[..|s| - 1], cutset);
      assert s[..|s| - 1][..|r|] == s[..|r|];
      assert forall i :: |r| <= i < |s| - 1 ==> s[i] == s[..|s| - 1][i];
      r
    else
      s
  }

  /** Trimming a string made of a cutset-free end followed by cutset characters
      gives back exactly that end: the characterisation in TrimRight's contract
      has one solution. */
  lemma {:induction false} TrimRightOfPadded(t: string, pad: string, cutset: string)
    requires EndsOutside(t, cutset)
    requires AllIn(pad, cutset)
    ensures TrimRight(t + pad, cutset) == t
    decreases |pad|
  {
    if |pad| == 0 {
      assert t + pad == t;
    } else {
      var s := t + pad;
      assert s[|s| - 1] == pad[|pad| - 1];
      assert s[..|s| - 1] == t + pad[..|pad| - 1];
      TrimRightOfPadded(t, pad[..|pad| - 1], cutset);
    }
  }
}
