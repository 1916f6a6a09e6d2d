/** Character-wise lowercasing, with the character map left open. */
module Text {
  function ToLower(f: char -> char, s: string): string {
    if s == "" then "" else [f(s[0])] + ToLower(f, s[1..])
  }

  /** Every character is mapped, and none is added or lost. */
  lemma {:induction false} LowerAt(f: char -> char, s: string)
    ensures |ToLower(f, s)| == |s| && forall i :: 0 <= i < |s| ==> ToLower(f, s)[i] == f(s[i])
  {
    if s != "" {
      LowerAt(f, s[1..]);
    }
  }

  lemma {:induction false} LowerConcat(f: char -> char, a: string, b: string)
    ensures ToLower(f, a + b) == ToLower(f, a) + ToLower(f, b)
  {
    if a == "" {
      assert a + b == b;
    } else {
      assert (a + b)[1..] == a[1..] + b;
      LowerConcat(f, a[1..], b);
    }
  }
}
