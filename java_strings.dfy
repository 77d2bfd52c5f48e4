/**
 * `String.compareTo` over sequences of Unicode scalar values: the difference
 * of the first pair of differing characters, or else the difference of the
 * lengths.  Java compares UTF-16 code units instead; the two agree on text
 * without supplementary characters.  The stack trace simplifier orders
 * frames by the `compareTo` of their string forms.
 */
module JavaStrings {

  function CompareTo(a: string, b: string): (r: int)
    ensures r == 0 <==> a == b
    ensures |a| == 0 && |b| == 0 ==> r == 0
  {
    if |a| == 0 || |b| == 0 then |a| - |b|
    else if a[0] != b[0] then a[0] as int - b[0] as int
    else
      assert a == [a[0]] + a[1..] && b == [b[0]] + b[1..];
      CompareTo(a[1..], b[1..])
  }

  /** `a.compareTo(b) < 0` */
  predicate Less(a: string, b: string) {
    CompareTo(a, b) < 0
  }

  lemma {:induction false} CompareToAntisymmetric(a: string, b: string)
    ensures CompareTo(a, b) == -CompareTo(b, a)
  {
    if |a| > 0 && |b| > 0 && a[0] == b[0] {
      CompareToAntisymmetric(a[1..], b[1..]);
    }
  }

  /** The order is strict and total: exactly one of a < b, a == b, b < a holds. */
  lemma LessTrichotomy(a: string, b: string)
    ensures Less(a, b) || a == b || Less(b, a)
    ensures !(Less(a, b) && Less(b, a))
    ensures !Less(a, a)
  {
    CompareToAntisymmetric(a, b);
  }

  lemma {:induction false} LessTransitive(a: string, b: string, c: string)
    requires Less(a, b) && Less(b, c)
    ensures Less(a, c)
  {
    if |a| > 0 && |b| > 0 && |c| > 0 && a[0] == b[0] && b[0] == c[0] {
      LessTransitive(a[1..], b[1..], c[1..]);
    }
  }
}
