/** The two string operations the scorer relies on: `str.upper()` and the
    code-point lexicographic order that `sorted` uses on `str` keys. */
module Text {

  /** Upper-case one character; only the ASCII letters `a`..`z` are mapped. */
  function UpperChar(c: char): char
  {
    if 'a' <= c <= 'z' then (c as int - 32) as char else c
  }

  /** `s.upper()`, restricted to the ASCII case mapping. */
  function Upper(s: string): (u: string)
    ensures |u| == |s|
    ensures forall i :: 0 <= i < |s| ==> u[i] == UpperChar(s[i])
  {
    seq(|s|, i requires 0 <= i < |s| => UpperChar(s[i]))
  }

  /** `s.upper() == "CALL"` holds exactly for the sixteen spellings of "call" in any mix of cases. */
  lemma UpperIsCall(s: string)
    ensures Upper(s) == "CALL" <==>
              |s| == 4 && s[0] in "cC" && s[1] in "aA" && s[2] in "lL" && s[3] in "lL"
  {
    if |s| == 4 && s[0] in "cC" && s[1] in "aA" && s[2] in "lL" && s[3] in "lL" {
      assert Upper(s) == "CALL";
    }
    if Upper(s) == "CALL" {
      assert Upper(s)[0] == 'C' && Upper(s)[1] == 'A' && Upper(s)[2] == 'L' && Upper(s)[3] == 'L';
    }
  }

  /** Python's `a < b` on strings: code points compared left to right, a proper prefix first. */
  predicate LexLess(a: string, b: string)
  {
    if |a| == 0 then |b| > 0
    else if |b| == 0 then false
    else if a[0] != b[0] then a[0] < b[0]
    else LexLess(a[1..], b[1..])
  }

  lemma {:induction false} LexLessIrreflexive(a: string)
    ensures !LexLess(a, a)
  {
    if |a| > 0 {
      LexLessIrreflexive(a[1..]);
    }
  }

  lemma {:induction false} LexLessTransitive(a: string, b: string, c: string)
    requires LexLess(a, b) && LexLess(b, c)
    ensures LexLess(a, c)
  {
    if |a| > 0 && a[0] == b[0] && b[0] == c[0] {
      LexLessTransitive(a[1..], b[1..], c[1..]);
    }
  }

  lemma {:induction false} LexLessTotal(a: string, b: string)
    requires a != b
    ensures LexLess(a, b) || LexLess(b, a)
  {
    if |a| > 0 && |b| > 0 && a[0] == b[0] {
      assert a == [a[0]] + a[1..] && b == [b[0]] + b[1..];
      LexLessTotal(a[1..], b[1..]);
    }
  }

  lemma LexLessAsymmetric(a: string, b: string)
    requires LexLess(a, b)
    ensures !LexLess(b, a)
  {
    if LexLess(b, a) {
      LexLessTransitive(a, b, a);
      LexLessIrreflexive(a);
    }
  }
}
