/**
  `String.equalsIgnoreCase` restricted to ASCII letters.  Java compares the
  two strings character by character and accepts a pair of characters when
  they are equal, when their upper-case forms are equal, or when the
  lower-case forms of their upper-case forms are equal; the strings must also
  have the same length.  Only 'a'..'z' and 'A'..'Z' change case here.
 */
module CaseFold {

  function ToUpper(c: char): char {
    if 'a' <= c <= 'z' then (c as int - 32) as char else c
  }

  function ToLower(c: char): char {
    if 'A' <= c <= 'Z' then (c as int + 32) as char else c
  }

  /** The per-character test of a case-insensitive region match. */
  predicate CharEqualsIgnoreCase(c1: char, c2: char) {
    c1 == c2 || ToUpper(c1) == ToUpper(c2) || ToLower(ToUpper(c1)) == ToLower(ToUpper(c2))
  }

  predicate EqualsIgnoreCase(a: string, b: string) {
    |a| == |b| && forall i :: 0 <= i < |a| ==> CharEqualsIgnoreCase(a[i], b[i])
  }

  /** With ASCII case mapping the three-way character test is equality of upper-case forms. */
  lemma CharEqualsIgnoreCaseIsUpperEquality(c1: char, c2: char)
    ensures CharEqualsIgnoreCase(c1, c2) <==> ToUpper(c1) == ToUpper(c2)
  {
    var u1, u2 := ToUpper(c1), ToUpper(c2);
    if ToLower(u1) == ToLower(u2) {
      assert !('a' <= u1 <= 'z') && !('a' <= u2 <= 'z');
      if 'A' <= u1 <= 'Z' {
        assert 'a' <= ToLower(u2) <= 'z';
        assert 'A' <= u2 <= 'Z';
      } else {
        assert ToLower(u1) == u1;
        assert !('A' <= u2 <= 'Z');
      }
    }
  }

  lemma EqualsIgnoreCaseSymmetric(a: string, b: string)
    requires EqualsIgnoreCase(a, b)
    ensures EqualsIgnoreCase(b, a)
  {
    forall i | 0 <= i < |b| ensures CharEqualsIgnoreCase(b[i], a[i]) {
      CharEqualsIgnoreCaseIsUpperEquality(a[i], b[i]);
      CharEqualsIgnoreCaseIsUpperEquality(b[i], a[i]);
    }
  }

  lemma EqualsIgnoreCaseTransitive(a: string, b: string, c: string)
    requires EqualsIgnoreCase(a, b) && EqualsIgnoreCase(b, c)
    ensures EqualsIgnoreCase(a, c)
  {
    forall i | 0 <= i < |a| ensures CharEqualsIgnoreCase(a[i], c[i]) {
      CharEqualsIgnoreCaseIsUpperEquality(a[i], b[i]);
      CharEqualsIgnoreCaseIsUpperEquality(b[i], c[i]);
      CharEqualsIgnoreCaseIsUpperEquality(a[i], c[i]);
    }
  }
}
