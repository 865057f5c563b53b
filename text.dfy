/** Upper-casing of strings, as used to normalise condition flags in cache keys.
    Only the ASCII letters are mapped; every other character is left as it is. */
module Text {

  /** The upper-case form of one character (ASCII letters only). */
  function Upper(c: char): char
  {
    if 'a' <= c <= 'z' then (c as int - 32) as char else c
  }

  /** The upper-case form of a string, character by character. */
  function UpperCase(s: string): (r: string)
    ensures |r| == |s|
  {
    if s == [] then [] else [Upper(s[0])] + UpperCase(s[1..])
  }

  /** Two strings that differ at most in the case of their letters. */
  predicate SameIgnoringCase(a: string, b: string)
  {
    |a| == |b| && forall i :: 0 <= i < |a| ==> Upper(a[i]) == Upper(b[i])
  }

  lemma {:induction false} UpperCaseAt(s: string, i: nat)
    requires i < |s|
    ensures UpperCase(s)[i] == Upper(s[i])
  {
    if i > 0 {
      UpperCaseAt(s[1..], i - 1);
    }
  }

  /** Upper-casing identifies exactly the strings that differ only in letter case. */
  lemma UpperCaseEqualIff(a: string, b: string)
    ensures UpperCase(a) == UpperCase(b) <==> SameIgnoringCase(a, b)
  {
    if UpperCase(a) == UpperCase(b) {
      forall i | 0 <= i < |a| ensures Upper(a[i]) == Upper(b[i]) {
        UpperCaseAt(a, i);
        UpperCaseAt(b, i);
      }
    }
    if SameIgnoringCase(a, b) {
      forall i | 0 <= i < |a| ensures UpperCase(a)[i] == UpperCase(b)[i] {
        UpperCaseAt(a, i);
        UpperCaseAt(b, i);
      }
    }
  }

  /** Upper-casing neither removes nor introduces the character `c` unless it is a letter. */
  lemma UpperCaseKeeps(s: string, c: char)
    requires !('a' <= c <= 'z') && !('A' <= c <= 'Z')
    ensures c in UpperCase(s) <==> c in s
  {
    if c in s {
      var i :| 0 <= i < |s| && s[i] == c;
      UpperCaseAt(s, i);
    }
    if c in UpperCase(s) {
      var i :| 0 <= i < |s| && UpperCase(s)[i] == c;
      UpperCaseAt(s, i);
    }
  }
}
