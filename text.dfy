/**
 * String helpers shared by the index model.
 *
 * Case-insensitive comparison (StringComparison.CurrentCultureIgnoreCase and
 * StringComparison.OrdinalIgnoreCase) is modelled as equality after an ASCII
 * upper-case fold; ordering of names (the default string comparer used by
 * ThenBy) is modelled as ordinal lexicographic order on characters.
 */
module Text {
  import opened Wrappers

  function UpperAscii(c: char): char {
    if 'a' <= c <= 'z' then (c as int - 32) as char else c
  }

  /** The case fold: every ASCII lower-case letter is replaced by its upper-case form. */
  function Fold(s: string): string {
    seq(|s|, i requires 0 <= i < |s| => UpperAscii(s[i]))
  }

  /**
   * string.Equals(a, b, ...IgnoreCase) on possibly-null strings: null equals
   * null, null differs from every string, two strings are compared after folding.
   */
  predicate EqualsIgnoreCase(a: Option<string>, b: Option<string>) {
    match (a, b)
    case (None, None) => true
    case (Some(x), Some(y)) => Fold(x) == Fold(y)
    case _ => false
  }

  lemma EqualsIgnoreCaseNull(a: Option<string>, b: Option<string>)
    ensures a.None? ==> (EqualsIgnoreCase(a, b) <==> b.None?)
    ensures b.None? ==> (EqualsIgnoreCase(a, b) <==> a.None?)
  {
  }

  lemma EqualsIgnoreCaseEquivalence(a: Option<string>, b: Option<string>, c: Option<string>)
    ensures EqualsIgnoreCase(a, a)
    ensures EqualsIgnoreCase(a, b) == EqualsIgnoreCase(b, a)
    ensures EqualsIgnoreCase(a, b) && EqualsIgnoreCase(b, c) ==> EqualsIgnoreCase(a, c)
  {
  }

  /** Two strings that differ only in the case of ASCII letters compare equal. */
  lemma {:induction false} EqualsIgnoreCaseExample()
    ensures EqualsIgnoreCase(Some("nonclustered"), Some("NONCLUSTERED"))
    ensures !EqualsIgnoreCase(Some("PRIMARY"), Some("NONCLUSTERED"))
  {
    assert Fold("nonclustered") == "NONCLUSTERED";
    assert Fold("PRIMARY")[0] == 'P' != 'N';
  }

  /** Ordinal (character-by-character) lexicographic order: a <= b. */
  predicate OrdinalLe(a: string, b: string)
    decreases |a|
  {
    if |a| == 0 then true
    else if |b| == 0 then false
    else if a[0] != b[0] then a[0] < b[0]
    else OrdinalLe(a[1..], b[1..])
  }

  lemma {:induction false} OrdinalLeTotal(a: string, b: string)
    ensures OrdinalLe(a, b) || OrdinalLe(b, a)
    decreases |a|
  {
    if |a| > 0 && |b| > 0 && a[0] == b[0] {
      OrdinalLeTotal(a[1..], b[1..]);
    }
  }

  lemma {:induction false} OrdinalLeAntisymmetric(a: string, b: string)
    requires OrdinalLe(a, b) && OrdinalLe(b, a)
    ensures a == b
    decreases |a|
  {
    if |a| > 0 && |b| > 0 {
      OrdinalLeAntisymmetric(a[1..], b[1..]);
      assert a == [a[0]] + a[1..];
      assert b == [b[0]] + b[1..];
    }
  }

  lemma {:induction false} OrdinalLeTransitive(a: string, b: string, c: string)
    requires OrdinalLe(a, b) && OrdinalLe(b, c)
    ensures OrdinalLe(a, c)
    decreases |a|
  {
    if |a| > 0 && |b| > 0 && |c| > 0 && a[0] == b[0] && b[0] == c[0] {
      OrdinalLeTransitive(a[1..], b[1..], c[1..]);
    }
  }
}
