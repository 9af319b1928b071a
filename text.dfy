/** Substring occurrence, the relation in which the generated CSS is inspected. */
module Text {

  /** `needle` sits in `hay` starting at index `i`. */
  predicate InfixAt(needle: string, hay: string, i: nat) {
    i + |needle| <= |hay| && hay[i..i + |needle|] == needle
  }

  /** `needle` is a contiguous substring of `hay`. */
  predicate Occurs(needle: string, hay: string) {
    exists i: nat :: i <= |hay| && InfixAt(needle, hay, i)
  }

  lemma OccursAt(pre: string, needle: string, post: string)
    ensures Occurs(needle, pre + needle + post)
  {
    var hay := pre + needle + post;
    assert hay[|pre|..|pre| + |needle|] == needle;
    assert InfixAt(needle, hay, |pre|);
  }

  lemma OccursTrans(a: string, b: string, c: string)
    requires Occurs(a, b) && Occurs(b, c)
    ensures Occurs(a, c)
  {
    var i: nat :| i <= |b| && InfixAt(a, b, i);
    var j: nat :| j <= |c| && InfixAt(b, c, j);
    assert j + |b| <= |c| && c[j..j + |b|] == b;
    forall k | 0 <= k < |a|
      ensures c[j + i..j + i + |a|][k] == a[k]
    {
      assert c[j + i + k] == c[j..j + |b|][i + k];
      assert b[i..i + |a|][k] == b[i + k];
    }
    assert c[j + i..j + i + |a|] == a;
    assert InfixAt(a, c, j + i);
  }

  /** An occurrence survives putting text around the haystack. */
  lemma OccursWithin(needle: string, pre: string, hay: string, post: string)
    requires Occurs(needle, hay)
    ensures Occurs(needle, pre + hay + post)
  {
    OccursAt(pre, hay, post);
    OccursTrans(needle, hay, pre + hay + post);
  }

  lemma OccursBefore(needle: string, hay: string, post: string)
    requires Occurs(needle, hay)
    ensures Occurs(needle, hay + post)
  {
    OccursWithin(needle, "", hay, post);
    assert "" + hay + post == hay + post;
  }

  lemma OccursAfter(needle: string, pre: string, hay: string)
    requires Occurs(needle, hay)
    ensures Occurs(needle, pre + hay)
  {
    OccursWithin(needle, pre, hay, "");
    assert pre + hay + "" == pre + hay;
  }

  /** A prefix of an occurring string occurs too. */
  lemma OccursPrefix(a: string, b: string, hay: string)
    requires Occurs(a + b, hay)
    ensures Occurs(a, hay)
  {
    var i: nat :| i <= |hay| && InfixAt(a + b, hay, i);
    assert hay[i..i + |a + b|] == a + b;
    assert hay[i..i + |a|] == (a + b)[..|a|];
    assert (a + b)[..|a|] == a;
    assert InfixAt(a, hay, i);
  }

  // ---------------------------------------------------------------------
  // Proof helper

  /** Regrouping a concatenation, for proofs where the solver does not find it alone. */
  lemma AppendAssoc(a: string, b: string, c: string)
    ensures a + (b + c) == a + b + c
  {
  }
}
