/**
 * JavaScript's relational operators on two strings: lexicographic comparison
 * character by character, where a proper prefix is smaller than the longer
 * string. The lemmas show it is a strict total order, which is what makes
 * the supplier comparator a consistent one.
 */
module StringOrder {

  /**
   * `a < b` on strings, compared character by character: a proper prefix is
   * smaller than the longer string, and the empty string is below every
   * other one. `LessIsLexicographic` gives the first-difference reading.
   */
  predicate Less(a: string, b: string): (r: bool)
    ensures |a| < |b| && a == b[..|a|] ==> r
    ensures |b| == 0 ==> !r
    decreases |a|
  {
    if |a| == 0 then |b| > 0
    else if |b| == 0 then false
    else if a[0] != b[0] then a[0] < b[0]
    else
      assert |a| < |b| && a == b[..|a|] ==> a[1..] == b[1..][..|a| - 1];
      Less(a[1..], b[1..])
  }

  /** Some position `k` where `a` and `b` first differ has the smaller character in `a`. */
  predicate FirstDifferenceLess(a: string, b: string) {
    exists k :: 0 <= k < |a| && k < |b| && a[..k] == b[..k] && a[k] < b[k]
  }

  /** When the first characters differ, they decide, and neither string is a prefix of the other. */
  lemma FirstDifferenceAtHead(a: string, b: string)
    requires |a| > 0 && |b| > 0 && a[0] != b[0]
    ensures FirstDifferenceLess(a, b) <==> a[0] < b[0]
    ensures !(|a| < |b| && a == b[..|a|])
  {
  }

  /** When the first characters agree, both ways of being smaller carry over to the tails. */
  lemma FirstDifferenceInTail(a: string, b: string)
    requires |a| > 0 && |b| > 0 && a[0] == b[0]
    ensures FirstDifferenceLess(a, b) <==> FirstDifferenceLess(a[1..], b[1..])
    ensures (|a| < |b| && a == b[..|a|]) <==> (|a[1..]| < |b[1..]| && a[1..] == b[1..][..|a[1..]|])
  {
    FirstDifferenceShifts(a, b);
    ProperPrefixShifts(a, b);
  }

  /** With equal first characters, the first difference of `a` and `b` is one past that of their tails. */
  lemma FirstDifferenceShifts(a: string, b: string)
    requires |a| > 0 && |b| > 0 && a[0] == b[0]
    ensures FirstDifferenceLess(a, b) <==> FirstDifferenceLess(a[1..], b[1..])
  {
    if FirstDifferenceLess(a, b) {
      var k :| 0 <= k < |a| && k < |b| && a[..k] == b[..k] && a[k] < b[k];
      DifferenceInTail(a, b, k);
    }
    if FirstDifferenceLess(a[1..], b[1..]) {
      var k :| 0 <= k < |a[1..]| && k < |b[1..]| && a[1..][..k] == b[1..][..k] && a[1..][k] < b[1..][k];
      DifferenceAfterHead(a, b, k);
    }
  }

  /** A first difference at `k` in strings with equal heads is one at `k - 1` in their tails. */
  lemma DifferenceInTail(a: string, b: string, k: int)
    requires |a| > 0 && |b| > 0 && a[0] == b[0]
    requires 0 <= k < |a| && k < |b| && a[..k] == b[..k] && a[k] < b[k]
    ensures 0 < k && a[1..][..k - 1] == b[1..][..k - 1] && a[1..][k - 1] < b[1..][k - 1]
  {
    assert a[1..][..k - 1] == a[..k][1..] && b[1..][..k - 1] == b[..k][1..];
  }

  /** A first difference at `k` in the tails is one at `k + 1` in strings with equal heads. */
  lemma DifferenceAfterHead(a: string, b: string, k: int)
    requires |a| > 0 && |b| > 0 && a[0] == b[0]
    requires 0 <= k < |a| - 1 && k < |b| - 1 && a[1..][..k] == b[1..][..k] && a[1..][k] < b[1..][k]
    ensures a[..k + 1] == b[..k + 1] && a[k + 1] < b[k + 1]
  {
    assert a[..k + 1] == [a[0]] + a[1..][..k] && b[..k + 1] == [b[0]] + b[1..][..k];
  }

  /** With equal first characters, `a` is a proper prefix of `b` exactly when its tail is one of `b`'s tail. */
  lemma ProperPrefixShifts(a: string, b: string)
    requires |a| > 0 && |b| > 0 && a[0] == b[0]
    ensures (|a| < |b| && a == b[..|a|]) <==> (|a[1..]| < |b[1..]| && a[1..] == b[1..][..|a[1..]|])
  {
    assert a == [a[0]] + a[1..];
    if |a| <= |b| {
      assert b[..|a|] == [b[0]] + b[1..][..|a| - 1];
    }
  }

  /**
   * `a < b` holds exactly when `a` is a proper prefix of `b`, or `a` has the
   * smaller character at the first position where the two differ.
   */
  lemma {:induction false} LessIsLexicographic(a: string, b: string)
    ensures Less(a, b) <==> (|a| < |b| && a == b[..|a|]) || FirstDifferenceLess(a, b)
    decreases |a|
  {
    if |a| > 0 && |b| > 0 {
      if a[0] != b[0] {
        FirstDifferenceAtHead(a, b);
      } else {
        FirstDifferenceInTail(a, b);
        LessIsLexicographic(a[1..], b[1..]);
      }
    }
  }

  /** No string is less than itself. */
  lemma {:induction false} LessIrreflexive(a: string)
    ensures !Less(a, a)
    decreases |a|
  {
    if |a| > 0 {
      LessIrreflexive(a[1..]);
    }
  }

  /** `<` on strings is transitive. */
  lemma {:induction false} LessTransitive(a: string, b: string, c: string)
    requires Less(a, b) && Less(b, c)
    ensures Less(a, c)
    decreases |a|
  {
    if |a| > 0 && a[0] == b[0] && b[0] == c[0] {
      LessTransitive(a[1..], b[1..], c[1..]);
    }
  }

  /** Any two strings are equal or ordered one way or the other. */
  lemma {:induction false} LessTrichotomous(a: string, b: string)
    ensures a == b || Less(a, b) || Less(b, a)
    decreases |a|
  {
    if |a| > 0 && |b| > 0 && a[0] == b[0] {
      LessTrichotomous(a[1..], b[1..]);
      if a[1..] == b[1..] {
        assert a == [a[0]] + a[1..];
        assert b == [b[0]] + b[1..];
      }
    }
  }

  /** At most one of `a < b` and `b < a` holds. */
  lemma LessAsymmetric(a: string, b: string)
    ensures !(Less(a, b) && Less(b, a))
  {
    if Less(a, b) && Less(b, a) {
      LessTransitive(a, b, a);
      LessIrreflexive(a);
    }
  }
}
