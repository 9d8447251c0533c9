/**
 * Small facts about concatenation and slicing, stated once for any element type so that the
 * proofs that need them do not re-derive sequence equalities in a large context.
 */
module Seqs {

  lemma {:induction false} EmptyConcat<T>(b: seq<T>)
    ensures [] + b == b
  {
  }

  lemma {:induction false} ConsSplit<T>(a: seq<T>, b: seq<T>)
    requires a != []
    ensures [a[0]] + a[1..] == a && [a[0]] + (a[1..] + b) == a + b
  {
    assert [a[0]] + a[1..] == a;
    assert [a[0]] + (a[1..] + b) == a + b;
  }

  /** The two halves of a concatenation are its prefix and suffix. */
  lemma {:induction false} ConcatHalves<T>(a: seq<T>, b: seq<T>)
    ensures (a + b)[..|a|] == a && (a + b)[|a|..] == b
  {
  }

  lemma {:induction false} SeqAssoc<T>(p: seq<T>, q: seq<T>, r: seq<T>)
    ensures p + (q + r) == (p + q) + r
  {
  }

  /** A prefix of `a` followed by a prefix of `b`: where each element comes from. */
  lemma {:induction false} PrefixesJoined<T>(a: seq<T>, b: seq<T>, na: nat, nb: nat)
    requires na <= |a| && nb <= |b|
    ensures var r := a[..na] + b[..nb];
            && |r| == na + nb
            && (forall k :: 0 <= k < na ==> r[k] == a[k])
            && (forall k :: na <= k < |r| ==> r[k] == b[k - na])
            && (forall x :: x in r ==> x in a || x in b)
  {
    var r := a[..na] + b[..nb];
    forall x | x in r ensures x in a || x in b {
      var k :| 0 <= k < |r| && r[k] == x;
      if k < na {
        assert r[k] == a[k];
      } else {
        assert r[k] == b[k - na];
      }
    }
  }

  lemma {:induction false} SplitInThree<T>(s: seq<T>, i: int, j: int)
    requires 0 <= i <= j <= |s|
    ensures s == s[..i] + s[i..j] + s[j..]
  {
    assert s[..i] + s[i..j] == s[..j];
    assert s[..j] + s[j..] == s;
  }

  lemma {:induction false} SliceOfSlice<T>(s: seq<T>, a: int, b: int, i: int, j: int)
    requires 0 <= a <= b <= |s| && 0 <= i <= j <= b - a
    ensures s[a..b][i..j] == s[a + i..a + j]
  {
    var t := s[a..b][i..j];
    assert |t| == j - i;
    assert forall k :: 0 <= k < j - i ==> t[k] == s[a + i + k];
  }

  /** The pieces of a suffix are slices of the whole. */
  lemma {:induction false} SliceOfSuffix<T>(s: seq<T>, i: nat, n: nat)
    requires i + n <= |s|
    ensures s[i..][..n] == s[i..i + n] && s[i..][n..] == s[i + n..]
  {
  }
}
