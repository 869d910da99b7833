/** Order and repetition facts about sequences, shared by the views. */
module Sequences {

  /** `f` lists, in increasing order, the positions of `s` that make up `r`. */
  ghost predicate IsEmbedding<T>(r: seq<T>, s: seq<T>, f: seq<nat>) {
    && |f| == |r|
    && (forall k :: 0 <= k < |f| ==> f[k] < |s| && r[k] == s[f[k]])
    && (forall k, l :: 0 <= k < l < |f| ==> f[k] < f[l])
  }

  /** `r` is `s` with some elements dropped and the rest in their original order. */
  ghost predicate IsSubsequence<T>(r: seq<T>, s: seq<T>) {
    exists f :: IsEmbedding(r, s, f)
  }

  ghost predicate Distinct<T>(s: seq<T>) {
    forall i, j :: 0 <= i < j < |s| ==> s[i] != s[j]
  }

  lemma EmptyIsSubsequence<T>(s: seq<T>)
    ensures IsSubsequence([], s)
  {
    assert IsEmbedding([], s, []);
  }

  lemma SubsequenceOfLonger<T>(r: seq<T>, s: seq<T>, x: T)
    requires IsSubsequence(r, s)
    ensures IsSubsequence(r, s + [x])
  {
    var f: seq<nat> :| IsEmbedding(r, s, f);
    assert IsEmbedding(r, s + [x], f);
  }

  lemma SubsequenceBothLonger<T>(r: seq<T>, s: seq<T>, x: T)
    requires IsSubsequence(r, s)
    ensures IsSubsequence(r + [x], s + [x])
  {
    var f: seq<nat> :| IsEmbedding(r, s, f);
    var g: seq<nat> := f + [|s|];
    assert IsEmbedding(r + [x], s + [x], g);
  }

  lemma PrefixGrows<T>(s: seq<T>, i: int)
    requires 0 <= i < |s|
    ensures s[..i + 1] == s[..i] + [s[i]]
  {
  }

  lemma LastSplit<T>(s: seq<T>)
    requires s != []
    ensures s == s[..|s| - 1] + [s[|s| - 1]]
  {
  }

  lemma {:induction false} DistinctCountAtMostOne<T>(s: seq<T>, x: T)
    requires Distinct(s)
    ensures multiset(s)[x] <= 1
    decreases |s|
  {
    if s != [] {
      assert s == [s[0]] + s[1..];
      assert Distinct(s[1..]) by {
        forall i, j | 0 <= i < j < |s[1..]| ensures s[1..][i] != s[1..][j] {
          assert s[1..][i] == s[i + 1] && s[1..][j] == s[j + 1];
        }
      }
      DistinctCountAtMostOne(s[1..], x);
      if s[0] == x {
        assert x !in s[1..] by {
          forall k | 0 <= k < |s[1..]| ensures s[1..][k] != x {
            assert s[1..][k] == s[k + 1];
          }
        }
      }
    }
  }

  lemma RepeatedCountsTwice<T>(t: seq<T>, i: int, j: int)
    requires 0 <= i < j < |t| && t[i] == t[j]
    ensures multiset(t)[t[i]] >= 2
  {
    assert t == t[..i] + [t[i]] + t[i + 1..j] + [t[j]] + t[j + 1..];
  }

  /** A rearrangement of a sequence without repeats has no repeats. */
  lemma DistinctPermutation<T>(s: seq<T>, t: seq<T>)
    requires Distinct(s) && multiset(s) == multiset(t)
    ensures Distinct(t)
  {
    forall i, j | 0 <= i < j < |t| ensures t[i] != t[j] {
      if t[i] == t[j] {
        RepeatedCountsTwice(t, i, j);
        DistinctCountAtMostOne(s, t[i]);
      }
    }
  }
}
