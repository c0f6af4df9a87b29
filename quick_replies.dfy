/**
  The quick-reply suggester: a fixed pool of nine canned prompts, and the
  draw that copies the pool, shuffles the copy with Fisher-Yates and keeps the
  first three entries.
*/
module QuickReplies {

  /** The canned prompts, in the page's order. */
  const QuickRepliesList: seq<string> := [
    "How do tax brackets work?",
    "Tell me about deductions",
    "What is a W-2 form?",
    "How do I file my taxes?",
    "Tell me about tax credits",
    "What is a tax refund?",
    "How does withholding work?",
    "What are the tax rates for 2025?",
    "What is a tax audit?"
  ]

  /** How many suggestions one draw offers. */
  const DrawSize := 3

  predicate Distinct<T(==)>(s: seq<T>)
  {
    forall i, j :: 0 <= i < j < |s| ==> s[i] != s[j]
  }

  /** `p` holds the same entries as `s`, each as often. */
  predicate IsPermutation<T(==)>(p: seq<T>, s: seq<T>)
  {
    multiset(p) == multiset(s)
  }

  function Min(a: int, b: int): int
  {
    if a < b then a else b
  }

  /** `getRandomQuickReplies`: shuffle a copy of `arr` with Fisher-Yates, where
      each swap partner `j` is an arbitrary index in `[0, i]` (the page draws
      it with `Math.random`), and return the first three entries of the copy.
      `arr` itself is left alone (the method may not modify it). */
  method RandomQuickReplies(arr: array<string>) returns (r: seq<string>)
    ensures |r| == Min(DrawSize, arr.Length)
    ensures multiset(r) <= multiset(arr[..])
    ensures exists p :: IsPermutation(p, arr[..]) && r <= p
  {
    var shuffled := new string[arr.Length](k requires 0 <= k < arr.Length reads arr => arr[k]);
    assert shuffled[..] == arr[..];
    var i := shuffled.Length - 1;
    while i > 0
      invariant -1 <= i < shuffled.Length
      invariant multiset(shuffled[..]) == multiset(arr[..])
    {
      var j :| 0 <= j <= i;
      shuffled[i], shuffled[j] := shuffled[j], shuffled[i];
      i := i - 1;
    }
    var n := Min(DrawSize, shuffled.Length);
    r := shuffled[..n];
    assert shuffled[..] == r + shuffled[n..];
    assert IsPermutation(shuffled[..], arr[..]);
  }

  /** The prompts in the pool are pairwise different. */
  lemma PoolDistinct()
    ensures |QuickRepliesList| == 9 && Distinct(QuickRepliesList)
  {
  }

  /** No entry of a distinct sequence occurs twice. */
  lemma {:induction false} DistinctOccursOnce<T>(s: seq<T>)
    requires Distinct(s)
    ensures forall x :: multiset(s)[x] <= 1
  {
    if s != [] {
      assert Distinct(s[1..]);
      DistinctOccursOnce(s[1..]);
      assert s == [s[0]] + s[1..];
      assert s[0] !in s[1..];
    }
  }

  /** A sequence in which no entry occurs twice is distinct. */
  lemma {:induction false} OccursOnceDistinct<T>(r: seq<T>)
    requires forall x :: multiset(r)[x] <= 1
    ensures Distinct(r)
  {
    if r != [] {
      assert r == [r[0]] + r[1..];
      assert multiset(r) == multiset{r[0]} + multiset(r[1..]);
      forall x ensures multiset(r[1..])[x] <= 1 {
        assert multiset(r[1..])[x] <= multiset(r)[x];
      }
      OccursOnceDistinct(r[1..]);
      assert multiset(r)[r[0]] == 1 + multiset(r[1..])[r[0]];
      assert r[0] !in r[1..];
      forall i, j | 0 <= i < j < |r| ensures r[i] != r[j] {
        if i == 0 {
          assert r[j] == r[1..][j - 1];
        } else {
          assert r[i] == r[1..][i - 1] && r[j] == r[1..][j - 1];
        }
      }
    }
  }

  /** What a draw from a pool of distinct prompts gives: distinct prompts,
      each one from the pool. */
  lemma DrawFromDistinctPool<T>(r: seq<T>, pool: seq<T>)
    requires multiset(r) <= multiset(pool) && Distinct(pool)
    ensures Distinct(r)
    ensures forall x :: x in r ==> x in pool
  {
    DistinctOccursOnce(pool);
    forall x ensures multiset(r)[x] <= 1 {
      assert multiset(r)[x] <= multiset(pool)[x];
    }
    OccursOnceDistinct(r);
    forall x | x in r ensures x in pool {
      assert multiset(r)[x] <= multiset(pool)[x];
    }
  }

  /** Drawing from the page's pool gives three different prompts of the pool. */
  lemma DrawFromPool(r: seq<string>)
    requires multiset(r) <= multiset(QuickRepliesList) && |r| == DrawSize
    ensures Distinct(r) && forall x :: x in r ==> x in QuickRepliesList
  {
    PoolDistinct();
    DrawFromDistinctPool(r, QuickRepliesList);
  }
}
