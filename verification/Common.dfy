/** Vocabulary shared by every module of the model. */
module Common {

  datatype Option<+T> = None | Some(value: T)

  /** A database row key. Keys come from one counter and are never used twice. */
  type Id = nat

  /** Milliseconds on the service's clock. */
  type Time = int

  function Min(a: int, b: int): int { if a < b then a else b }

  /** A subset is no larger than its set, and as large only when it is the whole of it. */
  lemma SubsetSize<T>(sub: set<T>, s: set<T>)
    requires sub <= s
    ensures |sub| <= |s| && (|sub| == |s| <==> sub == s)
  {
    assert |s - sub| == |s| - |sub|;
  }

  function Pow2(n: nat): nat { if n == 0 then 1 else 2 * Pow2(n - 1) }

  /** Some subset of at most the given size exists, whichever rows a bounded query returns. */
  lemma {:induction false} SubsetOfSize<T>(s: set<T>, n: nat) returns (sub: set<T>)
    ensures sub <= s && |sub| == Min(n, |s|)
    decreases |s|
  {
    if |s| <= n {
      sub := s;
    } else {
      var x :| x in s;
      sub := SubsetOfSize(s - {x}, n);
    }
  }
}
