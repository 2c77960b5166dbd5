/** Datatypes and rounding facts shared by every module. */
module Common {

  datatype Option<+T> = None | Some(value: T)

  datatype Result<+T, +E> = Ok(value: T) | Err(error: E)

  /** The application error codes the modelled services return, and a violated table constraint. */
  datatype ErrorCode = BadRequest | NotFound | Conflict | StorageError

  /** Go's `math.Round` on exact reals: nearest integer, halves away from zero. */
  function Round(x: real): int {
    if x >= 0.0 then (x + 0.5).Floor else -((-x + 0.5).Floor)
  }

  lemma RoundNear(x: real)
    ensures -0.5 <= Round(x) as real - x <= 0.5
  {
  }

  lemma RoundWhole(n: int)
    ensures Round(n as real) == n
  {
  }

  /** An integer below (above) a real stays below (above) its rounding. */
  lemma RoundBetween(lo: int, x: real, hi: int)
    ensures lo as real <= x ==> lo <= Round(x)
    ensures x <= hi as real ==> Round(x) <= hi
  {
  }

  /** Halves go away from zero, and signs do not matter. */
  lemma RoundHalves(x: real)
    ensures x >= 0.0 ==> -0.5 < Round(x) as real - x <= 0.5
    ensures Round(-x) == -Round(x)
  {
  }

  function Max(a: int, b: int): int { if a >= b then a else b }

  function Min(a: int, b: int): int { if a <= b then a else b }

  /** Integer division as Go does it: truncated toward zero. */
  function TruncDiv(a: int, b: int): int
    requires b > 0
  {
    if a >= 0 then a / b else -((-a) / b)
  }

  lemma TruncatesTowardZero(a: int, b: int)
    requires b > 0
    ensures a >= 0 ==> b * TruncDiv(a, b) <= a < b * TruncDiv(a, b) + b
    ensures TruncDiv(-a, b) == -TruncDiv(a, b)
  {
  }

  ghost predicate Distinct<T>(s: seq<T>) {
    forall i, j :: 0 <= i < j < |s| ==> s[i] != s[j]
  }

  lemma Regroups<T>(a: seq<T>, b: seq<T>, c: seq<T>)
    ensures a + (b + c) == (a + b) + c
  {
  }

  // ---------- Products of reals ----------

  lemma Distributes(a: real, b: real, c: real)
    ensures (a - b) * c == a * c - b * c
  {
  }

  lemma Adds(a: real, b: real, c: real)
    ensures (a + b) * c == a * c + b * c
  {
  }

  lemma ProductNonnegative(a: real, b: real)
    requires a >= 0.0 && b >= 0.0
    ensures a * b >= 0.0
  {
  }

  lemma ProductPositive(a: real, b: real)
    requires a > 0.0 && b > 0.0
    ensures a * b > 0.0
  {
  }

  // ---------- At every moment of a run ----------

  ghost predicate Always<A>(p: seq<A> -> bool, s: seq<A>) { forall k :: 0 <= k <= |s| ==> p(s[..k]) }

  lemma AlwaysNow<A>(p: seq<A> -> bool, s: seq<A>)
    ensures Always(p, s) ==> p(s)
  {
    assert s[..|s|] == s;
  }

  lemma AlwaysSplits<A>(p: seq<A> -> bool, s: seq<A>)
    ensures Always(p, s) <==> (s != [] ==> Always(p, s[..|s| - 1])) && p(s)
  {
    assert s[..|s|] == s;
    if s != [] {
      var before := s[..|s| - 1];
      assert forall k :: 0 <= k <= |before| ==> before[..k] == s[..k];
    }
  }

  // ---------- Accumulation in any order ----------

  function Fold<A, B>(f: (B, A) -> B, b: B, s: seq<A>): B {
    if s == [] then b else f(Fold(f, b, s[..|s| - 1]), s[|s| - 1])
  }

  ghost predicate Commutes<A(!new), B(!new)>(f: (B, A) -> B) {
    forall b: B, x: A, y: A :: f(f(b, x), y) == f(f(b, y), x)
  }

  lemma TakeOut<A>(s: seq<A>, k: nat)
    requires k < |s|
    ensures multiset(s[..k] + s[k + 1..]) == multiset(s) - multiset{s[k]}
  {
    assert s == s[..k] + [s[k]] + s[k + 1..];
  }

  lemma {:induction false} FoldTakesOut<A(!new), B(!new)>(f: (B, A) -> B, b: B, s: seq<A>, k: nat)
    requires k < |s| && Commutes(f)
    ensures Fold(f, b, s) == f(Fold(f, b, s[..k] + s[k + 1..]), s[k])
    decreases |s|
  {
    var n := |s| - 1;
    var without := s[..k] + s[k + 1..];
    if k == n {
      assert without == s[..n];
    } else {
      FoldTakesOut(f, b, s[..n], k);
      assert without[..|without| - 1] == s[..n][..k] + s[..n][k + 1..];
    }
  }

  /** A commuting accumulation gives the same result for the same elements in any order. */
  lemma {:induction false} FoldIgnoresOrder<A(!new), B(!new)>(f: (B, A) -> B, b: B, s: seq<A>, t: seq<A>)
    requires Commutes(f) && multiset(s) == multiset(t)
    ensures |s| == |t| && Fold(f, b, s) == Fold(f, b, t)
    decreases |s|
  {
    assert |multiset(s)| == |s| && |multiset(t)| == |t|;
    if s != [] {
      var n := |s| - 1;
      assert s[n] in multiset(t);
      var k :| 0 <= k < |t| && t[k] == s[n];
      TakeOut(s, n);
      TakeOut(t, k);
      FoldIgnoresOrder(f, b, s[..n] + s[n + 1..], t[..k] + t[k + 1..]);
      FoldTakesOut(f, b, s, n);
      FoldTakesOut(f, b, t, k);
    }
  }
}
