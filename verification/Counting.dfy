/** How often a value occurs in a sequence. */
module Counting {

  /** How often x occurs in q. */
  function Times(q: seq<int>, x: int): nat
  {
    if q == [] then 0 else Times(q[..|q| - 1], x) + if q[|q| - 1] == x then 1 else 0
  }

  lemma {:induction false} TimesConcat(a: seq<int>, b: seq<int>, x: int)
    ensures Times(a + b, x) == Times(a, x) + Times(b, x)
    decreases |b|
  {
    if b == [] {
      assert a + b == a;
    } else {
      var n := |b| - 1;
      TimesConcat(a, b[..n], x);
      assert (a + b)[..|a + b| - 1] == a + b[..n];
    }
  }

  lemma {:induction false} TimesIn(q: seq<int>, x: int)
    ensures Times(q, x) == 0 <==> x !in q
    decreases |q|
  {
    if q != [] {
      var n := |q| - 1;
      TimesIn(q[..n], x);
      assert q == q[..n] + [q[n]];
    }
  }
}
