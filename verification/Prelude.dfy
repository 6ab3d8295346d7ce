/** Shared vocabulary: optional values, Go's wrapping int64, and sums over finite sets. */
module Prelude {

  datatype Option<+T> = None | Some(value: T)

  const TWO63: int := 0x8000_0000_0000_0000
  const TWO64: int := 0x1_0000_0000_0000_0000

  /** The range of Go's int64 and of PostgreSQL's BIGINT. */
  type int64 = x: int | -TWO63 <= x < TWO63

  /** Two's-complement reduction: what Go stores when the exact value is x. */
  function Wrap(x: int): (r: int64)
    ensures -TWO63 <= x < TWO63 ==> r == x
  {
    (x + TWO63) % TWO64 - TWO63
  }

  /** Wrapping early or late makes no difference to a sum. */
  lemma WrapAbsorbs(a: int, b: int)
    ensures Wrap(Wrap(a) + b) == Wrap(a + b)
  {
    var q := (a + TWO63) / TWO64;
    assert Wrap(a) == a - q * TWO64;
    assert (a + b + TWO63 - q * TWO64) % TWO64 == (a + b + TWO63) % TWO64;
  }

  /** Sum of f over a finite set. */
  ghost function SetSum<T(!new)>(s: set<T>, f: T -> int): int
  {
    if s == {} then 0 else
    var x :| x in s;
    f(x) + SetSum(s - {x}, f)
  }

  /** Any member may be taken out first. */
  lemma {:induction false} SetSumSplit<T(!new)>(s: set<T>, f: T -> int, x: T)
    requires x in s
    ensures SetSum(s, f) == f(x) + SetSum(s - {x}, f)
    decreases |s|
  {
    var y :| y in s && SetSum(s, f) == f(y) + SetSum(s - {y}, f);
    if y != x {
      SetSumSplit(s - {y}, f, x);
      SetSumSplit(s - {x}, f, y);
      assert s - {y} - {x} == s - {x} - {y};
    }
  }

  lemma {:induction false} SetSumCongruent<T(!new)>(s: set<T>, f: T -> int, g: T -> int)
    requires forall x :: x in s ==> f(x) == g(x)
    ensures SetSum(s, f) == SetSum(s, g)
    decreases |s|
  {
    if s != {} {
      var x :| x in s;
      SetSumSplit(s, f, x);
      SetSumSplit(s, g, x);
      SetSumCongruent(s - {x}, f, g);
    }
  }

  lemma {:induction false} SetSumAdds<T(!new)>(s: set<T>, f: T -> int, g: T -> int, h: T -> int)
    requires forall x :: x in s ==> h(x) == f(x) + g(x)
    ensures SetSum(s, h) == SetSum(s, f) + SetSum(s, g)
    decreases |s|
  {
    if s != {} {
      var x :| x in s;
      SetSumSplit(s, f, x);
      SetSumSplit(s, g, x);
      SetSumSplit(s, h, x);
      SetSumAdds(s - {x}, f, g, h);
    }
  }

  /** A sum with one non-zero term is that term. */
  lemma {:induction false} SetSumSingle<T(!new)>(s: set<T>, f: T -> int, x: T)
    requires x in s
    requires forall y :: y in s && y != x ==> f(y) == 0
    ensures SetSum(s, f) == f(x)
  {
    SetSumSplit(s, f, x);
    var zero := (y: T) => 0;
    SetSumCongruent(s - {x}, f, zero);
    SetSumZero(s - {x}, zero);
  }

  lemma {:induction false} SetSumZero<T(!new)>(s: set<T>, f: T -> int)
    requires forall x :: x in s ==> f(x) == 0
    ensures SetSum(s, f) == 0
    decreases |s|
  {
    if s != {} {
      var x :| x in s;
      SetSumSplit(s, f, x);
      SetSumZero(s - {x}, f);
    }
  }
}
