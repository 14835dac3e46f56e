// Vocabulary shared by every module: bytes, optional values, results, and the
// bit operations that Python's integers offer.
module Prelude {
  type byte = b: int | 0 <= b < 256

  type Bytes = seq<byte>

  const MAX_U32: nat := 0xFFFF_FFFF

  datatype Option<+T> = None | Some(value: T) {
    predicate IsFailure() {
      None?
    }

    function PropagateFailure<U>(): Option<U>
      requires None?
    {
      None
    }

    function Extract(): T
      requires Some?
    {
      value
    }
  }

  datatype Result<+T, +E> = Ok(value: T) | Err(error: E) {
    predicate IsFailure() {
      Err?
    }

    function PropagateFailure<U>(): Result<U, E>
      requires Err?
    {
      Err(error)
    }

    function Extract(): T
      requires Ok?
    {
      value
    }
  }

  function Min(a: int, b: int): int {
    if a <= b then a else b
  }

  function Pow2(n: nat): (p: nat)
    ensures p > 0
  {
    if n == 0 then 1 else 2 * Pow2(n - 1)
  }

  // Python's `a << k`, kept free of multiplication by a variable.
  function Shl(a: nat, k: nat): nat {
    if k == 0 then a else 2 * Shl(a, k - 1)
  }

  // Python's `a | b` on non-negative integers.
  function BitOr(a: nat, b: nat): nat
    decreases a + b
  {
    if a == 0 && b == 0 then 0
    else 2 * BitOr(a / 2, b / 2) + (if a % 2 == 1 || b % 2 == 1 then 1 else 0)
  }

  // Python's `x & (1 << i)`, as a truth value.
  predicate Bit(x: nat, i: nat) {
    if i == 0 then x % 2 == 1 else Bit(x / 2, i - 1)
  }

  lemma {:induction false} Pow2Monotone(a: nat, b: nat)
    requires a <= b
    ensures Pow2(a) <= Pow2(b)
    decreases b - a
  {
    if a == b {
    } else {
      Pow2Monotone(a + 1, b);
    }
  }

  lemma Pow2Values()
    ensures Pow2(0) == 1 && Pow2(6) == 64 && Pow2(7) == 128 && Pow2(8) == 256
    ensures Pow2(13) == 8192 && Pow2(14) == 16384 && Pow2(16) == 0x1_0000
  {
    assert Pow2(4) == 16;
    assert Pow2(8) == 256;
    assert Pow2(12) == 4096;
  }

  lemma ShlValues(a: nat)
    ensures Shl(a, 4) == 16 * a && Shl(a, 8) == 256 * a
    ensures Shl(a, 13) == 8192 * a && Shl(a, 14) == 16384 * a
  {
    assert Shl(a, 2) == 2 * Shl(a, 1) && Shl(a, 4) == 2 * Shl(a, 3);
    assert Shl(a, 6) == 2 * Shl(a, 5) && Shl(a, 8) == 2 * Shl(a, 7);
    assert Shl(a, 10) == 2 * Shl(a, 9) && Shl(a, 12) == 2 * Shl(a, 11);
    assert Shl(a, 14) == 2 * Shl(a, 13);
  }

  lemma {:induction false} ShlZero(k: nat)
    ensures Shl(0, k) == 0
  {
    if k == 0 {
    } else {
      ShlZero(k - 1);
    }
  }

  lemma {:induction false} ShlSum(a: nat, b: nat, k: nat)
    ensures Shl(a + b, k) == Shl(a, k) + Shl(b, k)
  {
    if k == 0 {
    } else {
      ShlSum(a, b, k - 1);
    }
  }

  lemma {:induction false} ShlShl(a: nat, i: nat, j: nat)
    ensures Shl(Shl(a, i), j) == Shl(a, i + j)
  {
    if j == 0 {
    } else {
      ShlShl(a, i, j - 1);
    }
  }

  lemma {:induction false} ShlPow2(i: nat, k: nat)
    ensures Shl(Pow2(i), k) == Pow2(i + k)
  {
    if k == 0 {
    } else {
      ShlPow2(i, k - 1);
    }
  }

  lemma {:induction false} ShlMonotone(a: nat, b: nat, k: nat)
    requires a <= b
    ensures Shl(a, k) <= Shl(b, k)
  {
    if k == 0 {
    } else {
      ShlMonotone(a, b, k - 1);
    }
  }

  // `low` fills the k bits under the shift, `high` the w bits above it.
  lemma ShlBound(low: nat, high: nat, k: nat, w: nat)
    requires low < Pow2(k) && high < Pow2(w)
    ensures low + Shl(high, k) < Pow2(k + w)
  {
    ShlMonotone(high + 1, Pow2(w), k);
    ShlSum(high, 1, k);
    ShlPow2(0, k);
    ShlPow2(w, k);
  }

  lemma {:induction false} ShlUnique(x: nat, a: nat, y: nat, b: nat, k: nat)
    requires x < Pow2(k) && y < Pow2(k) && x + Shl(a, k) == y + Shl(b, k)
    ensures x == y && a == b
  {
    if k == 0 {
    } else {
      ShlUnique(x / 2, a, y / 2, b, k - 1);
    }
  }

  // The part of a bounded number above its low k bits is itself bounded.
  lemma ShiftedOutBound(low: nat, high: nat, k: nat, w: nat)
    requires low + Shl(high, k) < Pow2(k + w)
    ensures high < Pow2(w)
  {
    if high >= Pow2(w) {
      ShlMonotone(Pow2(w), high, k);
      ShlPow2(w, k);
    }
  }

  lemma {:induction false} OrZero(b: nat)
    ensures BitOr(0, b) == b
  {
    if b == 0 {
    } else {
      OrZero(b / 2);
    }
  }

  // When the low operand stays below the shift, `|` cannot disturb a set bit.
  lemma {:induction false} OrDisjoint(a: nat, b: nat, k: nat)
    requires a < Pow2(k)
    ensures BitOr(a, Shl(b, k)) == a + Shl(b, k)
  {
    if k == 0 {
      OrZero(b);
    } else {
      OrDisjoint(a / 2, b, k - 1);
    }
  }

  lemma {:induction false} BitOfOr(a: nat, b: nat, i: nat)
    ensures Bit(BitOr(a, b), i) == (Bit(a, i) || Bit(b, i))
  {
    if i == 0 {
    } else if a == 0 && b == 0 {
      BitOfOr(0, 0, i - 1);
    } else {
      BitOfOr(a / 2, b / 2, i - 1);
      assert BitOr(a, b) / 2 == BitOr(a / 2, b / 2);
    }
  }

  lemma {:induction false} BitOfZero(i: nat)
    ensures !Bit(0, i)
  {
    if i == 0 {
    } else {
      BitOfZero(i - 1);
    }
  }

  lemma {:induction false} BitOfPow2(j: nat, i: nat)
    ensures Bit(Pow2(j), i) == (i == j)
  {
    if i == 0 {
    } else if j == 0 {
      BitOfZero(i - 1);
    } else {
      BitOfPow2(j - 1, i - 1);
    }
  }

  lemma {:induction false} OrBound(a: nat, b: nat, k: nat)
    requires a < Pow2(k) && b < Pow2(k)
    ensures BitOr(a, b) < Pow2(k)
  {
    if k == 0 {
    } else {
      OrBound(a / 2, b / 2, k - 1);
    }
  }

  lemma {:induction false} OrCommutes(a: nat, b: nat)
    ensures BitOr(a, b) == BitOr(b, a)
    decreases a + b
  {
    if a == 0 && b == 0 {
    } else {
      OrCommutes(a / 2, b / 2);
    }
  }

  // Bounded numbers are determined by their bits.
  lemma {:induction false} BitsDetermine(a: nat, b: nat, k: nat)
    requires a < Pow2(k) && b < Pow2(k)
    requires forall i: nat | i < k :: Bit(a, i) == Bit(b, i)
    ensures a == b
  {
    if k == 0 {
    } else {
      assert Bit(a, 0) == Bit(b, 0);
      forall i: nat | i < k - 1
        ensures Bit(a / 2, i) == Bit(b / 2, i)
      {
        assert Bit(a, i + 1) == Bit(b, i + 1);
      }
      BitsDetermine(a / 2, b / 2, k - 1);
    }
  }

  function Range(n: nat): (s: set<int>)
    ensures |s| == n
    ensures forall i :: i in s <==> 0 <= i < n
  {
    if n == 0 then {} else Range(n - 1) + {n - 1}
  }

  lemma {:induction false} SubsetSize<T>(a: set<T>, b: set<T>)
    requires a <= b
    ensures |a| <= |b| && (|a| == |b| <==> a == b)
    decreases b
  {
    if a == {} {
    } else {
      var x :| x in a;
      SubsetSize(a - {x}, b - {x});
      assert a == a - {x} + {x} && b == b - {x} + {x};
    }
  }
}
