/**
 Unsigned machine words as natural numbers, with the bitwise operators the
 sources use, and the bit-by-bit facts that make two words equal.
 */
module Bits {

  /** Bit `i` of `x`, counted from the least significant. */
  predicate Bit(x: nat, i: nat) {
    if i == 0 then x % 2 == 1 else Bit(x / 2, i - 1)
  }

  function And(x: nat, y: nat): nat {
    if x == 0 || y == 0 then 0
    else 2 * And(x / 2, y / 2) + if x % 2 == 1 && y % 2 == 1 then 1 else 0
  }

  function Or(x: nat, y: nat): nat {
    if x == 0 then y else if y == 0 then x
    else 2 * Or(x / 2, y / 2) + if x % 2 == 1 || y % 2 == 1 then 1 else 0
  }

  function Shl(x: nat, k: nat): nat {
    if k == 0 then x else 2 * Shl(x, k - 1)
  }

  /** The low `n` bits: what a word of that width keeps. */
  function Low(x: nat, n: nat): nat {
    if n == 0 then 0 else 2 * Low(x / 2, n - 1) + x % 2
  }

  /** The largest word of `n` bits. */
  function Ones(n: nat): nat {
    if n == 0 then 0 else 2 * Ones(n - 1) + 1
  }

  lemma {:induction false} BitOfZero(i: nat)
    ensures !Bit(0, i)
  {
    if i > 0 { BitOfZero(i - 1); }
  }

  lemma {:induction false} BitOfAnd(x: nat, y: nat, i: nat)
    ensures Bit(And(x, y), i) <==> Bit(x, i) && Bit(y, i)
  {
    if x == 0 || y == 0 {
      BitOfZero(i);
    } else {
      var bit := if x % 2 == 1 && y % 2 == 1 then 1 else 0;
      assert And(x, y) == 2 * And(x / 2, y / 2) + bit;
      assert And(x, y) / 2 == And(x / 2, y / 2) && And(x, y) % 2 == bit;
      if i > 0 {
        hide And;
        BitOfAnd(x / 2, y / 2, i - 1);
      }
    }
  }

  lemma {:induction false} BitOfOr(x: nat, y: nat, i: nat)
    ensures Bit(Or(x, y), i) <==> Bit(x, i) || Bit(y, i)
  {
    if x == 0 || y == 0 {
      BitOfZero(i);
    } else {
      var bit := if x % 2 == 1 || y % 2 == 1 then 1 else 0;
      assert Or(x, y) == 2 * Or(x / 2, y / 2) + bit;
      assert Or(x, y) / 2 == Or(x / 2, y / 2) && Or(x, y) % 2 == bit;
      if i > 0 {
        hide Or;
        BitOfOr(x / 2, y / 2, i - 1);
      }
    }
  }

  lemma {:induction false} BitOfShl(x: nat, k: nat, i: nat)
    ensures Bit(Shl(x, k), i) <==> i >= k && Bit(x, i - k)
  {
    if k > 0 && i > 0 {
      BitOfShl(x, k - 1, i - 1);
    }
  }

  lemma {:induction false} BitOfLow(x: nat, n: nat, i: nat)
    ensures Bit(Low(x, n), i) <==> i < n && Bit(x, i)
  {
    if n == 0 {
      BitOfZero(i);
    } else if i > 0 {
      BitOfLow(x / 2, n - 1, i - 1);
    }
  }

  lemma {:induction false} BitOfOnes(n: nat, i: nat)
    ensures Bit(Ones(n), i) <==> i < n
  {
    if n == 0 {
      BitOfZero(i);
    } else if i > 0 {
      BitOfOnes(n - 1, i - 1);
    }
  }

  lemma BitOfOne(i: nat)
    ensures Bit(1, i) <==> i == 0
  {
    if i > 0 { BitOfZero(i - 1); }
  }

  /** Words are their bits. */
  lemma {:induction false} Extensional(x: nat, y: nat)
    requires forall i: nat :: Bit(x, i) <==> Bit(y, i)
    ensures x == y
  {
    if x == 0 && y == 0 {
    } else {
      forall i: nat ensures Bit(x / 2, i) <==> Bit(y / 2, i) {
        assert Bit(x, i + 1) <==> Bit(y, i + 1);
      }
      assert Bit(x, 0) <==> Bit(y, 0);
      Extensional(x / 2, y / 2);
    }
  }
}
