/**
 * Zobrist keys and the exclusive-or that combines them.
 *
 * A key is a natural number; `Xor` is bitwise exclusive-or on the binary
 * expansions.  For operands below 2^64 it coincides with the engine's
 * `uint64_t` `^` and never leaves that range (`XorBelow`), so the key
 * width needs no wrap-around here (`BoardState.ZobristHashFits`).
 */
module Keys {

  type Key = nat

  function Pow2(n: nat): nat
  {
    if n == 0 then 1 else 2 * Pow2(n - 1)
  }

  /** Bitwise exclusive-or, one binary digit at a time. */
  function Xor(a: nat, b: nat): nat
    decreases a + b
  {
    if a == 0 then b
    else if b == 0 then a
    else 2 * Xor(a / 2, b / 2) + (if a % 2 == b % 2 then 0 else 1)
  }

  /** `HashKey`: toggle `key` in and out of `originalKey` (`^=`); `XorCancel` shows that toggling twice is the identity. */
  function HashKey(originalKey: Key, key: Key): Key
  {
    Xor(originalKey, key)
  }

  lemma XorDigits(a: nat, b: nat)
    ensures Xor(a, b) / 2 == Xor(a / 2, b / 2)
    ensures Xor(a, b) % 2 == (if a % 2 == b % 2 then 0 else 1)
  {
  }

  lemma {:induction false} XorComm(a: nat, b: nat)
    ensures Xor(a, b) == Xor(b, a)
    decreases a + b
  {
    if a != 0 && b != 0 {
      XorComm(a / 2, b / 2);
    }
  }

  lemma {:induction false} XorSelf(a: nat)
    ensures Xor(a, a) == 0
    decreases a
  {
    if a != 0 {
      XorSelf(a / 2);
    }
  }

  lemma XorZero(a: nat)
    ensures Xor(a, 0) == a && Xor(0, a) == a
  {
  }

  lemma {:induction false} XorAssoc(a: nat, b: nat, c: nat)
    ensures Xor(Xor(a, b), c) == Xor(a, Xor(b, c))
    decreases a + b + c
  {
    if a != 0 && b != 0 && c != 0 {
      XorAssoc(a / 2, b / 2, c / 2);
      XorDigits(a, b);
      XorDigits(b, c);
      XorDigits(Xor(a, b), c);
      XorDigits(a, Xor(b, c));
    }
  }

  /** Exclusive-or of two n-bit numbers is an n-bit number: keys stay 64-bit words. */
  lemma {:induction false} XorBelow(a: nat, b: nat, n: nat)
    requires a < Pow2(n) && b < Pow2(n)
    ensures Xor(a, b) < Pow2(n)
    decreases n
  {
    if n > 0 && a != 0 && b != 0 {
      XorBelow(a / 2, b / 2, n - 1);
    }
  }

  /** Toggling a key in and back out again restores the original. */
  lemma XorCancel(a: nat, k: nat)
    ensures Xor(Xor(a, k), k) == a
  {
    XorAssoc(a, k, k);
    XorSelf(k);
  }

  /** Toggling keys commutes: the order in which two keys are XORed in is irrelevant. */
  lemma XorSwap(a: nat, k1: nat, k2: nat)
    ensures Xor(Xor(a, k1), k2) == Xor(Xor(a, k2), k1)
  {
    XorAssoc(a, k1, k2);
    XorAssoc(a, k2, k1);
    XorComm(k1, k2);
  }
}
