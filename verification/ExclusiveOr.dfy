/** Exclusive or of 32-bit words. */
module ExclusiveOr {
  import opened Arithmetic
  import opened Thumb

  function Xor(x: Word, y: Word): Word {
    BitwiseWord(BitXor, x, y)
  }

  lemma {:induction false} XorSelf(x: nat, y: nat, n: nat)
    requires x < Pow2(n) && y < Pow2(n)
    ensures Bitwise(BitXor, x, x, n) == 0 && Bitwise(BitXor, x, 0, n) == x
    ensures Bitwise(BitXor, x, y, n) == Bitwise(BitXor, y, x, n)
  {
    if n > 0 {
      XorSelf(x / 2, y / 2, n - 1);
    }
  }

  lemma {:induction false} XorAssociates(x: nat, y: nat, z: nat, n: nat)
    ensures Bitwise(BitXor, Bitwise(BitXor, x, y, n), z, n) == Bitwise(BitXor, x, Bitwise(BitXor, y, z, n), n)
  {
    if n > 0 {
      XorAssociates(x / 2, y / 2, z / 2, n - 1);
      var a, b := Bitwise(BitXor, x, y, n), Bitwise(BitXor, y, z, n);
      assert a / 2 == Bitwise(BitXor, x / 2, y / 2, n - 1) && b / 2 == Bitwise(BitXor, y / 2, z / 2, n - 1);
    }
  }

  lemma {:induction false} XorLaws(x: Word, y: Word, z: Word)
    ensures Xor(x, x) == 0 && Xor(x, 0) == x && Xor(x, y) == Xor(y, x)
    ensures Xor(Xor(x, y), z) == Xor(x, Xor(y, z))
  {
    hide Bitwise, Pow2;
    Pow2Word();
    XorSelf(x, y, 32);
    XorAssociates(x, y, z, 32);
  }

  /** Each operand is determined by the result and the other one. */
  lemma {:induction false} XorSolves(x: Word, y: Word, z: Word)
    ensures Xor(x, y) == z <==> y == Xor(x, z)
  {
    hide Xor;
    XorLaws(x, x, y);
    XorLaws(x, x, z);
    XorLaws(0, y, y);
    XorLaws(y, 0, 0);
    XorLaws(z, 0, 0);
    XorLaws(0, z, z);
  }
}
