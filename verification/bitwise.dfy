/** The bit helpers shipped with the generated programs
    (src/helpers/bitwise_helper.py), over Python's unbounded integers.
    Python's bitwise operators treat an integer as an infinite two's
    complement bit string; they are modelled here by recursion on the
    lowest bit, and a negative shift count, which Python rejects, is an
    error. */
module Bitwise {
  import opened Basics

  function Pow2(k: nat): (r: nat)
    ensures r >= 1
  {
    if k == 0 then 1 else 2 * Pow2(k - 1)
  }

  /** Bit `k` of `v` in two's complement: the reference reading every
      operation below is judged by. */
  function Bit(v: int, k: nat): int
    decreases k
  {
    if k == 0 then v % 2 else Bit(v / 2, k - 1)
  }

  /** `0` and `-1` are the integers whose bits are all equal; every other
      integer shrinks when halved. */
  predicate Settled(v: int) {
    v == 0 || v == -1
  }

  function Size(v: int): nat {
    if v < 0 then -v else v
  }

  lemma HalfShrinks(v: int)
    ensures Settled(v) ==> v / 2 == v
    ensures !Settled(v) ==> Size(v / 2) < Size(v)
  {
  }

  /** Python's `a | b`. */
  function Or(a: int, b: int): int
    decreases Size(a) + Size(b)
  {
    if Settled(a) && Settled(b) then (if a == -1 || b == -1 then -1 else 0)
    else
      HalfShrinks(a);
      HalfShrinks(b);
      2 * Or(a / 2, b / 2) + (if a % 2 == 1 || b % 2 == 1 then 1 else 0)
  }

  /** Python's `a & b`. */
  function And(a: int, b: int): int
    decreases Size(a) + Size(b)
  {
    if Settled(a) && Settled(b) then (if a == -1 && b == -1 then -1 else 0)
    else
      HalfShrinks(a);
      HalfShrinks(b);
      2 * And(a / 2, b / 2) + (if a % 2 == 1 && b % 2 == 1 then 1 else 0)
  }

  /** Python's `a ^ b`. */
  function Xor(a: int, b: int): int
    decreases Size(a) + Size(b)
  {
    if Settled(a) && Settled(b) then (if a != b then -1 else 0)
    else
      HalfShrinks(a);
      HalfShrinks(b);
      2 * Xor(a / 2, b / 2) + (if a % 2 != b % 2 then 1 else 0)
  }

  /** Python's `~a`. */
  function Not(a: int): int {
    -a - 1
  }

  /** Python's `v >> k` for `k >= 0`: `k` halvings, each rounding down. */
  function Shr(v: int, k: nat): int
    decreases k
  {
    if k == 0 then v else Shr(v / 2, k - 1)
  }

  /** Python's `1 << k` for `k >= 0`. */
  function Shl1(k: nat): int {
    Pow2(k)
  }

  /** `bitmask(size)`: `(1 << size) - 1`. */
  function Bitmask(size: int): Option<int> {
    if size < 0 then None else Some(Shl1(size) - 1)
  }

  /** `get_bit(value, position)`: `(value >> position) & 1`. */
  function GetBit(value: int, position: int): Option<int> {
    if position < 0 then None else Some(And(Shr(value, position), 1))
  }

  /** `set_bit(value, position)`: `value | (1 << position)`. */
  function SetBit(value: int, position: int): Option<int> {
    if position < 0 then None else Some(Or(value, Shl1(position)))
  }

  /** `clear_bit(value, position)`: `value & ~(1 << position)`. */
  function ClearBit(value: int, position: int): Option<int> {
    if position < 0 then None else Some(And(value, Not(Shl1(position))))
  }

  /** `toggle_bit(value, position)`: `value ^ (1 << position)`. */
  function ToggleBit(value: int, position: int): Option<int> {
    if position < 0 then None else Some(Xor(value, Shl1(position)))
  }

  // The operators bit by bit.

  lemma BitRange(v: int, k: nat)
    ensures Bit(v, k) == 0 || Bit(v, k) == 1
    decreases k
  {
    if k > 0 {
      BitRange(v / 2, k - 1);
    }
  }

  /** One step of a bitwise operator: its lowest bit and the rest. */
  lemma OrStep(a: int, b: int)
    ensures Or(a, b) % 2 == (if a % 2 == 1 || b % 2 == 1 then 1 else 0)
    ensures Or(a, b) / 2 == Or(a / 2, b / 2)
  {
    HalfShrinks(a);
    HalfShrinks(b);
  }

  lemma AndStep(a: int, b: int)
    ensures And(a, b) % 2 == (if a % 2 == 1 && b % 2 == 1 then 1 else 0)
    ensures And(a, b) / 2 == And(a / 2, b / 2)
  {
    HalfShrinks(a);
    HalfShrinks(b);
  }

  lemma XorStep(a: int, b: int)
    ensures Xor(a, b) % 2 == (if a % 2 != b % 2 then 1 else 0)
    ensures Xor(a, b) / 2 == Xor(a / 2, b / 2)
  {
    HalfShrinks(a);
    HalfShrinks(b);
  }

  lemma NotStep(a: int)
    ensures Not(a) % 2 == 1 - a % 2
    ensures Not(a) / 2 == Not(a / 2)
  {
  }

  lemma {:induction false} OrBits(a: int, b: int, k: nat)
    ensures Bit(Or(a, b), k) == (if Bit(a, k) == 1 || Bit(b, k) == 1 then 1 else 0)
    decreases k
  {
    OrStep(a, b);
    if k > 0 {
      OrBits(a / 2, b / 2, k - 1);
    }
  }

  lemma {:induction false} AndBits(a: int, b: int, k: nat)
    ensures Bit(And(a, b), k) == (if Bit(a, k) == 1 && Bit(b, k) == 1 then 1 else 0)
    decreases k
  {
    AndStep(a, b);
    if k > 0 {
      AndBits(a / 2, b / 2, k - 1);
    }
  }

  lemma {:induction false} XorBits(a: int, b: int, k: nat)
    ensures Bit(Xor(a, b), k) == (if Bit(a, k) != Bit(b, k) then 1 else 0)
    decreases k
  {
    XorStep(a, b);
    if k > 0 {
      XorBits(a / 2, b / 2, k - 1);
    }
  }

  lemma {:induction false} NotBits(a: int, k: nat)
    ensures Bit(Not(a), k) == 1 - Bit(a, k)
    decreases k
  {
    NotStep(a);
    if k > 0 {
      NotBits(a / 2, k - 1);
    }
  }

  /** `1 << p` has exactly bit `p` set. */
  lemma {:induction false} PowerBits(p: nat, k: nat)
    ensures Bit(Pow2(p), k) == (if k == p then 1 else 0)
    decreases k
  {
    if k == 0 {
      if p > 0 {
        assert Pow2(p) == 2 * Pow2(p - 1);
      }
    } else if p == 0 {
      BitsOfZero(k - 1);
    } else {
      assert Pow2(p) / 2 == Pow2(p - 1);
      PowerBits(p - 1, k - 1);
    }
  }

  lemma {:induction false} BitsOfZero(k: nat)
    ensures Bit(0, k) == 0
    decreases k
  {
    if k > 0 {
      BitsOfZero(k - 1);
    }
  }

  /** An integer is determined by its bits. */
  lemma {:induction false} BitsDetermine(a: int, b: int)
    requires forall k: nat :: Bit(a, k) == Bit(b, k)
    ensures a == b
    decreases Size(a) + Size(b)
  {
    assert Bit(a, 0) == Bit(b, 0);
    HalfShrinks(a);
    HalfShrinks(b);
    if !(Settled(a) && Settled(b)) {
      forall k: nat ensures Bit(a / 2, k) == Bit(b / 2, k) {
        assert Bit(a, k + 1) == Bit(b, k + 1);
      }
      BitsDetermine(a / 2, b / 2);
    }
  }

  // The helpers' contracts.

  /** `>>` drops the low bits. */
  lemma {:induction false} ShrBits(v: int, p: nat, k: nat)
    ensures Bit(Shr(v, p), k) == Bit(v, p + k)
    decreases p
  {
    if p > 0 {
      ShrBits(v / 2, p - 1, k);
    }
  }

  /** `>>` is division by a power of two, rounding down. */
  lemma {:induction false} ShrDivides(v: int, p: nat)
    ensures Shr(v, p) == v / Pow2(p)
    decreases p
  {
    if p > 0 {
      ShrDivides(v / 2, p - 1);
      HalveThenDivide(v, Pow2(p - 1));
    }
  }

  lemma HalveThenDivide(v: int, d: int)
    requires d > 0
    ensures (v / 2) / d == v / (2 * d)
  {
    var q, r := v / (2 * d), v % (2 * d);
    assert v == 2 * d * q + r && 0 <= r < 2 * d;
    assert v / 2 == d * q + r / 2;
    assert 0 <= r / 2 < d;
    DivideExactly(v / 2, d, q, r / 2);
  }

  lemma DivideExactly(x: int, d: int, q: int, r: int)
    requires d > 0 && x == d * q + r && 0 <= r < d
    ensures x / d == q
  {
    var k := x / d - q;
    assert d * k == r - x % d;
    if k >= 1 {
      MulGrows(d, k);
      assert false;
    } else if k <= -1 {
      MulGrows(d, -k);
      assert false;
    }
  }

  lemma {:induction false} MulGrows(d: int, m: int)
    requires d > 0 && m >= 1
    ensures d * m >= d
    decreases m
  {
    if m > 1 {
      MulGrows(d, m - 1);
      assert d * m == d * (m - 1) + d;
    }
  }

  /** `x & 1` is the lowest bit of `x`. */
  lemma LowestBit(x: int)
    ensures And(x, 1) == x % 2
  {
    AndStep(x, 1);
    AndWithZero(x / 2);
  }

  lemma {:induction false} AndWithZero(x: int)
    ensures And(x, 0) == 0
    decreases Size(x)
  {
    HalfShrinks(x);
    if !Settled(x) {
      AndWithZero(x / 2);
    }
  }

  /** `bitmask(n)` is `2^n - 1`, the number whose set bits are exactly the
      `n` lowest; a negative size is an error. */
  lemma BitmaskBits(n: int)
    ensures n < 0 <==> Bitmask(n).None?
    ensures n >= 0 ==> Bitmask(n) == Some(Pow2(n) - 1)
    ensures n >= 0 ==> forall k: nat :: Bit(Bitmask(n).value, k) == (if k < n then 1 else 0)
  {
    if n >= 0 {
      var m := Pow2(n) - 1;
      forall k: nat ensures Bit(m, k) == (if k < n then 1 else 0) {
        MaskBits(n, k);
      }
    }
  }

  lemma {:induction false} MaskBits(n: nat, k: nat)
    ensures Bit(Pow2(n) - 1, k) == (if k < n then 1 else 0)
    decreases n
  {
    if n == 0 {
      BitsOfZero(k);
    } else {
      assert Pow2(n) - 1 == 2 * (Pow2(n - 1) - 1) + 1;
      if k > 0 {
        assert (Pow2(n) - 1) / 2 == Pow2(n - 1) - 1;
        MaskBits(n - 1, k - 1);
      }
    }
  }

  /** `get_bit(v, p)` is 0 or 1: the quotient of `v` by `2^p`, modulo 2. */
  lemma GetBitReads(v: int, p: int)
    ensures p < 0 <==> GetBit(v, p).None?
    ensures p >= 0 ==> GetBit(v, p) == Some(Bit(v, p))
    ensures p >= 0 ==> GetBit(v, p) == Some((v / Pow2(p)) % 2)
    ensures p >= 0 ==> GetBit(v, p).value == 0 || GetBit(v, p).value == 1
  {
    if p >= 0 {
      LowestBit(Shr(v, p));
      ShrBits(v, p, 0);
      ShrDivides(v, p);
      BitRange(v, p);
    }
  }

  /** After `set_bit(v, p)` bit `p` reads 1 and every other bit is
      unchanged. */
  lemma SetBitBits(v: int, p: nat, k: nat)
    ensures Bit(SetBit(v, p).value, k) == (if k == p then 1 else Bit(v, k))
  {
    OrBits(v, Pow2(p), k);
    PowerBits(p, k);
    BitRange(v, k);
  }

  /** After `clear_bit(v, p)` bit `p` reads 0 and every other bit is
      unchanged. */
  lemma ClearBitBits(v: int, p: nat, k: nat)
    ensures Bit(ClearBit(v, p).value, k) == (if k == p then 0 else Bit(v, k))
  {
    AndBits(v, Not(Pow2(p)), k);
    NotBits(Pow2(p), k);
    PowerBits(p, k);
    BitRange(v, k);
  }

  /** A toggle flips bit `p` and nothing else. */
  lemma ToggleBitBits(v: int, p: nat, k: nat)
    ensures Bit(ToggleBit(v, p).value, k) == (if k == p then 1 - Bit(v, k) else Bit(v, k))
  {
    XorBits(v, Pow2(p), k);
    PowerBits(p, k);
    BitRange(v, k);
  }

  /** Toggling the same bit twice gives the value back. */
  lemma ToggleTwice(v: int, p: nat)
    ensures ToggleBit(ToggleBit(v, p).value, p) == Some(v)
  {
    var t := ToggleBit(v, p).value;
    forall k: nat ensures Bit(ToggleBit(t, p).value, k) == Bit(v, k) {
      ToggleBitBits(t, p, k);
      ToggleBitBits(v, p, k);
    }
    BitsDetermine(ToggleBit(t, p).value, v);
  }

  /** Setting and then clearing a bit is clearing it; clearing and then
      setting is setting it. */
  lemma SetThenClear(v: int, p: nat)
    ensures ClearBit(SetBit(v, p).value, p) == ClearBit(v, p)
    ensures SetBit(ClearBit(v, p).value, p) == SetBit(v, p)
  {
    var s, c := SetBit(v, p).value, ClearBit(v, p).value;
    forall k: nat ensures Bit(ClearBit(s, p).value, k) == Bit(c, k) {
      ClearBitBits(s, p, k);
      SetBitBits(v, p, k);
      ClearBitBits(v, p, k);
    }
    BitsDetermine(ClearBit(s, p).value, c);
    forall k: nat ensures Bit(SetBit(c, p).value, k) == Bit(s, k) {
      SetBitBits(c, p, k);
      ClearBitBits(v, p, k);
      SetBitBits(v, p, k);
    }
    BitsDetermine(SetBit(c, p).value, s);
  }

  /** A set bit is left alone by `set_bit`, a clear one by `clear_bit`. */
  lemma AlreadyThere(v: int, p: nat)
    ensures GetBit(v, p) == Some(1) ==> SetBit(v, p) == Some(v)
    ensures GetBit(v, p) == Some(0) ==> ClearBit(v, p) == Some(v)
  {
    GetBitReads(v, p);
    if Bit(v, p) == 1 {
      forall k: nat ensures Bit(SetBit(v, p).value, k) == Bit(v, k) {
        SetBitBits(v, p, k);
      }
      BitsDetermine(SetBit(v, p).value, v);
    }
    if Bit(v, p) == 0 {
      forall k: nat ensures Bit(ClearBit(v, p).value, k) == Bit(v, k) {
        ClearBitBits(v, p, k);
      }
      BitsDetermine(ClearBit(v, p).value, v);
    }
  }
}
