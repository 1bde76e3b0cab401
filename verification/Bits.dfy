/**
 * Unsigned machine words as natural numbers, with the bitwise operators of the
 * source defined digit by digit: `|`, `&`, `~` and `1ull << i`, and the
 * standard library's leading and trailing zero counts.
 */
module Bits {

  function Pow2(n: nat): (r: nat)
    ensures r > 0
  {
    if n == 0 then 1 else 2 * Pow2(n - 1)
  }

  const WORD: nat := 64

  /** An std::uint64_t. */
  type Word = x: nat | x < Pow2(WORD) witness (assert Pow2(WORD) > 0; 0)

  /** The value of binary digit i. */
  predicate Bit(x: nat, i: nat) {
    if i == 0 then x % 2 == 1 else Bit(x / 2, i - 1)
  }

  function Or(x: nat, y: nat): nat
    decreases x + y
  {
    if x == 0 then y
    else if y == 0 then x
    else 2 * Or(x / 2, y / 2) + (if x % 2 == 1 || y % 2 == 1 then 1 else 0)
  }

  function And(x: nat, y: nat): nat {
    if x == 0 || y == 0 then 0
    else 2 * And(x / 2, y / 2) + (if x % 2 == 1 && y % 2 == 1 then 1 else 0)
  }

  /** `~x` at a width of n bits. */
  function Not(x: nat, n: nat): nat
    requires x < Pow2(n)
  {
    Pow2(n) - 1 - x
  }

  // ---- What the operators do to one digit -----------------------------------

  lemma {:induction false} ZeroBit(i: nat)
    ensures !Bit(0, i)
  {
    if i > 0 {
      ZeroBit(i - 1);
    }
  }

  lemma BitStep(x: nat, i: nat)
    ensures Bit(x, i) <==> if i == 0 then x % 2 == 1 else Bit(x / 2, i - 1)
  {}

  lemma OrStep(x: nat, y: nat)
    ensures Or(x, y) / 2 == Or(x / 2, y / 2)
    ensures Or(x, y) % 2 == 1 <==> x % 2 == 1 || y % 2 == 1
  {}

  lemma AndStep(x: nat, y: nat)
    ensures And(x, y) / 2 == And(x / 2, y / 2)
    ensures And(x, y) % 2 == 1 <==> x % 2 == 1 && y % 2 == 1
  {}

  lemma {:induction false} OrBit(x: nat, y: nat, i: nat)
    ensures Bit(Or(x, y), i) <==> Bit(x, i) || Bit(y, i)
    decreases i
  {
    hide Bit, Or;
    OrStep(x, y);
    BitStep(x, i);
    BitStep(y, i);
    BitStep(Or(x, y), i);
    if i > 0 {
      OrBit(x / 2, y / 2, i - 1);
    }
  }

  lemma {:induction false} AndBit(x: nat, y: nat, i: nat)
    ensures Bit(And(x, y), i) <==> Bit(x, i) && Bit(y, i)
    decreases i
  {
    hide And, Bit;
    AndStep(x, y);
    BitStep(x, i);
    BitStep(y, i);
    BitStep(And(x, y), i);
    if i > 0 {
      AndBit(x / 2, y / 2, i - 1);
    }
  }

  lemma {:induction false} Pow2Bit(n: nat, i: nat)
    ensures Bit(Pow2(n), i) <==> i == n
  {
    if n > 0 && i > 0 {
      Pow2Bit(n - 1, i - 1);
    } else if n == 0 && i > 0 {
      ZeroBit(i - 1);
    }
  }

  lemma NotStep(x: nat, n: nat)
    requires x < Pow2(n) && n > 0
    ensures Not(x, n) % 2 == 1 <==> x % 2 == 0
    ensures x / 2 < Pow2(n - 1) && Not(x, n) / 2 == Not(x / 2, n - 1)
  {}

  lemma {:induction false} NotBit(x: nat, n: nat, i: nat)
    requires x < Pow2(n) && i < n
    ensures Bit(Not(x, n), i) <==> !Bit(x, i)
  {
    hide Bit;
    NotStep(x, n);
    BitStep(x, i);
    BitStep(Not(x, n), i);
    if i > 0 {
      NotBit(x / 2, n - 1, i - 1);
    }
  }

  // ---- Width -------------------------------------------------------------------

  lemma {:induction false} Pow2Monotone(i: nat, n: nat)
    requires i < n
    ensures Pow2(i) < Pow2(n)
  {
    if i + 1 < n {
      Pow2Monotone(i, n - 1);
    }
  }

  lemma {:induction false} OrWidth(x: nat, y: nat, n: nat)
    requires x < Pow2(n) && y < Pow2(n)
    ensures Or(x, y) < Pow2(n)
  {
    if x != 0 && y != 0 && n > 0 {
      OrWidth(x / 2, y / 2, n - 1);
    }
  }

  lemma {:induction false} AndWidth(x: nat, y: nat)
    ensures And(x, y) <= x
  {
    if x != 0 && y != 0 {
      AndWidth(x / 2, y / 2);
    }
  }

  /** A word of n digits with none of them set is zero. */
  lemma {:induction false} NoBitIsZero(x: nat, n: nat)
    requires x < Pow2(n)
    requires forall i: nat | i < n :: !Bit(x, i)
    ensures x == 0
  {
    if n > 0 {
      forall i: nat | i < n - 1 ensures !Bit(x / 2, i) {
        assert !Bit(x, i + 1);
      }
      NoBitIsZero(x / 2, n - 1);
      assert !Bit(x, 0);
    }
  }

  // ---- Single-bit updates of a word ---------------------------------------------

  /** `1ull << i`. */
  function Mask(i: nat): Word
    requires i < WORD
  {
    Pow2Monotone(i, WORD);
    Pow2(i)
  }

  function SetBit(x: Word, i: nat): Word
    requires i < WORD
  {
    OrWidth(x, Mask(i), WORD);
    Or(x, Mask(i))
  }

  function ClearBit(x: Word, i: nat): Word
    requires i < WORD
  {
    AndWidth(x, Not(Mask(i), WORD));
    And(x, Not(Mask(i), WORD))
  }

  lemma SetBitAt(x: Word, i: nat, j: nat)
    requires i < WORD && j < WORD
    ensures Bit(SetBit(x, i), j) <==> j == i || Bit(x, j)
  {
    OrBit(x, Mask(i), j);
    Pow2Bit(i, j);
  }

  lemma ClearBitAt(x: Word, i: nat, j: nat)
    requires i < WORD && j < WORD
    ensures Bit(ClearBit(x, i), j) <==> j != i && Bit(x, j)
  {
    AndBit(x, Not(Mask(i), WORD), j);
    NotBit(Mask(i), WORD, j);
    Pow2Bit(i, j);
  }

  // ---- std::countl_zero and std::countr_zero --------------------------------------

  function LeadingZerosFrom(x: Word, k: nat): (r: nat)
    requires k <= WORD
    ensures k <= r <= WORD
    ensures r < WORD ==> Bit(x, WORD - 1 - r)
    ensures forall j: nat | j < WORD && k <= WORD - 1 - j < r :: !Bit(x, j)
    decreases WORD - k
  {
    if k == WORD then WORD
    else if Bit(x, WORD - 1 - k) then k
    else LeadingZerosFrom(x, k + 1)
  }

  function TrailingZerosFrom(x: Word, k: nat): (r: nat)
    requires k <= WORD
    ensures k <= r <= WORD
    ensures r < WORD ==> Bit(x, r)
    ensures forall j: nat | k <= j < r :: !Bit(x, j)
    decreases WORD - k
  {
    if k == WORD then WORD
    else if Bit(x, k) then k
    else TrailingZerosFrom(x, k + 1)
  }

  /** `63 - countl_zero(x)` is the highest set digit of a non-zero word. */
  function CountlZero(x: Word): (r: nat)
    ensures r <= WORD && (r == WORD <==> x == 0)
    ensures r < WORD ==> Bit(x, WORD - 1 - r)
    ensures forall j: nat | j < WORD && WORD - 1 - j < r :: !Bit(x, j)
  {
    LeadingIsWord(x);
    LeadingZerosFrom(x, 0)
  }

  lemma LeadingIsWord(x: Word)
    ensures LeadingZerosFrom(x, 0) == WORD <==> x == 0
  {
    hide Bit, LeadingZerosFrom, Pow2;
    var r := LeadingZerosFrom(x, 0);
    if r == WORD {
      NoBitIsZero(x, WORD);
    } else {
      ZeroBit(WORD - 1 - r);
    }
  }

  /** `countr_zero(x)` is the lowest set digit of a non-zero word. */
  function CountrZero(x: Word): (r: nat)
    ensures r <= WORD && (r == WORD <==> x == 0)
    ensures r < WORD ==> Bit(x, r)
    ensures forall j: nat | j < r :: !Bit(x, j)
  {
    TrailingIsWord(x);
    TrailingZerosFrom(x, 0)
  }

  lemma TrailingIsWord(x: Word)
    ensures TrailingZerosFrom(x, 0) == WORD <==> x == 0
  {
    hide Bit, TrailingZerosFrom, Pow2;
    var r := TrailingZerosFrom(x, 0);
    if r == WORD {
      NoBitIsZero(x, WORD);
    } else {
      ZeroBit(r);
    }
  }

  // ---- Bitsets over many words --------------------------------------------------------

  /** The digit of a level in a bitset: word `level / 64`, digit `level & 63`. */
  predicate Occupied(words: seq<Word>, level: nat)
    requires level < WORD * |words|
  {
    Bit(words[level / WORD], level % WORD)
  }

  function WithLevel(words: seq<Word>, level: nat, occupied: bool): (r: seq<Word>)
    requires level < WORD * |words|
    ensures |r| == |words|
  {
    var w := level / WORD;
    words[w := if occupied then SetBit(words[w], level % WORD) else ClearBit(words[w], level % WORD)]
  }

  /** Setting or clearing one level touches that level's digit and no other. */
  lemma WithLevelAt(words: seq<Word>, level: nat, occupied: bool, l: nat)
    requires level < WORD * |words| && l < WORD * |words|
    ensures Occupied(WithLevel(words, level, occupied), l) <==> if l == level then occupied else Occupied(words, l)
  {
    if l / WORD == level / WORD {
      SetBitAt(words[level / WORD], level % WORD, l % WORD);
      ClearBitAt(words[level / WORD], level % WORD, l % WORD);
    }
  }

  // ---- Masking by a power of two --------------------------------------------------------

  /** `x & (c - 1)` is `x % c` when c is a power of two. */
  lemma MaskIsModulo(x: nat, k: nat)
    ensures And(x, Pow2(k) - 1) == x % Pow2(k)
  {
    var q := MaskIsRemainder(x, k);
    DivModUnique(x, Pow2(k), q, And(x, Pow2(k) - 1));
  }

  lemma {:induction false} MaskIsRemainder(x: nat, k: nat) returns (q: nat)
    ensures x == Pow2(k) * q + And(x, Pow2(k) - 1) && And(x, Pow2(k) - 1) < Pow2(k)
  {
    hide And;
    AndZero(x);
    if k == 0 {
      q := x;
    } else if x == 0 {
      q := 0;
    } else {
      q := MaskIsRemainder(x / 2, k - 1);
      AndDouble(x, Pow2(k - 1));
      DoubleProduct(Pow2(k - 1), q);
    }
  }

  lemma AndZero(x: nat)
    ensures And(x, 0) == 0 && forall y: nat :: And(0, y) == 0
  {}

  lemma AndDouble(x: nat, m: nat)
    requires x > 0 && m > 0
    ensures And(x, 2 * m - 1) == 2 * And(x / 2, m - 1) + x % 2
  {
    assert (2 * m - 1) / 2 == m - 1;
  }

  lemma DoubleProduct(m: nat, q: nat)
    ensures (2 * m) * q == 2 * (m * q)
  {}

  lemma SmallMultiple(d: int, k: int)
    requires d > 0 && -d < d * k < d
    ensures k == 0
  {
  }

  lemma DivModUnique(x: int, d: int, q: int, r: int)
    requires d > 0 && x == d * q + r && 0 <= r < d
    ensures x / d == q && x % d == r
  {
    var k := x / d - q;
    assert d * k == r - x % d;
    SmallMultiple(d, k);
  }

  /** The source's static check `(c & (c - 1)) == 0` holds of powers of two only. */
  lemma {:induction false} PowerOfTwoCheck(c: nat) returns (k: nat)
    requires c > 0 && And(c, c - 1) == 0
    ensures c == Pow2(k)
  {
    if c == 1 {
      k := 0;
    } else {
      if c % 2 == 1 {
        assert (c - 1) / 2 == c / 2;
        AndSelf(c / 2);
      } else {
        assert (c - 1) / 2 == c / 2 - 1;
        var j := PowerOfTwoCheck(c / 2);
        k := j + 1;
      }
    }
  }

  lemma {:induction false} AndSelf(x: nat)
    ensures And(x, x) == x
  {
    if x > 0 {
      AndSelf(x / 2);
    }
  }
}
