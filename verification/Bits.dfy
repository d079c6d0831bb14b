/** Binary digits of natural numbers, and what shifting words into place and or-ing them together yields. */
module Bits {
  import opened Bytes

  function Bit(x: nat, k: nat): bool
    decreases k
  {
    if k == 0 then x % 2 == 1 else Bit(x / 2, k - 1)
  }

  function Pow2(m: nat): nat {
    if m == 0 then 1 else 2 * Pow2(m - 1)
  }

  /** Digits below `m` are those of `low`, the others those of `high`, moved up. */
  lemma {:induction false} JoinBits(high: nat, low: nat, m: nat, k: nat)
    requires low < Pow2(m)
    ensures Bit(high * Pow2(m) + low, k) == (if k < m then Bit(low, k) else Bit(high, k - m))
    decreases m
  {
    if m > 0 {
      var p, x := high * Pow2(m - 1), high * Pow2(m) + low;
      assert high * Pow2(m) == 2 * p;
      assert x % 2 == low % 2 && x / 2 == p + low / 2;
      if k > 0 {
        JoinBits(high, low / 2, m - 1, k - 1);
      }
    }
  }

  lemma {:induction false} ZeroBits(k: nat)
    ensures !Bit(0, k)
  {
    if k > 0 { ZeroBits(k - 1); }
  }

  /** A number is determined by its digits. */
  lemma {:induction false} BitsUnique(x: nat, y: nat)
    requires forall k: nat :: Bit(x, k) == Bit(y, k)
    ensures x == y
    decreases x + y
  {
    assert Bit(x, 0) == Bit(y, 0);
    if x + y > 0 {
      forall k: nat ensures Bit(x / 2, k) == Bit(y / 2, k) {
        assert Bit(x, k + 1) == Bit(y, k + 1);
      }
      BitsUnique(x / 2, y / 2);
    }
  }

  // ---- words ----

  /** The number that a list of words, the most significant first, stands for. */
  function Value(words: seq<word>): nat {
    if words == [] then 0 else Value(words[..|words| - 1]) * 0x1_0000 + words[|words| - 1]
  }

  /** Digit `k` of the words, each shifted to its place, or-ed together. */
  ghost predicate OrBit(words: seq<word>, k: nat) {
    exists i :: 0 <= i < |words| && ShiftedBit(words[i], 16 * (|words| - 1 - i), k)
  }

  /** Digit `k` of a word shifted left. */
  predicate ShiftedBit(w: word, shift: nat, k: nat) {
    k >= shift && Bit(w, k - shift)
  }

  ghost predicate IsShiftOr(x: nat, words: seq<word>) {
    forall k: nat :: Bit(x, k) <==> OrBit(words, k)
  }

  lemma WordBits(w: word, k: nat)
    requires k >= 16
    ensures !Bit(w, k)
  {
    Pow16();
    hide Bit, Pow2;
    assert 0 * Pow2(16) + w == w;
    JoinBits(0, w, 16, k);
    ZeroBits(k - 16);
  }

  lemma Pow16()
    ensures Pow2(16) == 0x1_0000
  {
    assert Pow2(4) == 16;
    assert Pow2(8) == 16 * Pow2(4);
    assert Pow2(12) == 16 * Pow2(8);
  }

  lemma OrBitSnoc(words: seq<word>, k: nat)
    requires words != []
    ensures OrBit(words, k) <==>
      Bit(words[|words| - 1], k) || (k >= 16 && OrBit(words[..|words| - 1], k - 16))
  {
    var n, front := |words|, words[..|words| - 1];
    if OrBit(words, k) {
      var i :| 0 <= i < n && ShiftedBit(words[i], 16 * (n - 1 - i), k);
      if i < n - 1 {
        assert ShiftedBit(front[i], 16 * (n - 2 - i), k - 16);
      }
    }
    if Bit(words[n - 1], k) {
      assert ShiftedBit(words[n - 1], 16 * (n - 1 - (n - 1)), k);
    }
    if k >= 16 && OrBit(front, k - 16) {
      var i :| 0 <= i < |front| && ShiftedBit(front[i], 16 * (|front| - 1 - i), k - 16);
      assert ShiftedBit(words[i], 16 * (n - 1 - i), k);
    }
  }

  lemma {:induction false} ValueBits(words: seq<word>, k: nat)
    ensures Bit(Value(words), k) <==> OrBit(words, k)
  {
    if words == [] {
      ZeroBits(k);
    } else {
      var front, last := words[..|words| - 1], words[|words| - 1];
      Pow16();
      JoinBits(Value(front), last, 16, k);
      OrBitSnoc(words, k);
      if k >= 16 {
        ValueBits(front, k - 16);
        WordBits(last, k);
      }
    }
  }

  /** Shifting words into place and or-ing them gives their positional value and no other number. */
  lemma ShiftOrIsValue(x: nat, words: seq<word>)
    ensures IsShiftOr(x, words) <==> x == Value(words)
  {
    forall k: nat ensures Bit(Value(words), k) <==> OrBit(words, k) {
      ValueBits(words, k);
    }
    if IsShiftOr(x, words) {
      assert forall k: nat :: Bit(x, k) == Bit(Value(words), k);
      BitsUnique(x, Value(words));
    }
  }
}
