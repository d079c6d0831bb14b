/** Small notions shared by the components: an optional value, the subsequence order on
    sequences, decimal rendering of natural numbers, and 64-bit arithmetic. */
module Common {

  datatype Option<+T> = None | Some(value: T)

  /** `xs` is obtained from `ys` by deleting elements. */
  ghost predicate Subsequence<T>(xs: seq<T>, ys: seq<T>) {
    if xs == [] then true
    else if ys == [] then false
    else (xs[0] == ys[0] && Subsequence(xs[1..], ys[1..])) || Subsequence(xs, ys[1..])
  }

  lemma {:induction false} SubsequenceSkip<T>(xs: seq<T>, prefix: seq<T>, ys: seq<T>)
    requires Subsequence(xs, ys)
    ensures Subsequence(xs, prefix + ys)
  {
    if prefix == [] {
      assert prefix + ys == ys;
    } else {
      SubsequenceSkip(xs, prefix[1..], ys);
      assert (prefix + ys)[1..] == prefix[1..] + ys;
    }
  }

  lemma {:induction false} SubsequenceAppend<T>(xs: seq<T>, ys: seq<T>, us: seq<T>, vs: seq<T>)
    requires Subsequence(xs, ys) && Subsequence(us, vs)
    ensures Subsequence(xs + us, ys + vs)
    decreases |ys|
  {
    if xs == [] {
      assert xs + us == us;
      SubsequenceSkip(us, ys, vs);
    } else if xs[0] == ys[0] && Subsequence(xs[1..], ys[1..]) {
      SubsequenceAppend(xs[1..], ys[1..], us, vs);
      assert (xs + us)[1..] == xs[1..] + us && (ys + vs)[1..] == ys[1..] + vs;
    } else {
      SubsequenceAppend(xs, ys[1..], us, vs);
      assert (ys + vs)[1..] == ys[1..] + vs;
    }
  }

  /** There are places in `ys`, in order, where the elements of `xs` stand. */
  lemma {:induction false} SubsequencePlaces<T>(xs: seq<T>, ys: seq<T>) returns (at: seq<nat>)
    requires Subsequence(xs, ys)
    ensures |at| == |xs| && (forall i :: 0 <= i < |at| ==> at[i] < |ys| && ys[at[i]] == xs[i])
    ensures forall i, k :: 0 <= i < k < |at| ==> at[i] < at[k]
    decreases |ys|
  {
    if xs == [] {
      at := [];
    } else if xs[0] == ys[0] && Subsequence(xs[1..], ys[1..]) {
      var rest := SubsequencePlaces(xs[1..], ys[1..]);
      at := [0] + seq(|rest|, i requires 0 <= i < |rest| => rest[i] + 1);
    } else {
      var rest := SubsequencePlaces(xs, ys[1..]);
      at := seq(|rest|, i requires 0 <= i < |rest| => rest[i] + 1);
    }
  }

  /** The decimal digits of `n`, as `%d` prints a non-negative integer. */
  function Decimal(n: nat): (s: string)
    ensures |s| >= 1
    ensures n >= 10 ==> |s| >= 2
  {
    if n < 10 then [Digit(n)] else Decimal(n / 10) + [Digit(n % 10)]
  }

  function Digit(d: nat): char
    requires d < 10
  {
    "0123456789"[d]
  }

  predicate IsDigits(s: string) {
    forall i :: 0 <= i < |s| ==> '0' <= s[i] <= '9'
  }

  /** The number that decimal digits stand for. */
  function ReadDigits(s: string): nat
    requires IsDigits(s)
  {
    if s == "" then 0 else ReadDigits(s[..|s| - 1]) * 10 + (s[|s| - 1] - '0') as nat
  }

  lemma DigitValue(d: nat)
    requires d < 10
    ensures '0' <= Digit(d) <= '9' && (Digit(d) - '0') as nat == d
  {
    var s := "0123456789";
    assert s[0] == '0' && s[1] == '1' && s[2] == '2' && s[3] == '3' && s[4] == '4';
    assert s[5] == '5' && s[6] == '6' && s[7] == '7' && s[8] == '8' && s[9] == '9';
  }

  /** The digits read back as the number, and there is no leading zero. */
  lemma {:induction false} DecimalReads(n: nat)
    ensures IsDigits(Decimal(n)) && ReadDigits(Decimal(n)) == n
    ensures n > 0 ==> Decimal(n)[0] != '0'
  {
    var s := Decimal(n);
    DigitValue(n % 10);
    if n >= 10 {
      DecimalReads(n / 10);
      assert s[..|s| - 1] == Decimal(n / 10);
    } else {
      assert s[..0] == "";
    }
  }

  lemma DecimalInjective(m: nat, n: nat)
    requires Decimal(m) == Decimal(n)
    ensures m == n
  {
    DecimalReads(m);
    DecimalReads(n);
  }

  // ---- Go's 64-bit integers ----

  type int64 = x: int | -0x8000_0000_0000_0000 <= x < 0x8000_0000_0000_0000

  function Wrap64(x: int): (r: int64)
    ensures -0x8000_0000_0000_0000 <= x < 0x8000_0000_0000_0000 ==> r == x
  {
    (x + 0x8000_0000_0000_0000) % 0x1_0000_0000_0000_0000 - 0x8000_0000_0000_0000
  }

  /** Wrapping around is reading the residue as a signed number. */
  lemma Wrap64Residue(x: int)
    ensures var r := x % 0x1_0000_0000_0000_0000;
            Wrap64(x) == if r < 0x8000_0000_0000_0000 then r else r - 0x1_0000_0000_0000_0000
  {
    var m := 0x1_0000_0000_0000_0000;
    var q, r := x / m, x % m;
    assert x == q * m + r;
    if r < 0x8000_0000_0000_0000 {
      ModOf(x + 0x8000_0000_0000_0000, m, q, r + 0x8000_0000_0000_0000);
    } else {
      ModOf(x + 0x8000_0000_0000_0000, m, q + 1, r - 0x8000_0000_0000_0000);
    }
  }

  lemma ModOf(x: int, m: int, q: int, r: int)
    requires 0 <= r < m && x == q * m + r
    ensures x % m == r
  {
    var q', r' := x / m, x % m;
    assert (q - q') * m == r' - r;
    assert q - q' >= 1 ==> (q - q') * m >= m;
    assert q - q' <= -1 ==> (q - q') * m <= -m;
  }
}
