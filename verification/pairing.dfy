/** The check digit of a WPS PIN (Wi-Fi Simple Configuration Technical Specification). */
module Pairing {
  import opened Decimal

  const PIN_LENGTH := 8

  type Digit = d: int | 0 <= d < 10

  /** The two weights alternate. */
  predicate Weight(w: int) { w == 1 || w == 3 }

  /** The alternating digit sum of a number; `w` weighs the least significant digit. */
  function WeightedSum(n: nat, w: nat): nat
    requires Weight(w)
  {
    if n == 0 then 0 else w * (n % 10) + WeightedSum(n / 10, 4 - w)
  }

  method Checksum(number: nat) returns (c: Digit)
    ensures (WeightedSum(number, 3) + c) % 10 == 0
  {
    var accumulator, value := 0, number;
    while value > 0
      invariant accumulator + WeightedSum(value, 3) == WeightedSum(number, 3)
    {
      accumulator := accumulator + 3 * (value % 10);
      value := value / 10;
      accumulator := accumulator + value % 10;
      value := value / 10;
    }
    c := (10 - accumulator % 10) % 10;
  }

  function Total(ds: seq<Digit>, w: nat): nat
    requires Weight(w)
  {
    if ds == [] then 0 else w * ds[|ds| - 1] + Total(ds[..|ds| - 1], 4 - w)
  }

  function Number(ds: seq<Digit>): nat {
    if ds == [] then 0 else 10 * Number(ds[..|ds| - 1]) + ds[|ds| - 1]
  }

  /** Leading zeros weigh nothing. */
  lemma {:induction false} SumOfNumber(ds: seq<Digit>, w: nat)
    requires Weight(w)
    ensures WeightedSum(Number(ds), w) == Total(ds, w)
  {
    if ds != [] {
      var init, last := ds[..|ds| - 1], ds[|ds| - 1];
      SumOfNumber(init, 4 - w);
      assert Number(ds) % 10 == last && Number(ds) / 10 == Number(init);
    }
  }

  /** A whole PIN, check digit last, is good when its alternating sum is a multiple of ten. */
  predicate Good(pin: seq<Digit>) {
    Total(pin, 1) % 10 == 0
  }

  function DigitsOf(s: string): (ds: seq<Digit>)
    requires AllDigits(s)
    ensures |ds| == |s|
    ensures forall k :: 0 <= k < |s| ==> ds[k] == DigitOf(s[k])
  {
    seq(|s|, k requires 0 <= k < |s| => DigitOf(s[k]))
  }

  lemma {:induction false} NumberOfDigits(s: string)
    requires AllDigits(s)
    ensures Number(DigitsOf(s)) == Value(s, 10)
  {
    if s != [] {
      NumberOfDigits(s[..|s| - 1]);
      assert DigitsOf(s)[..|s| - 1] == DigitsOf(s[..|s| - 1]);
    }
  }

  /** The weights by their places in a PIN. */
  lemma TotalByPlace(p: seq<Digit>)
    requires |p| == PIN_LENGTH
    ensures Total(p, 1) == 3 * (p[0] as int + p[2] as int + p[4] as int + p[6] as int)
                           + (p[1] as int + p[3] as int + p[5] as int + p[7] as int)
  {
    assert p[..8] == p;
    TotalOn(p, 8, 1); TotalOn(p, 7, 3); TotalOn(p, 6, 1); TotalOn(p, 5, 3);
    TotalOn(p, 4, 1); TotalOn(p, 3, 3); TotalOn(p, 2, 1); TotalOn(p, 1, 3);
  }

  lemma TotalOn(p: seq<Digit>, k: nat, w: nat)
    requires 0 < k <= |p| && Weight(w)
    ensures Total(p[..k], w) == w * p[k - 1] + Total(p[..k - 1], 4 - w)
  {
    assert p[..k][..k - 1] == p[..k - 1];
  }

  /** Accepts exactly eight digits, the first, third, fifth and seventh of which weigh three in a sum of whole tens. */
  method ValidatePairingPin(pin: string) returns (ok: bool)
    ensures ok <==> |pin| == PIN_LENGTH && AllDigits(pin) && Good(DigitsOf(pin))
    ensures |pin| == PIN_LENGTH && AllDigits(pin) ==>
              var d := DigitsOf(pin);
              ok <==> (3 * (d[0] as int + d[2] as int + d[4] as int + d[6] as int)
                       + (d[1] as int + d[3] as int + d[5] as int + d[7] as int)) % 10 == 0
  {
    if |pin| == PIN_LENGTH && AllDigits(pin) { TotalByPlace(DigitsOf(pin)); }
    if |pin| != PIN_LENGTH || !AllDigits(pin) { return false; }
    var c := Checksum(Value(pin[..7], 10));
    ok := c == DigitOf(pin[7]);
    NumberOfDigits(pin[..7]);
    SumOfNumber(DigitsOf(pin[..7]), 3);
    assert DigitsOf(pin)[..7] == DigitsOf(pin[..7]);
    assert Total(DigitsOf(pin), 1) == DigitOf(pin[7]) + WeightedSum(Value(pin[..7], 10), 3);
  }

  /** Exactly one check digit completes any leading digits. */
  lemma OneCheckDigit(leading: seq<Digit>) returns (c: Digit)
    ensures forall d: Digit :: Good(leading + [d]) <==> d == c
  {
    c := (10 - Total(leading, 3) % 10) % 10;
    forall d: Digit ensures Good(leading + [d]) <==> d == c {
      assert (leading + [d])[..|leading|] == leading;
    }
  }

  function WeightAt(fromRight: nat, w: nat): (r: nat)
    requires Weight(w)
    ensures Weight(r)
  {
    if fromRight % 2 == 0 then w else 4 - w
  }

  lemma {:induction false} TotalOfUpdate(ds: seq<Digit>, k: nat, d: Digit, w: nat)
    requires k < |ds| && Weight(w)
    ensures Total(ds[k := d], w) == Total(ds, w) + WeightAt(|ds| - 1 - k, w) * (d - ds[k])
    decreases |ds|
  {
    var init := ds[..|ds| - 1];
    if k == |ds| - 1 {
      assert ds[k := d][..|ds| - 1] == init;
    } else {
      TotalOfUpdate(init, k, d, 4 - w);
      assert ds[k := d][..|ds| - 1] == init[k := d];
    }
  }

  lemma NoMultiple(t: int, x: int)
    requires t % 10 == 0 && -10 < x < 10 && x != 0
    ensures (t + x) % 10 != 0 && (t + 3 * x) % 10 != 0
  {
  }

  lemma DoubleIsMultiple(t: int, x: int)
    requires t % 10 == 0 && -10 < x < 10 && x != 0
    ensures (t + 2 * x) % 10 == 0 <==> x == 5 || x == -5
  {
  }

  /** No wrong digit goes unnoticed. */
  lemma SingleErrorIsRejected(pin: seq<Digit>, k: nat, d: Digit)
    requires Good(pin) && k < |pin| && d != pin[k]
    ensures !Good(pin[k := d])
  {
    TotalOfUpdate(pin, k, d, 1);
    NoMultiple(Total(pin, 1), Difference(d, pin[k]));
  }

  function Difference(a: int, b: int): int { a - b }

  lemma TotalOfSwap(pin: seq<Digit>, k: nat)
    requires k + 1 < |pin|
    ensures var x := Difference(pin[k + 1], pin[k]);
            var swapped := Total(pin[k := pin[k + 1]][k + 1 := pin[k]], 1);
            if WeightAt(|pin| - 1 - k, 1) == 3 then swapped == Total(pin, 1) + 2 * x
            else swapped == Total(pin, 1) + 2 * (0 - x)
  {
    TotalOfUpdate(pin, k, pin[k + 1], 1);
    TotalOfUpdate(pin[k := pin[k + 1]], k + 1, pin[k], 1);
    assert WeightAt(|pin| - 1 - k, 1) + WeightAt(|pin| - 2 - k, 1) == 4;
  }

  /** Swapping neighbours, the check digit included, goes unnoticed exactly when they differ by five. */
  lemma SwapIsMissedExactly(pin: seq<Digit>, k: nat)
    requires Good(pin) && k + 1 < |pin| && pin[k] != pin[k + 1]
    ensures Good(pin[k := pin[k + 1]][k + 1 := pin[k]]) <==> Difference(pin[k + 1], pin[k]) in {5, -5}
  {
    var x := Difference(pin[k + 1], pin[k]);
    TotalOfSwap(pin, k);
    DoubleIsMultiple(Total(pin, 1), x);
    DoubleIsMultiple(Total(pin, 1), 0 - x);
  }
}
