/** Exact money arithmetic of the Django models. Quantities and rates are
    `DecimalField(max_digits=10, decimal_places=2)` values, kept here as whole
    numbers of hundredths; an amount is their exact product, a whole number
    of ten-thousandths; a total is the exact sum of amounts. Printing at two
    decimal places (the serializers' `DecimalField(decimal_places=2)` and
    the PDF's `:.2f`) rounds half to even, Python's default decimal
    rounding, on the magnitude and keeps the sign. */
module Money {
  import opened Common

  /** A line item as stored: quantity and rate in hundredths. */
  datatype LineItem = LineItem(quantity: int, description: string, rate: int)

  const FieldLimit: int := 10_000_000_000

  /** At most ten digits, two of them after the point. */
  predicate FitsField(hundredths: int) {
    -FieldLimit < hundredths < FieldLimit
  }

  predicate ValidItem(item: LineItem) {
    FitsField(item.quantity) && FitsField(item.rate)
  }

  /** `LineItem.amount`: quantity times rate, exactly, in ten-thousandths. */
  function Amount(item: LineItem): (a: int)
    ensures a as real / 10000.0 == (item.quantity as real / 100.0) * (item.rate as real / 100.0)
  {
    item.quantity * item.rate
  }

  /** `PurchaseOrder.total_amount`: the sum of the amounts, 0 for none. */
  function Total(items: seq<LineItem>): int {
    if items == [] then 0 else Total(items[..|items| - 1]) + Amount(items[|items| - 1])
  }

  lemma {:induction false} TotalAppend(items: seq<LineItem>, extra: seq<LineItem>)
    ensures Total(items + extra) == Total(items) + Total(extra)
    decreases |extra|
  {
    if extra == [] {
      assert items + extra == items;
    } else {
      var last := extra[|extra| - 1];
      assert (items + extra)[..|items + extra| - 1] == items + extra[..|extra| - 1];
      TotalAppend(items, extra[..|extra| - 1]);
    }
  }

  lemma {:induction false} TotalSingle(item: LineItem)
    ensures Total([item]) == Amount(item)
  {
    assert [item][..0] == [];
  }

  lemma {:induction false} TotalOfConsume(items: seq<LineItem>)
    requires items != []
    ensures Total(items) == Amount(items[0]) + Total(items[1..])
  {
    assert items == [items[0]] + items[1..];
    TotalAppend([items[0]], items[1..]);
    TotalSingle(items[0]);
  }

  /** The total does not depend on the order in which the many-to-many
      relation returns the items. */
  lemma {:induction false} TotalPermutation(a: seq<LineItem>, b: seq<LineItem>)
    requires multiset(a) == multiset(b)
    ensures Total(a) == Total(b)
    decreases |a|
  {
    if a == [] {
      assert |b| == |multiset(b)| == 0;
    } else {
      var x := a[0];
      assert x in multiset(b);
      var k :| 0 <= k < |b| && b[k] == x;
      var rest := b[..k] + b[k + 1..];
      RemoveMatching(a, b, k);
      TotalPermutation(a[1..], rest);
      TotalOfConsume(a);
      TotalWithout(b, k);
    }
  }

  /** Taking the first element of `a` and a matching element of `b` leaves
      equal multisets. */
  lemma {:induction false} RemoveMatching<T>(a: seq<T>, b: seq<T>, k: nat)
    requires multiset(a) == multiset(b) && a != [] && k < |b| && b[k] == a[0]
    ensures multiset(a[1..]) == multiset(b[..k] + b[k + 1..])
  {
    var x := a[0];
    var rest := b[..k] + b[k + 1..];
    assert a == [x] + a[1..];
    assert b == b[..k] + [x] + b[k + 1..];
    assert multiset(b) == multiset(b[..k]) + multiset{x} + multiset(b[k + 1..]);
    assert multiset(rest) == multiset(b[..k]) + multiset(b[k + 1..]);
    assert multiset{x} + multiset(a[1..]) == multiset{x} + multiset(rest);
    assert multiset(a[1..]) == (multiset{x} + multiset(a[1..])) - multiset{x};
    assert multiset(rest) == (multiset{x} + multiset(rest)) - multiset{x};
  }

  /** The total with one element removed. */
  lemma {:induction false} TotalWithout(b: seq<LineItem>, k: nat)
    requires k < |b|
    ensures Total(b) == Total(b[..k] + b[k + 1..]) + Amount(b[k])
  {
    assert b == b[..k] + [b[k]] + b[k + 1..];
    TotalAppend(b[..k] + [b[k]], b[k + 1..]);
    TotalAppend(b[..k], [b[k]]);
    TotalAppend(b[..k], b[k + 1..]);
    TotalSingle(b[k]);
  }

  // ---------------------------------------------------------------------
  // Two-decimal rendering

  /** Round a non-negative number of ten-thousandths to hundredths, half to
      even. */
  function RoundHalfEven(x: nat): (h: nat)
    ensures -50 <= x - 100 * h <= 50
    ensures x - 100 * h == 50 ==> h % 2 == 0
    ensures x - 100 * h == -50 ==> h % 2 == 0
  {
    var q, r := x / 100, x % 100;
    if r > 50 || (r == 50 && q % 2 == 1) then q + 1 else q
  }

  /** The conditions on `RoundHalfEven` pin its result down. */
  lemma {:induction false} RoundHalfEvenUnique(x: nat, h: nat)
    requires -50 <= x - 100 * h <= 50
    requires x - 100 * h == 50 ==> h % 2 == 0
    requires x - 100 * h == -50 ==> h % 2 == 0
    ensures h == RoundHalfEven(x)
  {
    var g := RoundHalfEven(x);
    assert -100 <= 100 * g - 100 * h <= 100;
  }

  /** Whole cents are printed unchanged. */
  lemma {:induction false} RoundWholeCents(c: nat)
    ensures RoundHalfEven(100 * c) == c
  {
    RoundHalfEvenUnique(100 * c, c);
  }

  function Abs(x: int): nat {
    if x < 0 then -x else x
  }

  /** The signed amount in hundredths that `quantize(Decimal('0.01'))` keeps. */
  function Quantize(x: int): int {
    var m: int := RoundHalfEven(Abs(x));
    if x < 0 then -m else m
  }

  /** `{:f}` of a two-place decimal given by its sign and its magnitude in
      hundredths. */
  function Digits2(negative: bool, magnitude: nat): string {
    (if negative then "-" else "") + Unsigned2(magnitude)
  }

  /** `digits.dd` for a whole number of hundredths. */
  function Unsigned2(magnitude: nat): string {
    NatToString(magnitude / 100) + "." + Pad2(magnitude % 100)
  }

  /** A ten-thousandths amount printed at two places, as the serializers and
      the PDF print amounts and totals. */
  function AmountText(x: int): string {
    Digits2(x < 0, RoundHalfEven(Abs(x)))
  }

  /** A hundredths value (a quantity or a rate) printed at two places. */
  function CentsText(h: int): string {
    Digits2(h < 0, Abs(h))
  }

  /** Reads back `digits.dd`. */
  function ParseUnsigned2(body: string): Option<nat> {
    if |body| >= 4 && body[|body| - 3] == '.' && AllDigits(body[..|body| - 3])
       && AllDigits(body[|body| - 2..]) then
      Some(DigitsValue(body[..|body| - 3]) * 100 + DigitsValue(body[|body| - 2..]))
    else None
  }

  /** Reads back `[-]digits.dd`. */
  function ParseDigits2(s: string): Option<int> {
    if |s| > 0 && s[0] == '-' then
      match ParseUnsigned2(s[1..])
      case Some(m) => var v: int := -(m as int); Some(v)
      case None => None
    else
      match ParseUnsigned2(s)
      case Some(m) => Some(m)
      case None => None
  }

  lemma {:induction false} ParseUnsignedOfDigits2(m: nat)
    ensures ParseUnsigned2(Unsigned2(m)) == Some(m)
    ensures Unsigned2(m)[0] != '-'
  {
    var a, p := NatToString(m / 100), Pad2(m % 100);
    NatToStringRoundTrip(m / 100);
    NatToStringShape(m / 100);
    Pad2Facts(m % 100);
    var body := Unsigned2(m);
    assert body == a + "." + p;
    assert |body| == |a| + 3;
    assert body[|a|] == '.';
    assert body[..|a|] == a;
    assert body[|a| + 1..] == p;
    assert body[0] == a[0];
    assert DigitsValue(a) * 100 + DigitsValue(p) == m;
  }

  /** A sign prefix reads back as negation. */
  lemma {:induction false} ParseSigned2(negative: bool, m: nat)
    ensures ParseDigits2(Digits2(negative, m)) == Some(if negative then -(m as int) else m as int)
    ensures (Digits2(negative, m)[0] == '-') == negative
  {
    ParseUnsignedOfDigits2(m);
    ParseSignedBody(negative, Unsigned2(m), m);
  }

  /** A sign in front of any unsigned text that reads back. */
  lemma {:induction false} ParseSignedBody(negative: bool, body: string, m: nat)
    requires ParseUnsigned2(body) == Some(m) && body[0] != '-'
    ensures ParseDigits2((if negative then "-" else "") + body) == Some(if negative then -(m as int) else m as int)
    ensures (((if negative then "-" else "") + body)[0] == '-') == negative
  {
    var s := (if negative then "-" else "") + body;
    if negative {
      assert s[0] == '-';
      assert s[1..] == body;
    } else {
      assert s == body;
    }
  }

  /** Printing a value of whole cents loses nothing. */
  lemma {:induction false} CentsTextRoundTrip(h: int)
    ensures ParseDigits2(CentsText(h)) == Some(h)
  {
    ParseSigned2(h < 0, Abs(h));
  }

  /** A printed amount reads back to the half-even rounding of its
      magnitude, with the amount's sign. */
  lemma {:induction false} AmountTextRounds(x: int)
    ensures ParseDigits2(AmountText(x)) == Some(if x < 0 then -(RoundHalfEven(-x) as int) else RoundHalfEven(x) as int)
  {
    ParseSigned2(x < 0, RoundHalfEven(Abs(x)));
  }

  /** A printed amount is within half a cent of the exact amount, and has
      the exact amount's sign. */
  lemma {:induction false} AmountTextClose(x: int)
    ensures exists h :: ParseDigits2(AmountText(x)) == Some(h) && -50 <= x - 100 * h <= 50
    ensures (AmountText(x)[0] == '-') == (x < 0)
  {
    var m := RoundHalfEven(Abs(x));
    ParseSigned2(x < 0, m);
    var h: int := if x < 0 then -(m as int) else m;
    assert ParseDigits2(AmountText(x)) == Some(h);
  }

  /** Rounding the total once is not the sum of the rounded rows: two rows
      of 0.50 at 0.01 are each 0.0050, printed 0.00, while their total 0.0100
      prints 0.01. The model's total sums exact amounts. */
  lemma {:induction false} RoundOnceDiffersFromRoundEach()
    ensures var items := [LineItem(50, "a", 1), LineItem(50, "b", 1)];
            Quantize(Total(items)) == 1 &&
            Quantize(Amount(items[0])) + Quantize(Amount(items[1])) == 0
  {
    var items := [LineItem(50, "a", 1), LineItem(50, "b", 1)];
    TotalAppend([items[0]], [items[1]]);
    assert items == [items[0]] + [items[1]];
    TotalSingle(items[0]);
    TotalSingle(items[1]);
  }
}
