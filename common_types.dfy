/**
 * The shared value types of the trading system: top of book, symbol tick
 * tables, orders, and the small string helpers (trimming, padded copies,
 * quantities with thousands separators).
 *
 * Prices are signed 64-bit counts of 1/10,000 dollar; quantities are
 * unsigned 32-bit.
 */
module CommonTypes {
  import opened FixedWidth
  import opened Trimming

  datatype Side = Buy | Sell

  // ------------------------------------------------------------ top of book

  datatype TopOfBook = TopOfBook(bidPrice: i64, bidQuantity: u32, askPrice: i64, askQuantity: u32)

  /** The mid price, 0 when either side has no price; C++ division truncates toward zero. */
  function MidPrice(t: TopOfBook): (r: int)
    ensures t.bidPrice == 0 || t.askPrice == 0 ==> r == 0
    ensures t.bidPrice != 0 && t.askPrice != 0 && t.bidPrice + t.askPrice >= 0 ==>
      2 * r <= t.bidPrice + t.askPrice <= 2 * r + 1
    ensures t.bidPrice != 0 && t.askPrice != 0 && t.bidPrice + t.askPrice < 0 ==>
      2 * r - 1 <= t.bidPrice + t.askPrice <= 2 * r
  {
    if t.bidPrice == 0 || t.askPrice == 0 then 0 else TruncDiv(t.bidPrice + t.askPrice, 2)
  }

  /** The spread, 0 when either side has no price: otherwise what the bid must rise by to meet the ask. */
  function Spread(t: TopOfBook): (r: int)
    ensures t.bidPrice == 0 || t.askPrice == 0 ==> r == 0
    ensures t.bidPrice != 0 && t.askPrice != 0 ==> t.bidPrice + r == t.askPrice
  {
    if t.bidPrice == 0 || t.askPrice == 0 then 0 else t.askPrice - t.bidPrice
  }

  /** Crossed: both sides priced, and the spread is not positive. */
  predicate IsCrossed(t: TopOfBook)
    ensures IsCrossed(t) <==> t.bidPrice > 0 && t.askPrice > 0 && Spread(t) <= 0
  {
    t.bidPrice > 0 && t.askPrice > 0 && t.bidPrice >= t.askPrice
  }

  /** Empty: no shares quoted on either side, whatever the prices. */
  predicate IsEmpty(t: TopOfBook)
    ensures IsEmpty(t) <==> t.bidQuantity + t.askQuantity == 0
  {
    t.bidQuantity == 0 && t.askQuantity == 0
  }

  /** An uncrossed book with both prices has its mid price between them. */
  lemma MidPriceBetween(t: TopOfBook)
    requires 0 < t.bidPrice <= t.askPrice
    ensures t.bidPrice <= MidPrice(t) <= t.askPrice
    ensures MidPrice(t) == t.bidPrice + Spread(t) / 2
  {
  }

  // ---------------------------------------------------------- symbol spec

  datatype SymbolSpec = SymbolSpec(symbol: string, tickSize: i64, minPrice: i64, maxPrice: i64, lotSize: u32, stockLocate: u16)

  /** The defaults: tick 1, prices 0..999,999,999, lot 1. */
  function DefaultSpec(symbol: string): SymbolSpec
  {
    SymbolSpec(symbol, 1, 0, 999_999_999, 1, 0)
  }

  /** Under the default spec every price from 0 to 999,999,999 is valid and already on a tick. */
  lemma DefaultSpecPrices(symbol: string, price: i64)
    ensures IsValidPrice(DefaultSpec(symbol), price) <==> 0 <= price <= 999_999_999
    ensures RoundToTick(DefaultSpec(symbol), price) == price
  {
  }

  /** The C++ remainder is zero exactly when the divisor divides the dividend. */
  lemma RemainderZeroIffDivides(a: int, b: int)
    requires b != 0
    ensures TruncRem(a, b) == 0 <==> a % Abs(b) == 0
  {
    var q := TruncDiv(a, b);
    var m := if b > 0 then q else -q;
    var rem := TruncRem(a, b);
    assert a - rem == m * Abs(b);
    if rem == 0 {
      ModOfMultiple(m, Abs(b));
    } else if a >= 0 {
      ModUnique(a, Abs(b), m, rem);
    } else {
      assert a == (m - 1) * Abs(b) + (rem + Abs(b));
      ModUnique(a, Abs(b), m - 1, rem + Abs(b));
    }
  }

  /**
   * In range and on a tick. The C++ remainder takes the price's sign, but it
   * is zero exactly when the tick divides the price.
   */
  predicate IsValidPrice(spec: SymbolSpec, price: i64)
    requires spec.tickSize != 0
    ensures IsValidPrice(spec, price) <==>
      spec.minPrice <= price <= spec.maxPrice && price % Abs(spec.tickSize) == 0
  {
    RemainderZeroIffDivides(price, spec.tickSize);
    if price < spec.minPrice || price > spec.maxPrice then false
    else TruncRem(price, spec.tickSize) == 0
  }

  /**
   * The truncated quotient times the divisor is a multiple of the divisor
   * between zero and the dividend.
   */
  lemma TruncatedMultiple(a: int, b: int)
    requires b != 0
    ensures var r := TruncDiv(a, b) * b;
      && r % Abs(b) == 0
      && (a >= 0 ==> 0 <= r <= a)
      && (a < 0 ==> a <= r <= 0)
      && Abs(a - r) < Abs(b)
  {
    if b > 0 {
      TruncatedMultipleOf(a, b);
    } else {
      TruncDivByNegative(a, b);
      TruncatedMultipleOf(a, -b);
    }
  }

  /** Dividing by a negative divisor is dividing by its magnitude and negating. */
  lemma TruncDivByNegative(a: int, b: int)
    requires b < 0
    ensures TruncDiv(a, b) * b == TruncDiv(a, -b) * -b
  {
    var t := TruncDiv(a, -b);
    assert TruncDiv(a, b) == -t;
    assert (-t) * b == t * -b;
  }

  lemma TruncatedMultipleOf(a: int, d: int)
    requires d > 0
    ensures var r := TruncDiv(a, d) * d;
      && r % d == 0
      && (a >= 0 ==> 0 <= r <= a)
      && (a < 0 ==> a <= r <= 0)
      && -d < a - r < d
  {
    if a >= 0 {
      TruncatedMultipleOfNonNegative(a, d);
    } else {
      TruncatedMultipleOfNegative(a, d);
    }
  }

  lemma TruncatedMultipleOfNonNegative(a: int, d: int)
    requires d > 0 && a >= 0
    ensures var r := TruncDiv(a, d) * d;
      && r % d == 0
      && 0 <= r <= a
      && -d < a - r < d
  {
    var k := a / d;
    assert TruncDiv(a, d) == k;
    ModOfMultiple(k, d);
    MulNonNeg(k, d);
  }

  lemma TruncatedMultipleOfNegative(a: int, d: int)
    requires d > 0 && a < 0
    ensures var r := TruncDiv(a, d) * d;
      && r % d == 0
      && a <= r <= 0
      && -d < a - r < d
  {
    var k := (-a) / d;
    assert TruncDiv(a, d) == -k;
    assert (-k) * d == -(k * d);
    ModOfMultiple(-k, d);
    MulNonNeg(k, d);
  }

  /**
   * round_to_tick: a multiple of the tick, on the same side of zero as the
   * price, no farther from zero, and less than one tick away from it. This is
   * rounding toward zero, not to the nearest tick.
   */
  function RoundToTick(spec: SymbolSpec, price: i64): (r: int)
    requires spec.tickSize != 0
    ensures r % Abs(spec.tickSize) == 0
    ensures price >= 0 ==> 0 <= r <= price
    ensures price < 0 ==> price <= r <= 0
    ensures Abs(price - r) < Abs(spec.tickSize)
  {
    TruncatedMultiple(price, spec.tickSize);
    TruncDiv(price, spec.tickSize) * spec.tickSize
  }

  /** A price is valid exactly when it is in range and already on a tick. */
  lemma ValidIffOnTick(spec: SymbolSpec, price: i64)
    requires spec.tickSize != 0
    ensures IsValidPrice(spec, price)
        <==> spec.minPrice <= price <= spec.maxPrice && RoundToTick(spec, price) == price
  {
  }

  lemma MulNonNeg(a: nat, b: nat)
    ensures a * b >= 0
  {
  }

  lemma ModOfMultiple(q: int, t: int)
    requires t > 0
    ensures (q * t) % t == 0
  {
    ModUnique(q * t, t, q, 0);
  }

  /** Rounding an already rounded price changes nothing. */
  lemma RoundToTickIdempotent(spec: SymbolSpec, price: i64)
    requires spec.tickSize > 0 && price >= 0
    ensures RoundToTick(spec, price) <= price
    ensures RoundToTick(spec, RoundToTick(spec, price)) == RoundToTick(spec, price)
  {
    var r := RoundToTick(spec, price);
    var q := price / spec.tickSize;
    MulNonNeg(q, spec.tickSize);
    assert r == q * spec.tickSize;
    ModUnique(r, spec.tickSize, q, 0);
  }

  // ---------------------------------------------------------------- orders

  datatype OrderStatus = PendingNew | Accepted | PartialFill | Filled | Canceled | Rejected | Expired

  datatype Order = Order(id: u64, symbol: string, side: Side, price: i64, quantity: u32, filledQuantity: u32, status: OrderStatus)

  /**
   * Unsigned 32-bit subtraction: with the filled shares it makes up the
   * quantity, modulo 2^32, so it wraps when more was filled than ordered.
   */
  function Remaining(o: Order): (r: u32)
    ensures r + o.filledQuantity == o.quantity || r + o.filledQuantity == o.quantity + TWO_32
  {
    Sub32(o.quantity, o.filledQuantity)
  }

  /** Not filled exactly when a positive remainder and the filled shares make up the order. */
  predicate IsFilled(o: Order)
    ensures !IsFilled(o) <==> Remaining(o) > 0 && Remaining(o) + o.filledQuantity == o.quantity
  {
    o.filledQuantity >= o.quantity
  }

  /** An order that is not filled has remaining shares that, with the filled ones, make up the order. */
  lemma RemainingOfUnfilled(o: Order)
    ensures !IsFilled(o) ==> Remaining(o) > 0 && Remaining(o) + o.filledQuantity == o.quantity
    ensures IsFilled(o) ==> (Remaining(o) == 0 <==> o.filledQuantity == o.quantity)
    ensures o.filledQuantity > o.quantity ==> Remaining(o) == TWO_32 - (o.filledQuantity - o.quantity)
  {
  }

  // ------------------------------------------------------------ trimming

  const WHITESPACE: set<char> := {' ', '\t', '\n', '\r'}

  /** The first index at or after `from` whose character is not in `pads`, or `|s|`. */
  function FirstNotIn(s: string, pads: set<char>, from: nat): (i: nat)
    requires from <= |s|
    ensures from <= i <= |s|
    ensures forall k :: from <= k < i ==> s[k] in pads
    ensures i < |s| ==> s[i] !in pads
    decreases |s| - from
  {
    if from == |s| || s[from] !in pads then from else FirstNotIn(s, pads, from + 1)
  }

  /**
   * Whitespace removed from both ends; empty when nothing else is left. The
   * end of the kept text is the last non-whitespace character.
   */
  function Trim(s: string): (r: string)
    ensures r == [] <==> forall k :: 0 <= k < |s| ==> s[k] in WHITESPACE
    ensures r != [] ==> r[0] !in WHITESPACE && r[|r| - 1] !in WHITESPACE
  {
    var start := FirstNotIn(s, WHITESPACE, 0);
    if start == |s| then []
    else
      var t := StripTrailing(s, WHITESPACE);
      assert |t| > start && t[|t| - 1] == s[|t| - 1];
      var end := |t| - 1;
      s[start..end + 1]
  }

  /** `Trim` keeps one contiguous piece, surrounded only by whitespace, that starts and ends with other characters. */
  lemma TrimShape(s: string)
    ensures var r := Trim(s); var a := FirstNotIn(s, WHITESPACE, 0);
      && (r == [] <==> forall k :: 0 <= k < |s| ==> s[k] in WHITESPACE)
      && (r != [] ==>
            && a + |r| <= |s| && r == s[a..a + |r|]
            && (forall k :: 0 <= k < a ==> s[k] in WHITESPACE)
            && (forall k :: a + |r| <= k < |s| ==> s[k] in WHITESPACE)
            && r[0] !in WHITESPACE && r[|r| - 1] !in WHITESPACE)
  {
    var a := FirstNotIn(s, WHITESPACE, 0);
    var t := StripTrailing(s, WHITESPACE);
    if a < |s| {
      assert |t| > a;
      assert t[|t| - 1] == s[|t| - 1];
    }
  }

  lemma TrimIdempotent(s: string)
    ensures Trim(Trim(s)) == Trim(s)
  {
    TrimShape(s);
    var r := Trim(s);
    if r != [] {
      assert FirstNotIn(r, WHITESPACE, 0) == 0;
      StripTrailingUnique(r, WHITESPACE, |r|);
      assert r[0..|r|] == r;
    }
  }

  lemma TrimExample()
    ensures Trim(" \tAAPL \r\n") == "AAPL"
    ensures Trim(" \t\n\r") == ""
  {
    var s := " \tAAPL \r\n";
    assert s[2] == 'A' && FirstNotIn(s, WHITESPACE, 2) == 2;
    assert FirstNotIn(s, WHITESPACE, 1) == 2;
    assert FirstNotIn(s, WHITESPACE, 0) == 2;
    StripTrailingUnique(s, WHITESPACE, 6);
    assert s[2..6] == "AAPL";
    var w := " \t\n\r";
    assert FirstNotIn(w, WHITESPACE, 3) == 4;
    assert FirstNotIn(w, WHITESPACE, 1) == 4;
    assert FirstNotIn(w, WHITESPACE, 0) == 4;
  }

  // ---------------------------------------------------------- padded copy

  /** `src` cut or padded to exactly `size` characters. */
  function Padded<T>(src: seq<T>, size: nat, pad: T): (r: seq<T>)
    ensures |r| == size
  {
    var n := if |src| < size then |src| else size;
    src[..n] + seq(size - n, _ => pad)
  }

  /** Copies the first `min(|src|, dest.Length)` characters and pads the rest. */
  method CopyPadded(dest: array<char8>, src: seq<char8>, pad: char8)
    modifies dest
    ensures dest[..] == Padded(src, dest.Length, pad)
  {
    var copyLen := if |src| < dest.Length then |src| else dest.Length;
    if copyLen > 0 {
      forall i | 0 <= i < copyLen {
        dest[i] := src[i];
      }
    }
    if copyLen < dest.Length {
      forall i | copyLen <= i < dest.Length {
        dest[i] := pad;
      }
    }
    assert dest[..] == Padded(src, dest.Length, pad) by {
      var p := Padded(src, dest.Length, pad);
      forall i | 0 <= i < dest.Length ensures dest[i] == p[i] {
      }
    }
  }

  /** Padding with spaces and then trimming trailing spaces gives back text that fits and does not end in a space. */
  lemma PaddedThenTrimmed<T>(src: seq<T>, size: nat, space: T)
    requires |src| <= size
    requires |src| == 0 || src[|src| - 1] != space
    ensures StripTrailing(Padded(src, size, space), {space}) == src
  {
    var p := Padded(src, size, space);
    assert p[..|src|] == src;
    StripTrailingUnique(p, {space}, |src|);
  }

  // ------------------------------------------------------ quantity format

  function DigitChar(d: nat): char
    requires d < 10
  {
    ['0', '1', '2', '3', '4', '5', '6', '7', '8', '9'][d]
  }

  /** `std::to_string` of a non-negative number. */
  function DecimalString(n: nat): (s: string)
    ensures 1 <= |s|
    ensures forall k :: 0 <= k < |s| ==> s[k] != ','
    ensures forall k :: 0 <= k < |s| ==> '0' <= s[k] <= '9'
    ensures n < 10 ==> |s| == 1
    ensures n < 100 ==> |s| <= 2
    ensures n < 1000 ==> |s| <= 3
  {
    if n < 10 then [DigitChar(n)] else DecimalString(n / 10) + [DigitChar(n % 10)]
  }

  /** The number a string of decimal digits spells, most significant digit first. */
  function DigitsValue(s: string): int
  {
    if |s| == 0 then 0 else DigitsValue(s[..|s| - 1]) * 10 + (s[|s| - 1] as int - '0' as int)
  }

  lemma DigitCharValue(d: nat)
    requires d < 10
    ensures DigitChar(d) as int - '0' as int == d
  {
  }

  /** std::to_string spells the number: its digits read back as `n`. */
  lemma {:induction false} DecimalStringValue(n: nat)
    ensures DigitsValue(DecimalString(n)) == n
  {
    if n < 10 {
      DigitCharValue(n);
      assert DecimalString(n)[..0] == [];
    } else {
      var s := DecimalString(n / 10) + [DigitChar(n % 10)];
      assert s[..|s| - 1] == DecimalString(n / 10);
      DecimalStringValue(n / 10);
      DigitCharValue(n % 10);
    }
  }

  /** Digits with a comma in front of every group of three counted from the right. */
  function Grouped(d: string): (r: string)
    decreases |d|
  {
    if |d| == 0 then []
    else [d[0]] + (if |d| > 1 && (|d| - 1) % 3 == 0 then [','] else []) + Grouped(d[1..])
  }

  function WithoutCommas(s: string): string
  {
    if |s| == 0 then [] else (if s[0] == ',' then [] else [s[0]]) + WithoutCommas(s[1..])
  }

  /** Removing the separators gives back the digits. */
  lemma {:induction false} GroupedRoundTrip(d: string)
    requires forall k :: 0 <= k < |d| ==> d[k] != ','
    ensures WithoutCommas(Grouped(d)) == d
    decreases |d|
  {
    if |d| > 0 {
      var sep: string := if |d| > 1 && (|d| - 1) % 3 == 0 then [','] else [];
      GroupedRoundTrip(d[1..]);
      WithoutCommasAppend([d[0]] + sep, Grouped(d[1..]));
      WithoutCommasAppend([d[0]], sep);
      assert WithoutCommas([d[0]]) == [d[0]];
      assert [d[0]] + d[1..] == d;
    }
  }

  lemma {:induction false} WithoutCommasAppend(a: string, b: string)
    ensures WithoutCommas(a + b) == WithoutCommas(a) + WithoutCommas(b)
    decreases |a|
  {
    if |a| > 0 {
      assert (a + b)[1..] == a[1..] + b;
      WithoutCommasAppend(a[1..], b);
    } else {
      assert a + b == b;
    }
  }

  /** Up to three digits get no separator. */
  lemma {:induction false} ShortGroupedIsPlain(d: string)
    requires |d| <= 3
    ensures Grouped(d) == d
    decreases |d|
  {
    if |d| > 0 {
      ShortGroupedIsPlain(d[1..]);
      assert [d[0]] + d[1..] == d;
    }
  }

  /** `Grouped` writes `|d| - 1` over 3 separators in all. */
  lemma {:induction false} GroupedLength(d: string)
    requires |d| > 0
    ensures |Grouped(d)| == |d| + (|d| - 1) / 3
    decreases |d|
  {
    if |d| > 1 {
      GroupedLength(d[1..]);
    }
  }

  /**
   * Walks the digits from the right, putting a comma in front before every
   * digit that starts a new group of three.
   */
  method FormatQuantity(qty: u32) returns (s: string)
    ensures s == Grouped(DecimalString(qty))
    ensures qty < 1000 ==> s == DecimalString(qty)
  {
    var num := DecimalString(qty);
    if qty < 1000 {
      ShortGroupedIsPlain(num);
      return num;
    }
    var result: string := [];
    var count := 0;
    while count < |num|
      invariant 0 <= count <= |num|
      invariant result == Grouped(num[|num| - count..])
    {
      var c := num[|num| - count - 1];
      var suffix := num[|num| - count..];
      assert num[|num| - count - 1..] == [c] + suffix;
      assert ([c] + suffix)[1..] == suffix;
      if count > 0 && count % 3 == 0 {
        result := [','] + result;
      }
      result := [c] + result;
      count := count + 1;
    }
    assert num[0..] == num;
    s := result;
  }

  lemma FormatQuantityExample()
    ensures Grouped("1234567") == "1,234,567"
  {
    var d := "1234567";
    assert Grouped(d[6..]) == "7";
    assert Grouped(d[5..]) == "67";
    assert Grouped(d[4..]) == "567";
    assert Grouped(d[3..]) == "4,567";
    assert Grouped(d[2..]) == "34,567";
    assert Grouped(d[1..]) == "234,567";
  }
}
