// Deadline propagation: the gRPC timeout header and its decoding by the receiver. Durations are in nanoseconds.
module GrpcTimeout {
  import opened Wrappers

  const MICROSECOND := 1_000
  const MILLISECOND := 1_000_000
  const SECOND := 1_000_000_000
  const MINUTE := 60_000_000_000
  const HOUR := 3_600_000_000_000
  // One more than the largest duration of 64 bits.
  const LIMIT := 0x8000_0000_0000_0000

  // ---- Decimal numerals ----

  function Digit(n: nat): char
    requires n < 10
  {
    '0' + n as char
  }

  function Decimal(n: nat): string {
    if n < 10 then [Digit(n)] else Decimal(n / 10) + [Digit(n % 10)]
  }

  predicate Digits(s: string) {
    |s| > 0 && forall i | 0 <= i < |s| :: '0' <= s[i] <= '9'
  }

  function Number(s: string): nat
    requires forall i | 0 <= i < |s| :: '0' <= s[i] <= '9'
  {
    if s == [] then 0 else 10 * Number(s[..|s| - 1]) + (s[|s| - 1] - '0') as nat
  }

  function Power10(k: nat): nat {
    if k == 0 then 1 else 10 * Power10(k - 1)
  }

  lemma {:induction false} DecimalRoundTrip(n: nat)
    ensures Digits(Decimal(n)) && Number(Decimal(n)) == n
  {
    if n >= 10 {
      DecimalRoundTrip(n / 10);
      assert Decimal(n)[..|Decimal(n)| - 1] == Decimal(n / 10);
    }
  }

  lemma {:induction false} DecimalLength(n: nat, k: nat)
    requires 0 < k && n < Power10(k)
    ensures |Decimal(n)| <= k
  {
    assert Power10(1) == 10 * Power10(0);
    if n >= 10 {
      DecimalLength(n / 10, k - 1);
    }
  }

  // ---- The encoder ----

  function Format(d: int): string {
    if d <= 0 then "0n"
    else if d < MICROSECOND then Decimal(d) + "n"
    else if d < MILLISECOND then Decimal(d / MICROSECOND) + "u"
    else if d < SECOND then Decimal(d / MILLISECOND) + "m"
    else if d < MINUTE then Decimal(d / SECOND) + "S"
    else if d < HOUR then Decimal(d / MINUTE) + "M"
    else Decimal(d / HOUR) + "H"
  }

  // The header value written for the time remaining, if any.
  function Header(remaining: int, key: string): Option<string> {
    if remaining <= 0 then None
    else if key == "Grpc-Timeout" then Some(Format(remaining))
    else Some(Decimal(remaining / MILLISECOND))
  }

  // ---- The receiver ----

  function UnitNanos(unit: char): Option<nat> {
    match unit
    case 'n' => Some(1)
    case 'u' => Some(MICROSECOND)
    case 'm' => Some(MILLISECOND)
    case 'S' => Some(SECOND)
    case 'M' => Some(MINUTE)
    case 'H' => Some(HOUR)
    case _ => None
  }

  // The grammar of the "Requests" section of the gRPC over HTTP/2 protocol: a positive integer of at most eight digits,
  // then a unit.
  function Decode(s: string): Option<nat> {
    if |s| < 2 || |s| > 9 || !Digits(s[..|s| - 1]) then None
    else
      var value := Number(s[..|s| - 1]);
      var unit := UnitNanos(s[|s| - 1]);
      if value == 0 || unit.None? then None else Some(value * unit.value)
  }

  // ---- What the receiver reads ----

  // The coarsest unit that does not exceed the duration.
  function UnitOf(d: int): char {
    if d < MICROSECOND then 'n'
    else if d < MILLISECOND then 'u'
    else if d < SECOND then 'm'
    else if d < MINUTE then 'S'
    else if d < HOUR then 'M'
    else 'H'
  }

  // It is: every unit of the grammar that does not exceed the duration is at most as long.
  lemma UnitIsCoarsest(d: int, unit: char)
    requires 0 < d && UnitNanos(unit).Some? && UnitNanos(unit).value <= d
    ensures UnitNanos(UnitOf(d)).Some? && UnitNanos(unit).value <= UnitNanos(UnitOf(d)).value <= d
  {
  }

  // The units are those of the grammar: hours, minutes and seconds in capitals, thousandths from there on in small
  // letters.
  lemma UnitsOfTheGrammar()
    ensures UnitNanos('H') == Some(60 * UnitNanos('M').value) && UnitNanos('M') == Some(60 * UnitNanos('S').value)
    ensures UnitNanos('S') == Some(1000 * UnitNanos('m').value) && UnitNanos('m') == Some(1000 * UnitNanos('u').value)
    ensures UnitNanos('u') == Some(1000 * UnitNanos('n').value) && UnitNanos('n') == Some(1)
    ensures forall c | UnitNanos(c).Some? :: c in {'H', 'M', 'S', 'm', 'u', 'n'}
  {
  }

  lemma FormatSplits(d: int)
    requires 0 < d < LIMIT
    ensures UnitNanos(UnitOf(d)).Some?
    ensures var unit := UnitNanos(UnitOf(d)).value;
            0 < unit <= d && 0 < d / unit < 10_000_000 && Format(d) == Decimal(d / unit) + [UnitOf(d)]
  {
    hide Decimal;
  }

  lemma DecodeFormat(d: int)
    requires 0 < d < LIMIT
    ensures UnitNanos(UnitOf(d)).Some? && UnitNanos(UnitOf(d)).value > 0
    ensures |Format(d)| <= 8
    ensures Decode(Format(d)) == Some(d / UnitNanos(UnitOf(d)).value * UnitNanos(UnitOf(d)).value)
  {
    FormatSplits(d);
    var unit := UnitNanos(UnitOf(d)).value;
    var s := Format(d);
    DecimalRoundTrip(d / unit);
    assert Power10(7) == 10_000_000;
    DecimalLength(d / unit, 7);
    assert s[..|s| - 1] == Decimal(d / unit) && s[|s| - 1] == UnitOf(d);
    hide Format, Decimal, Number, UnitNanos, UnitOf, Power10;
  }

  // Every positive duration yields a timeout of the grammar; the receiver's deadline is never later than the sender's,
  // and keeps more than half of it.
  lemma NeverLongerNeverHalved(d: int)
    requires 0 < d < LIMIT
    ensures Decode(Format(d)).Some?
    ensures var v := Decode(Format(d)).value; d < 2 * v && v <= d
  {
    DecodeFormat(d);
    FormatSplits(d);
    FloorBounds(d, UnitNanos(UnitOf(d)).value);
    hide *;
  }

  lemma FloorBounds(d: nat, unit: nat)
    requires 0 < unit <= d
    ensures var v := d / unit * unit; unit <= v <= d && d < v + unit
  {
    assert d == d / unit * unit + d % unit;
    assert d / unit >= 1;
    assert (d / unit - 1) * unit >= 0;
  }

  lemma FloorMonotone(d: nat, e: nat, unit: nat)
    requires 0 < unit && d <= e
    ensures d / unit * unit <= e / unit * unit
  {
    var k, m := d / unit, e / unit;
    assert k * unit <= d by { assert d == k * unit + d % unit; }
    assert e < m * unit + unit by { assert e == m * unit + e % unit; }
    Multiples(m, k, unit);
    Multiples(k, m, unit);
    assert k == m || k < m;
  }

  lemma Multiples(a: nat, b: nat, unit: nat)
    ensures a < b ==> a * unit + unit <= b * unit
  {
    if a < b {
      AtLeastOne(b - a, unit);
      assert b * unit == a * unit + (b - a) * unit;
    }
  }

  lemma AtLeastOne(n: nat, unit: nat)
    requires n >= 1
    ensures n * unit >= unit
  {
    assert n * unit == unit + (n - 1) * unit;
  }

  // More time left is never read as less, across every change of unit.
  lemma DecodingIsMonotone(d: int, e: int)
    requires 0 < d <= e < LIMIT
    ensures Decode(Format(d)).Some? && Decode(Format(e)).Some?
    ensures Decode(Format(d)).value <= Decode(Format(e)).value
  {
    DecodeFormat(d);
    DecodeFormat(e);
    FormatSplits(d);
    FormatSplits(e);
    var unit := UnitNanos(UnitOf(e)).value;
    FloorBounds(d, UnitNanos(UnitOf(d)).value);
    FloorBounds(e, unit);
    assert UnitOf(d) == UnitOf(e) || d < unit by { hide Decode, Format; }
    if UnitOf(d) == UnitOf(e) {
      FloorMonotone(d, e, unit);
    }
    hide *;
  }

  // Forwarding what was received sends the same text: only the first hop rounds.
  lemma ForwardingIsStable(d: int)
    requires 0 < d < LIMIT
    ensures Decode(Format(d)).Some? && Format(Decode(Format(d)).value) == Format(d)
  {
    DecodeFormat(d);
    FormatSplits(d);
    var unit := UnitNanos(UnitOf(d)).value;
    var v := d / unit * unit;
    FloorBounds(d, unit);
    assert UnitOf(v) == UnitOf(d) by { hide Decode, Format; }
    FormatSplits(v);
    FloorExact(d / unit, unit);
    hide *;
  }

  lemma FloorExact(q: nat, unit: nat)
    requires unit > 0
    ensures q * unit / unit == q
  {
    var d := q * unit;
    var k := d / unit;
    assert k * unit <= d < k * unit + unit by { assert d == k * unit + d % unit; }
    Multiples(k, q, unit);
    Multiples(q, k, unit);
    assert k == q;
  }

  // A gRPC header is written exactly when time remains, and then the receiver can always read it. The encoder's own
  // text for no time left is outside the grammar, so the guard before it is needed.
  lemma HeaderIsReadable(remaining: int)
    requires remaining < LIMIT
    ensures Header(remaining, "Grpc-Timeout").Some? <==> Decode(Format(remaining)).Some?
    ensures Header(remaining, "Grpc-Timeout").Some? ==> Header(remaining, "Grpc-Timeout").value == Format(remaining)
  {
    if remaining > 0 {
      NeverLongerNeverHalved(remaining);
    } else {
      assert Number("0") == 0 by { assert "0"[..0] == []; }
      assert "0n"[..1] == "0";
    }
  }

  // Under any other key the header holds whole milliseconds in decimal.
  lemma PlainHeaderIsMilliseconds(remaining: int, key: string)
    requires remaining > 0 && key != "Grpc-Timeout"
    ensures var h := Header(remaining, key);
            h.Some? && Digits(h.value) && var ms := Number(h.value);
                                          ms * MILLISECOND <= remaining < (ms + 1) * MILLISECOND
  {
    DecimalRoundTrip(remaining / MILLISECOND);
  }
}
