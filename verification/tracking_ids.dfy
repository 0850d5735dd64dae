/**
  Human-readable tracking identifiers of the form `PTH-<year>-<counter>`, the counter
  written in decimal and left-padded with '0' to at least four characters.

  `FormatTrackingId` is what the store produces. `ParseTrackingId` is its inverse,
  defined independently here so that "the counter can be read back from the
  identifier" and "distinct counters give distinct identifiers" can be stated.
 */
module TrackingIds {
  import opened Wrappers

  /** Minimum width of the counter segment. */
  const CounterWidth: nat := 4

  // ---------------------------------------------------------------- digits

  predicate IsDigit(c: char) {
    '0' <= c <= '9'
  }

  predicate AllDigits(s: string) {
    forall i :: 0 <= i < |s| ==> IsDigit(s[i])
  }

  function DigitChar(d: nat): (c: char)
    requires d < 10
    ensures IsDigit(c) && DigitValue(c) == d
  {
    ('0' as int + d) as char
  }

  function DigitValue(c: char): nat
    requires IsDigit(c)
  {
    c as int - '0' as int
  }

  /** The number a string of decimal digits denotes (leading zeros allowed). */
  function DigitsValue(s: string): nat
    requires AllDigits(s)
  {
    if s == [] then 0 else DigitsValue(s[..|s| - 1]) * 10 + DigitValue(s[|s| - 1])
  }

  /** Decimal rendering of `n`, as `Number.prototype.toString()` gives it for a
      non-negative integer below 10^21 (larger numbers are written there in
      exponent form): at least one digit, no leading zero unless `n` is 0. */
  function NatToString(n: nat): (s: string)
    ensures |s| > 0 && AllDigits(s)
    ensures s[0] == '0' <==> n == 0
  {
    if n < 10 then [DigitChar(n)] else NatToString(n / 10) + [DigitChar(n % 10)]
  }

  function Pow10(k: nat): (p: nat)
    ensures p >= 1
  {
    if k == 0 then 1 else 10 * Pow10(k - 1)
  }

  lemma {:induction false} NatToStringValue(n: nat)
    ensures DigitsValue(NatToString(n)) == n
  {
    var s := NatToString(n);
    if n < 10 {
      assert s[..|s| - 1] == [];
    } else {
      assert s[..|s| - 1] == NatToString(n / 10);
      NatToStringValue(n / 10);
    }
  }

  /** `n` needs at most `k` digits exactly when it is below 10^k. */
  lemma {:induction false} NatToStringLength(n: nat, k: nat)
    requires k >= 1
    ensures |NatToString(n)| <= k <==> n < Pow10(k)
  {
    if n >= 10 {
      if k == 1 {
        assert Pow10(1) == 10;
      } else {
        NatToStringLength(n / 10, k - 1);
      }
    } else {
      Pow10AtLeastTen(k);
    }
  }

  lemma Pow10AtLeastTen(k: nat)
    requires k >= 1
    ensures Pow10(k) >= 10
  {
  }

  // ---------------------------------------------------------------- padding

  function Repeat(c: char, k: nat): (r: string)
    ensures |r| == k
    ensures forall i :: 0 <= i < k ==> r[i] == c
  {
    if k == 0 then [] else Repeat(c, k - 1) + [c]
  }

  /** `String.prototype.padStart` with a one-character filler: strings already
      `width` long or longer are returned whole, never truncated. */
  function PadStart(s: string, width: nat, fill: char): (r: string)
    ensures |r| == if |s| >= width then |s| else width
    ensures r[|r| - |s|..] == s
    ensures forall i :: 0 <= i < |r| - |s| ==> r[i] == fill
  {
    if |s| >= width then s else Repeat(fill, width - |s|) + s
  }

  /** Leading zeros do not change the value of a digit string. */
  lemma {:induction false} LeadingZerosValue(k: nat, s: string)
    requires AllDigits(s)
    ensures AllDigits(Repeat('0', k) + s)
    ensures DigitsValue(Repeat('0', k) + s) == DigitsValue(s)
  {
    var z := Repeat('0', k);
    if s == [] {
      assert z + s == z;
      ZerosValue(k);
    } else {
      var init := s[..|s| - 1];
      assert (z + s)[..|z + s| - 1] == z + init;
      LeadingZerosValue(k, init);
    }
  }

  lemma {:induction false} ZerosValue(k: nat)
    ensures AllDigits(Repeat('0', k))
    ensures DigitsValue(Repeat('0', k)) == 0
  {
    if k > 0 {
      assert Repeat('0', k)[..k - 1] == Repeat('0', k - 1);
      ZerosValue(k - 1);
    }
  }

  // ---------------------------------------------------------------- format

  /** The counter segment: the counter's digits left-padded with '0' to four characters. */
  function CounterSegment(counter: nat): (seg: string)
    ensures |seg| >= CounterWidth && AllDigits(seg)
  {
    var digits := NatToString(counter);
    var seg := PadStart(digits, CounterWidth, '0');
    assert forall i :: 0 <= i < |seg| - |digits| ==> seg[i] == '0';
    assert forall i :: |seg| - |digits| <= i < |seg| ==> seg[i] == digits[i - (|seg| - |digits|)];
    seg
  }

  /** `PTH-<year>-<padded counter>`. */
  function FormatTrackingId(year: nat, counter: nat): (id: string)
    ensures |id| > 4 + |NatToString(year)| && id[..4] == "PTH-"
    ensures AllDigits(id[4..4 + |NatToString(year)|]) && id[4 + |NatToString(year)|] == '-'
  {
    var y := NatToString(year);
    var id := "PTH-" + y + "-" + CounterSegment(counter);
    assert id[4..4 + |y|] == y;
    id
  }

  /** Counters below 10000 give a segment of exactly four digits; larger counters
      are written out in full (five digits or more), never truncated. */
  lemma CounterSegmentWidth(counter: nat)
    ensures AllDigits(CounterSegment(counter))
    ensures counter < 10000 ==> |CounterSegment(counter)| == 4
    ensures counter >= 10000 ==> CounterSegment(counter) == NatToString(counter) && |CounterSegment(counter)| >= 5
  {
    NatToStringLength(counter, 4);
    assert Pow10(4) == 10000 by {
      assert Pow10(2) == 100;
    }
  }

  lemma {:induction false} CounterSegmentValue(counter: nat)
    ensures |CounterSegment(counter)| > 0 && AllDigits(CounterSegment(counter))
    ensures DigitsValue(CounterSegment(counter)) == counter
  {
    var digits := NatToString(counter);
    NatToStringValue(counter);
    if |digits| < CounterWidth {
      LeadingZerosValue(CounterWidth - |digits|, digits);
    }
  }

  // ---------------------------------------------------------------- parse (inverse)

  datatype TrackingParts = TrackingParts(year: nat, counter: nat)

  /** Index of the first occurrence of `c` in `s`. */
  function IndexOf(s: string, c: char): (i: Option<nat>)
    ensures i.Some? ==> i.value < |s| && s[i.value] == c && c !in s[..i.value]
    ensures i.None? ==> c !in s
  {
    if s == [] then None
    else if s[0] == c then Some(0)
    else match IndexOf(s[1..], c)
      case None => None
      case Some(j) =>
        assert s[..j + 1] == [s[0]] + s[1..][..j];
        Some(j + 1)
  }

  function ParseDigits(s: string): Option<nat> {
    if |s| > 0 && AllDigits(s) then Some(DigitsValue(s)) else None
  }

  /** Reads `PTH-<digits>-<digits>` back into its year and counter. */
  function ParseTrackingId(id: string): Option<TrackingParts> {
    if |id| < 4 || id[..4] != "PTH-" then None
    else
      var rest := id[4..];
      match IndexOf(rest, '-')
      case None => None
      case Some(k) =>
        match (ParseDigits(rest[..k]), ParseDigits(rest[k + 1..]))
        case (Some(year), Some(counter)) => Some(TrackingParts(year, counter))
        case _ => None
  }

  /** In `y + "-" + p` with `y` all digits, the first '-' is the one after `y`. */
  lemma FirstDashAfterDigits(y: string, p: string)
    requires AllDigits(y)
    ensures IndexOf(y + "-" + p, '-') == Some(|y|)
  {
    var rest := y + "-" + p;
    var k := IndexOf(rest, '-');
    assert rest[|y|] == '-';
    assert k.Some?;
    assert k.value == |y|;
  }

  /** Any `PTH-<digits>-<digits>` parses into the values of its two digit runs. */
  lemma ParseShape(y: string, p: string)
    requires |y| > 0 && AllDigits(y) && |p| > 0 && AllDigits(p)
    ensures ParseTrackingId("PTH-" + y + "-" + p) == Some(TrackingParts(DigitsValue(y), DigitsValue(p)))
  {
    var rest := y + "-" + p;
    var id := "PTH-" + y + "-" + p;
    assert id == "PTH-" + rest;
    assert id[..4] == "PTH-" && id[4..] == rest;
    FirstDashAfterDigits(y, p);
    assert rest[..|y|] == y;
    assert rest[|y| + 1..] == p;
  }

  /** The year and the counter can both be recovered from a formatted identifier. */
  lemma {:induction false} ParseFormat(year: nat, counter: nat)
    ensures ParseTrackingId(FormatTrackingId(year, counter)) == Some(TrackingParts(year, counter))
  {
    NatToStringValue(year);
    CounterSegmentValue(counter);
    ParseShape(NatToString(year), CounterSegment(counter));
  }

  /** Identifiers built from different years or different counters differ; in
      particular, since the counter is never reset when the year changes, two
      calls with different counters never collide, whatever years they carry. */
  lemma TrackingIdsDistinct(year1: nat, counter1: nat, year2: nat, counter2: nat)
    requires year1 != year2 || counter1 != counter2
    ensures FormatTrackingId(year1, counter1) != FormatTrackingId(year2, counter2)
  {
    ParseFormat(year1, counter1);
    ParseFormat(year2, counter2);
  }
}
