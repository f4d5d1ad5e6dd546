/** AWS Signature Version 4 for the Bedrock connector: timestamps and percent-encoding. */
module SigV4 {
  import opened Wrappers
  import opened Utf8
  import opened Calendar
  import opened Periods

  // ----- zero-padded decimals -----

  function Digit(d: nat): char
    requires d < 10
  {
    (48 + d) as char
  }

  function DigitValue(c: char): int {
    c as int - 48
  }

  predicate IsDigit(c: char) {
    '0' <= c <= '9'
  }

  /** `{n:0w}`: at least `w` digits. */
  function Pad(n: nat, w: nat): string
    decreases n, w
  {
    if n < 10 && w <= 1 then [Digit(n)] else Pad(n / 10, if w == 0 then 0 else w - 1) + [Digit(n % 10)]
  }

  function Pow10(w: nat): nat {
    if w == 0 then 1 else 10 * Pow10(w - 1)
  }

  predicate AllDigits(s: string) {
    forall c | c in s :: IsDigit(c)
  }

  function Value(s: string): int {
    if s == "" then 0 else 10 * Value(s[..|s| - 1]) + DigitValue(s[|s| - 1])
  }

  lemma ValueSnoc(s: string, d: nat)
    requires d < 10 && AllDigits(s)
    ensures AllDigits(s + [Digit(d)]) && Value(s + [Digit(d)]) == 10 * Value(s) + d
  {
    assert (s + [Digit(d)])[..|s|] == s;
  }

  lemma {:induction false} PadValue(n: nat, w: nat)
    ensures AllDigits(Pad(n, w)) && Value(Pad(n, w)) == n && Pad(n, w) != ""
    decreases n, w
  {
    hide AllDigits, Value, Digit;
    if n < 10 && w <= 1 {
      NoDigits();
      ValueSnoc("", n);
      assert "" + [Digit(n)] == [Digit(n)];
    } else {
      PadValue(n / 10, if w == 0 then 0 else w - 1);
      ValueSnoc(Pad(n / 10, if w == 0 then 0 else w - 1), n % 10);
    }
  }

  lemma NoDigits()
    ensures AllDigits("") && Value("") == 0
  {
  }

  lemma {:induction false} PadLength(n: nat, w: nat)
    requires w >= 1
    ensures |Pad(n, w)| >= w && (|Pad(n, w)| == w <==> n < Pow10(w))
    decreases n, w
  {
    if w > 1 {
      PadLength(n / 10, w - 1);
    } else if n >= 10 {
      NonEmptyPad(n / 10, 0);
    }
  }

  lemma NonEmptyPad(n: nat, w: nat)
    ensures |Pad(n, w)| >= 1
  {
  }

  // ----- lexicographic order -----

  predicate LexLess(a: string, b: string) {
    b != "" && (a == "" || a[0] < b[0] || (a[0] == b[0] && LexLess(a[1..], b[1..])))
  }

  lemma {:induction false} LexConcat(a: string, b: string, x: string, y: string)
    requires |a| == |b|
    ensures LexLess(a + x, b + y) <==> LexLess(a, b) || (a == b && LexLess(x, y))
  {
    if a == "" {
      assert a + x == x && b + y == y;
    } else {
      assert (a + x)[1..] == a[1..] + x && (b + y)[1..] == b[1..] + y;
      LexConcat(a[1..], b[1..], x, y);
      assert a == b <==> a[0] == b[0] && a[1..] == b[1..];
    }
  }

  lemma DigitOrder(c: nat, d: nat)
    requires c < 10 && d < 10
    ensures LexLess([Digit(c)], [Digit(d)]) <==> c < d
    ensures [Digit(c)] == [Digit(d)] <==> c == d
  {
    assert [Digit(c)][1..] == [Digit(d)][1..] == "";
  }

  /** Equal-width decimals sort as their numbers do. */
  lemma {:induction false} PadOrder(m: nat, n: nat, w: nat)
    requires w >= 1 && m < Pow10(w) && n < Pow10(w)
    ensures LexLess(Pad(m, w), Pad(n, w)) <==> m < n
    ensures Pad(m, w) == Pad(n, w) <==> m == n
    decreases w
  {
    if w == 1 {
      DigitOrder(m, n);
    } else {
      PadOrder(m / 10, n / 10, w - 1);
      PadLength(m / 10, w - 1);
      PadLength(n / 10, w - 1);
      DigitOrder(m % 10, n % 10);
      LexConcat(Pad(m / 10, w - 1), Pad(n / 10, w - 1), [Digit(m % 10)], [Digit(n % 10)]);
      PadValue(m, w);
      PadValue(n, w);
    }
  }

  // ----- dates -----

  function DateStamp(d: Date): string
    requires d.year >= 0 && d.month >= 0 && d.day >= 0
  {
    Pad(d.year, 4) + Pad(d.month, 2) + Pad(d.day, 2)
  }

  function Clock(rem: nat): string {
    "T" + Pad(rem / 3600, 2) + Pad(rem % 3600 / 60, 2) + Pad(rem % 60, 2) + "Z"
  }

  lemma EpochYear(d: Date)
    requires Valid(d) && DaysFromCivil(d) >= 0
    ensures d.year >= 1970
  {
    hide DaysFromCivil, Valid, DaysBeforeYear;
    WithinYear(d);
    YearClosedForm(1970);
    if d.year < 1970 {
      YearsMonotone(d.year, 1970);
    }
  }

  lemma DateFromEpoch(days: nat)
    ensures var d := CivilFromDays(days); Valid(d) && d.year >= 1970 && DaysFromCivil(d) == days
  {
    hide CivilFromDays, DaysFromCivil, Valid;
    CivilFromDaysIsCivil(days);
    EpochYear(CivilFromDays(days));
  }

  /** (`amz_date`, `date_stamp`) for a Unix time. */
  function FormatAmzDate(secs: nat): (string, string) {
    DateFromEpoch(secs / SECONDS_PER_DAY);
    var d := CivilFromDays(secs / SECONDS_PER_DAY);
    (DateStamp(d) + Clock(secs % SECONDS_PER_DAY), DateStamp(d))
  }

  /** Reads `YYYYMMDDTHHMMSSZ`. */
  function ParseAmzDate(s: string): Option<int> {
    if |s| == 16 && s[8] == 'T' && s[15] == 'Z' && AllDigits(s[..8] + s[9..15]) then
      var d := Date(Value(s[..4]), Value(s[4..6]), Value(s[6..8]));
      var h, m, sec := Value(s[9..11]), Value(s[11..13]), Value(s[13..15]);
      if Valid(d) && 0 <= h < 24 && 0 <= m < 60 && 0 <= sec < 60 then
        Some(DaysFromCivil(d) * SECONDS_PER_DAY + h * 3600 + m * 60 + sec)
      else None
    else None
  }

  lemma Widths()
    ensures Pow10(1) == 10 && Pow10(2) == 100 && Pow10(4) == 10000
  {
    assert Pow10(3) == 1000;
  }

  lemma YearBefore10000(d: Date)
    requires Valid(d)
    ensures d.year < 10000 <==> DaysFromCivil(d) < YEAR_10000 / SECONDS_PER_DAY
  {
    hide DaysFromCivil, Valid;
    WithinYear(d);
    YearClosedForm(10000);
    hide DaysBeforeYear;
    if d.year < 10000 {
      YearsMonotone(d.year, 10000);
    } else if d.year > 10000 {
      YearsMonotone(10000, d.year);
    }
  }

  /** The year has four digits exactly until the end of 9999. */
  lemma FourDigitYears(secs: nat)
    ensures CivilFromDays(secs / SECONDS_PER_DAY).year < 10000 <==> secs < YEAR_10000
  {
    hide CivilFromDays, DaysFromCivil, Valid;
    DateFromEpoch(secs / SECONDS_PER_DAY);
    YearBefore10000(CivilFromDays(secs / SECONDS_PER_DAY));
  }

  lemma StampLengths(d: Date)
    requires Valid(d) && d.year >= 0
    ensures |Pad(d.year, 4)| >= 4 && (|Pad(d.year, 4)| == 4 <==> d.year < 10000)
    ensures |Pad(d.month, 2)| == 2 && |Pad(d.day, 2)| == 2
  {
    Widths();
    PadLength(d.year, 4);
    PadLength(d.month, 2);
    PadLength(d.day, 2);
  }

  lemma ClockLengths(rem: nat)
    requires rem < SECONDS_PER_DAY
    ensures |Pad(rem / 3600, 2)| == 2 && |Pad(rem % 3600 / 60, 2)| == 2 && |Pad(rem % 60, 2)| == 2
    ensures rem / 3600 < 24 && rem % 3600 / 60 < 60
    ensures rem == rem / 3600 * 3600 + rem % 3600 / 60 * 60 + rem % 60
  {
    Widths();
    PadLength(rem / 3600, 2);
    PadLength(rem % 3600 / 60, 2);
    PadLength(rem % 60, 2);
  }

  /** The date stamp is always a prefix of the timestamp; they have the fixed widths 8 and 16
      exactly through the year 9999. */
  lemma AmzDateWidth(secs: nat)
    ensures FormatAmzDate(secs).1 <= FormatAmzDate(secs).0
    ensures |FormatAmzDate(secs).0| == |FormatAmzDate(secs).1| + 8
    ensures |FormatAmzDate(secs).0| == 16 <==> secs < YEAR_10000
  {
    hide CivilFromDays, Pad;
    DateFromEpoch(secs / SECONDS_PER_DAY);
    FourDigitYears(secs);
    StampLengths(CivilFromDays(secs / SECONDS_PER_DAY));
    ClockLengths(secs % SECONDS_PER_DAY);
  }

  lemma ConcatDigits(a: string, b: string)
    ensures AllDigits(a + b) <==> AllDigits(a) && AllDigits(b)
  {
    assert forall c | c in a :: c in a + b;
    assert forall c | c in b :: c in a + b;
  }

  /** Through the year 9999, the timestamp reads back as the second it was made from. */
  lemma AmzDateRoundTrip(secs: nat)
    requires secs < YEAR_10000
    ensures ParseAmzDate(FormatAmzDate(secs).0) == Some(secs)
  {
    hide CivilFromDays, Pad, Value, AllDigits, DaysFromCivil, Valid;
    var days, rem := secs / SECONDS_PER_DAY, secs % SECONDS_PER_DAY;
    var d := CivilFromDays(days);
    DateFromEpoch(days);
    FourDigitYears(secs);
    assert d.month >= 0 && d.day >= 0 by { ValidParts(d); }
    StampLengths(d);
    ClockLengths(rem);
    var h, mi, se := rem / 3600, rem % 3600 / 60, rem % 60;
    PadValue(d.year, 4);
    PadValue(d.month, 2);
    PadValue(d.day, 2);
    PadValue(h, 2);
    PadValue(mi, 2);
    PadValue(se, 2);
    var y4, m2, d2 := Pad(d.year, 4), Pad(d.month, 2), Pad(d.day, 2);
    var s := y4 + m2 + d2 + ("T" + Pad(h, 2) + Pad(mi, 2) + Pad(se, 2) + "Z");
    assert s == FormatAmzDate(secs).0;
    assert s[..4] == y4 && s[4..6] == m2 && s[6..8] == d2;
    var h2, i2, s2 := Pad(h, 2), Pad(mi, 2), Pad(se, 2);
    assert s == (y4 + m2 + d2 + "T") + h2 + i2 + s2 + "Z";
    assert s[9..11] == h2;
    assert s[11..13] == i2;
    assert s[13..15] == s2;
    assert s[..8] + s[9..15] == y4 + m2 + d2 + Pad(h, 2) + Pad(mi, 2) + Pad(se, 2);
    ConcatDigits(y4, m2);
    ConcatDigits(y4 + m2, d2);
    ConcatDigits(y4 + m2 + d2, Pad(h, 2));
    ConcatDigits(y4 + m2 + d2 + Pad(h, 2), Pad(mi, 2));
    ConcatDigits(y4 + m2 + d2 + Pad(h, 2) + Pad(mi, 2), Pad(se, 2));
  }

  lemma ValidParts(d: Date)
    requires Valid(d)
    ensures 1 <= d.month <= 12 && 1 <= d.day <= 31
  {
  }

  lemma StampOrder(a: Date, b: Date)
    requires Valid(a) && Valid(b) && 0 <= a.year < 10000 && 0 <= b.year < 10000
    ensures |DateStamp(a)| == |DateStamp(b)| == 8
    ensures LexLess(DateStamp(a), DateStamp(b)) <==> Before(a, b)
    ensures DateStamp(a) == DateStamp(b) <==> a == b
  {
    hide Pad;
    Widths();
    StampLengths(a);
    StampLengths(b);
    PadOrder(a.year, b.year, 4);
    PadOrder(a.month, b.month, 2);
    PadOrder(a.day, b.day, 2);
    LexConcat(Pad(a.year, 4), Pad(b.year, 4), Pad(a.month, 2), Pad(b.month, 2));
    LexConcat(Pad(a.year, 4) + Pad(a.month, 2), Pad(b.year, 4) + Pad(b.month, 2), Pad(a.day, 2), Pad(b.day, 2));
    SameConcat(Pad(a.year, 4), Pad(b.year, 4), Pad(a.month, 2), Pad(b.month, 2));
    SameConcat(Pad(a.year, 4) + Pad(a.month, 2), Pad(b.year, 4) + Pad(b.month, 2), Pad(a.day, 2), Pad(b.day, 2));
  }

  lemma SameConcat(a: string, b: string, x: string, y: string)
    requires |a| == |b|
    ensures a + x == b + y <==> a == b && x == y
  {
    if a + x == b + y {
      assert a == (a + x)[..|a|] && b == (b + y)[..|b|];
      assert x == (a + x)[|a|..] && y == (b + y)[|b|..];
    }
  }

  lemma ClockOrder(r: nat, q: nat)
    requires r < SECONDS_PER_DAY && q < SECONDS_PER_DAY
    ensures LexLess(Clock(r), Clock(q)) <==> r < q
  {
    hide Pad;
    Widths();
    ClockLengths(r);
    ClockLengths(q);
    var rh, rm, rs := Pad(r / 3600, 2), Pad(r % 3600 / 60, 2), Pad(r % 60, 2);
    var qh, qm, qs := Pad(q / 3600, 2), Pad(q % 3600 / 60, 2), Pad(q % 60, 2);
    PadOrder(r / 3600, q / 3600, 2);
    PadOrder(r % 3600 / 60, q % 3600 / 60, 2);
    PadOrder(r % 60, q % 60, 2);
    LexConcat("T", "T", rh, qh);
    LexConcat("T" + rh, "T" + qh, rm, qm);
    LexConcat("T" + rh + rm, "T" + qh + qm, rs, qs);
    LexConcat("T" + rh + rm + rs, "T" + qh + qm + qs, "Z", "Z");
    SameConcat("T", "T", rh, qh);
    SameConcat("T" + rh, "T" + qh, rm, qm);
    assert !LexLess("T", "T") && !LexLess("Z", "Z") by {
      assert "T"[1..] == "" && "Z"[1..] == "";
    }
  }

  /** Through the year 9999, timestamps sort as strings in chronological order. */
  lemma AmzDateOrder(s: nat, t: nat)
    requires s < YEAR_10000 && t < YEAR_10000
    ensures LexLess(FormatAmzDate(s).0, FormatAmzDate(t).0) <==> s < t
  {
    hide CivilFromDays, DateStamp, Clock, DaysFromCivil, Valid, Before;
    var a, b := CivilFromDays(s / SECONDS_PER_DAY), CivilFromDays(t / SECONDS_PER_DAY);
    DateFromEpoch(s / SECONDS_PER_DAY);
    DateFromEpoch(t / SECONDS_PER_DAY);
    ValidParts(a);
    ValidParts(b);
    FourDigitYears(s);
    FourDigitYears(t);
    StampOrder(a, b);
    ClockOrder(s % SECONDS_PER_DAY, t % SECONDS_PER_DAY);
    LexConcat(DateStamp(a), DateStamp(b), Clock(s % SECONDS_PER_DAY), Clock(t % SECONDS_PER_DAY));
    CivilFromDaysOrder(s / SECONDS_PER_DAY, t / SECONDS_PER_DAY);
  }

  // ----- percent-encoding -----

  predicate Unreserved(b: int) {
    65 <= b <= 90 || 97 <= b <= 122 || 48 <= b <= 57 || b == 45 || b == 95 || b == 46 || b == 126
  }

  function Hex(d: nat): char
    requires d < 16
  {
    if d < 10 then (48 + d) as char else (55 + d) as char
  }

  function HexValue(c: char): Option<nat> {
    if '0' <= c <= '9' then Some(c as int - 48)
    else if 'A' <= c <= 'F' then Some(c as int - 55)
    else None
  }

  function EncodeByte(b: byte): string {
    if Unreserved(b) then [b as char] else ['%', Hex(b / 16), Hex(b % 16)]
  }

  function EncodeBytes(bs: seq<byte>): string {
    if bs == [] then "" else EncodeBytes(bs[..|bs| - 1]) + EncodeByte(bs[|bs| - 1])
  }

  method UriEncodeSegment(input: string) returns (out: string)
    ensures out == EncodeBytes(Encode(input))
  {
    var bytes := Encode(input);
    out := "";
    for i := 0 to |bytes|
      invariant out == EncodeBytes(bytes[..i])
    {
      assert bytes[..i + 1][..i] == bytes[..i];
      if Unreserved(bytes[i]) {
        out := out + [bytes[i] as char];
      } else {
        out := out + ['%', Hex(bytes[i] / 16), Hex(bytes[i] % 16)];
      }
    }
    assert bytes[..|bytes|] == bytes;
  }

  /** Percent-decoding, read from the left; `None` on anything but unreserved characters and
      upper-case `%HH` triplets. */
  function PercentDecode(s: string): Option<seq<byte>> {
    if s == "" then Some([])
    else if s[0] == '%' then
      if |s| < 3 || HexValue(s[1]).None? || HexValue(s[2]).None? then None
      else
        match PercentDecode(s[3..])
        case None => None
        case Some(rest) => Some([HexValue(s[1]).value * 16 + HexValue(s[2]).value] + rest)
    else if !Unreserved(s[0] as int) then None
    else
      match PercentDecode(s[1..])
      case None => None
      case Some(rest) => Some([s[0] as int] + rest)
  }

  lemma HexPair(b: byte)
    ensures HexValue(Hex(b / 16)) == Some(b / 16) && HexValue(Hex(b % 16)) == Some(b % 16)
  {
  }

  lemma DecodeOneByte(b: byte, rest: string)
    requires PercentDecode(rest).Some?
    ensures PercentDecode(EncodeByte(b) + rest) == Some([b] + PercentDecode(rest).value)
  {
    HexPair(b);
    hide Hex, HexValue;
    var s := EncodeByte(b) + rest;
    if Unreserved(b) {
      assert s[0] == b as char && s[1..] == rest;
    } else {
      assert s[0] == '%' && s[1] == Hex(b / 16) && s[2] == Hex(b % 16) && s[3..] == rest;
    }
  }

  lemma {:induction false} DecodeFront(bs: seq<byte>, rest: string)
    requires PercentDecode(rest).Some?
    ensures PercentDecode(EncodeBytes(bs) + rest) == Some(bs + PercentDecode(rest).value)
  {
    hide EncodeByte, PercentDecode;
    if bs == [] {
      assert EncodeBytes(bs) + rest == rest && bs + PercentDecode(rest).value == PercentDecode(rest).value;
    } else {
      var n := |bs| - 1;
      DecodeOneByte(bs[n], rest);
      DecodeFront(bs[..n], EncodeByte(bs[n]) + rest);
      assert EncodeBytes(bs) + rest == EncodeBytes(bs[..n]) + (EncodeByte(bs[n]) + rest);
      assert bs[..n] + ([bs[n]] + PercentDecode(rest).value) == bs + PercentDecode(rest).value;
    }
  }

  /** Decoding undoes encoding for every byte string: the output consists only of unreserved
      characters and `%HH` triplets, and encoding is injective. */
  lemma PercentRoundTrip(bs: seq<byte>)
    ensures PercentDecode(EncodeBytes(bs)) == Some(bs)
  {
    DecodeFront(bs, "");
    assert EncodeBytes(bs) + "" == EncodeBytes(bs);
    assert bs + [] == bs;
  }

  /** The unreserved characters of section 2.3 of RFC 3986, as ranges. */
  predicate UnreservedChar(c: char) {
    'A' <= c <= 'Z' || 'a' <= c <= 'z' || '0' <= c <= '9' || c == '-' || c == '.' || c == '_' || c == '~'
  }

  predicate HexDigit(c: char) {
    '0' <= c <= '9' || 'A' <= c <= 'F'
  }

  /** One byte becomes itself if it is an unreserved character, and else a triplet. */
  lemma EncodedByte(b: byte)
    ensures UnreservedChar(b as char) ==> EncodeByte(b) == [b as char]
    ensures !UnreservedChar(b as char) ==>
              |EncodeByte(b)| == 3 && EncodeByte(b)[0] == '%' && HexDigit(EncodeByte(b)[1])
                  && HexDigit(EncodeByte(b)[2])
  {
  }

  predicate AllUnreserved(bs: seq<byte>) {
    forall i | 0 <= i < |bs| :: UnreservedChar(bs[i] as char)
  }

  lemma UnreservedSnoc(bs: seq<byte>, b: byte)
    ensures AllUnreserved(bs + [b]) <==> AllUnreserved(bs) && UnreservedChar(b as char)
  {
    var all := bs + [b];
    assert all[|bs|] == b && forall i | 0 <= i < |bs| :: all[i] == bs[i];
  }

  /** The output's alphabet; and a string is left as it is exactly when all of it is unreserved. */
  lemma {:induction false} EncodedAlphabet(bs: seq<byte>)
    ensures forall c | c in EncodeBytes(bs) :: UnreservedChar(c) || c == '%'
    ensures |EncodeBytes(bs)| >= |bs|
    ensures |EncodeBytes(bs)| == |bs| <==> AllUnreserved(bs)
  {
    hide EncodeByte;
    if bs != [] {
      var before, last := bs[..|bs| - 1], bs[|bs| - 1];
      EncodedAlphabet(before);
      EncodedByte(last);
      assert bs == before + [last];
      UnreservedSnoc(before, last);
      forall c | c in EncodeByte(last)
        ensures UnreservedChar(c) || c == '%'
      {
        assert c == EncodeByte(last)[0] || c == EncodeByte(last)[1] || c == EncodeByte(last)[2];
      }
    }
  }
}
