/** audit/schema.py: the audit event and the canonical text its hash covers. */
module AuditSchema {
  import opened Text

  type Byte = b: int | 0 <= b < 256
  type Uuid = s: seq<Byte> | |s| == 16 witness seq(16, _ => 0)

  /** A time zone: none, or an offset from UTC of less than a day; there is no negative zero. */
  datatype Zone = Naive | Offset(negative: bool, hour: nat, minute: nat, second: nat, micro: nat)
  {
    predicate InRange() {
      Offset? ==>
        && hour < 24 && minute < 60 && second < 60 && micro < 1000000
        && (negative ==> hour + minute + second + micro > 0)
    }
  }

  const UTC := Offset(false, 0, 0, 0, 0)

  /** A `datetime`: the reading of a clock, and the zone it is in. */
  datatype Clock = Clock(
    year: nat, month: nat, day: nat, hour: nat, minute: nat, second: nat, micro: nat, zone: Zone)
  {
    predicate InRange() {
      && year < 10000 && month < 13 && day < 32
      && hour < 24 && minute < 60 && second < 60 && micro < 1000000 && zone.InRange()
    }
  }
  type DateTime = c: Clock | c.InRange() witness Clock(1970, 1, 1, 0, 0, 0, 0, UTC)

  /** The nine fields under the hash. */
  datatype Hashed = Hashed(
    eventId: Uuid, timestamp: DateTime, agentId: string, agentType: string, taskId: string,
    action: string, resourceArn: string, decision: string, previousEventHash: string)

  /** The fields that the hash does not cover. */
  datatype Details = Details(
    schemaVersion: string, decisionReason: Option<string>, policyRef: Option<string>,
    policyVersion: Option<string>, tokenJti: Option<string>, sourceIp: Option<string>, environment: Option<string>,
    executionResult: Option<string>, executionError: Option<string>, anomalyScore: Option<real>)

  datatype AuditEvent = AuditEvent(fields: Hashed, details: Details, eventHash: string)

  /** Sixty-four zeros. */
  const GENESIS_HASH: string :=
    "0000000000000000000000000000000000000000000000000000000000000000"

  /** Position on the time line of an event stamped in UTC, as agents stamp them (the order of
      `ORDER BY timestamp`). */
  function Instant(e: AuditEvent): int {
    var t := e.fields.timestamp;
    (((((t.year * 13 + t.month) * 32 + t.day) * 24 + t.hour) * 60 + t.minute) * 60 + t.second) * 1000000 + t.micro
  }

  /** One reading comes before another: the first unit in which they differ decides. */
  predicate Earlier(t: Clock, u: Clock) {
    if t.year != u.year then t.year < u.year
    else if t.month != u.month then t.month < u.month
    else if t.day != u.day then t.day < u.day
    else if t.hour != u.hour then t.hour < u.hour
    else if t.minute != u.minute then t.minute < u.minute
    else if t.second != u.second then t.second < u.second
    else t.micro < u.micro
  }

  lemma DigitsOrder(a: int, x: int, b: int, y: int, base: int)
    requires 0 <= x < base && 0 <= y < base
    ensures a * base + x < b * base + y <==> a < b || (a == b && x < y)
    ensures a * base + x == b * base + y <==> a == b && x == y
  {
    if a < b {
      assert (a + 1) * base <= b * base;
    } else if b < a {
      assert (b + 1) * base <= a * base;
    }
  }

  function DayNumber(t: Clock): int {
    (t.year * 13 + t.month) * 32 + t.day
  }

  function SecondOfDay(t: Clock): int {
    (t.hour * 60 + t.minute) * 60 + t.second
  }

  predicate EarlierDay(t: Clock, u: Clock) {
    if t.year != u.year then t.year < u.year
    else if t.month != u.month then t.month < u.month
    else t.day < u.day
  }

  predicate EarlierInDay(t: Clock, u: Clock) {
    if t.hour != u.hour then t.hour < u.hour
    else if t.minute != u.minute then t.minute < u.minute
    else t.second < u.second
  }

  lemma DaysInOrder(t: DateTime, u: DateTime)
    ensures DayNumber(t) < DayNumber(u) <==> EarlierDay(t, u)
    ensures DayNumber(t) == DayNumber(u) <==> t.year == u.year && t.month == u.month && t.day == u.day
  {
    DigitsOrder(t.year, t.month, u.year, u.month, 13);
    DigitsOrder(t.year * 13 + t.month, t.day, u.year * 13 + u.month, u.day, 32);
  }

  lemma SecondsInOrder(t: DateTime, u: DateTime)
    ensures 0 <= SecondOfDay(t) < 86400
    ensures SecondOfDay(t) < SecondOfDay(u) <==> EarlierInDay(t, u)
    ensures SecondOfDay(t) == SecondOfDay(u) <==> t.hour == u.hour && t.minute == u.minute && t.second == u.second
  {
    DigitsOrder(t.hour, t.minute, u.hour, u.minute, 60);
    DigitsOrder(t.hour * 60 + t.minute, t.second, u.hour * 60 + u.minute, u.second, 60);
  }

  lemma InstantInParts(e: AuditEvent)
    ensures var t := e.fields.timestamp;
      Instant(e) == (DayNumber(t) * 86400 + SecondOfDay(t)) * 1000000 + t.micro
  {
  }

  /** The position is the order of time: earlier exactly for an earlier reading, and the same only for
      the same one. */
  lemma InstantIsTheOrderOfTime(d: AuditEvent, e: AuditEvent)
    requires d.fields.timestamp.zone == UTC && e.fields.timestamp.zone == UTC
    ensures Instant(d) < Instant(e) <==> Earlier(d.fields.timestamp, e.fields.timestamp)
    ensures Instant(d) == Instant(e) <==> d.fields.timestamp == e.fields.timestamp
  {
    var t, u := d.fields.timestamp, e.fields.timestamp;
    InstantInParts(d);
    InstantInParts(e);
    DaysInOrder(t, u);
    SecondsInOrder(t, u);
    SecondsInOrder(u, t);
    var m, n := DayNumber(t), DayNumber(u);
    var x, y := SecondOfDay(t), SecondOfDay(u);
    DigitsOrder(m, x, n, y, 86400);
    DigitsOrder(m * 86400 + x, t.micro, n * 86400 + y, u.micro, 1000000);
  }

  // ------------------------------------------------------- texts of the fields

  function Hex(bytes: seq<Byte>): (s: string)
    ensures |s| == 2 * |bytes|
  {
    if bytes == [] then "" else Render(bytes[0], 16, 2) + Hex(bytes[1..])
  }

  /** `str(uuid)`: 8-4-4-4-12 hexadecimal digits. */
  function UuidText(u: Uuid): string {
    Dashed(Hex(u))
  }

  function Dashed(h: string): string
    requires |h| == 32
  {
    h[..8] + "-" + h[8..12] + "-" + h[12..16] + "-" + h[16..20] + "-" + h[20..]
  }

  /** The fraction is written only when it is not zero. */
  function Fraction(micro: nat): string {
    if micro == 0 then "" else "." + Render(micro, 10, 6)
  }

  function DateText(t: DateTime): (s: string)
    ensures |s| == 10
  {
    Render(t.year, 10, 4) + "-" + Render(t.month, 10, 2) + "-" + Render(t.day, 10, 2)
  }

  function TimeText(t: DateTime): (s: string)
    ensures |s| == 8
  {
    Render(t.hour, 10, 2) + ":" + Render(t.minute, 10, 2) + ":" + Render(t.second, 10, 2)
  }

  function SignedHours(z: Zone): (s: string)
    requires z.Offset?
    ensures |s| == 6 && s[0] in "+-"
  {
    (if z.negative then "-" else "+") + Render(z.hour, 10, 2) + ":" + Render(z.minute, 10, 2)
  }

  /** The seconds of an offset are written only when they, or their fraction, are not zero. */
  function OffsetSeconds(z: Zone): string
    requires z.Offset?
  {
    if z.second == 0 && z.micro == 0 then "" else ":" + Render(z.second, 10, 2) + Fraction(z.micro)
  }

  function ZoneText(z: Zone): (s: string)
    ensures s != "" ==> s[0] in "+-"
  {
    if z.Naive? then "" else SignedHours(z) + OffsetSeconds(z)
  }

  /** `timestamp.isoformat()`. */
  function IsoFormat(t: DateTime): string {
    DateText(t) + "T" + TimeText(t) + (Fraction(t.micro) + ZoneText(t.zone))
  }

  lemma {:induction false} HexInjective(a: seq<Byte>, b: seq<Byte>)
    requires |a| == |b| && Hex(a) == Hex(b)
    ensures a == b
  {
    if a != [] {
      assert Pow(16, 2) == 256;
      assert Render(a[0], 16, 2) == Hex(a)[..2] == Hex(b)[..2] == Render(b[0], 16, 2);
      assert Hex(a[1..]) == Hex(a)[2..] == Hex(b)[2..] == Hex(b[1..]);
      RenderInjective(a[0], b[0], 16, 2);
      HexInjective(a[1..], b[1..]);
    }
  }

  lemma DashedInjective(g: string, h: string)
    requires |g| == |h| == 32 && Dashed(g) == Dashed(h)
    ensures g == h
  {
    var s, t := Dashed(g), Dashed(h);
    assert g[..8] == s[..8] == t[..8] == h[..8];
    assert g[8..12] == s[9..13] == t[9..13] == h[8..12];
    assert g[12..16] == s[14..18] == t[14..18] == h[12..16];
    assert g[16..20] == s[19..23] == t[19..23] == h[16..20];
    assert g[20..] == s[24..] == t[24..] == h[20..];
    assert g == g[..8] + g[8..12] + g[12..16] + g[16..20] + g[20..];
    assert h == h[..8] + h[8..12] + h[12..16] + h[16..20] + h[20..];
  }

  lemma UuidTextInjective(u: Uuid, v: Uuid)
    requires UuidText(u) == UuidText(v)
    ensures u == v
  {
    DashedInjective(Hex(u), Hex(v));
    HexInjective(u, v);
  }

  lemma TwoDigits(m: nat, n: nat)
    requires m < 100 && n < 100 && Render(m, 10, 2) == Render(n, 10, 2)
    ensures m == n
  {
    assert Pow(10, 2) == 100;
    RenderInjective(m, n, 10, 2);
  }

  lemma FourDigits(m: nat, n: nat)
    requires m < 10000 && n < 10000 && Render(m, 10, 4) == Render(n, 10, 4)
    ensures m == n
  {
    assert Pow(10, 4) == 10000;
    RenderInjective(m, n, 10, 4);
  }

  lemma DateTextInjective(t: DateTime, u: DateTime)
    requires DateText(t) == DateText(u)
    ensures t.year == u.year && t.month == u.month && t.day == u.day
  {
    var r, s := DateText(t), DateText(u);
    assert Render(t.year, 10, 4) == r[..4] == s[..4] == Render(u.year, 10, 4);
    assert Render(t.month, 10, 2) == r[5..7] == s[5..7] == Render(u.month, 10, 2);
    assert Render(t.day, 10, 2) == r[8..] == s[8..] == Render(u.day, 10, 2);
    FourDigits(t.year, u.year);
    TwoDigits(t.month, u.month);
    TwoDigits(t.day, u.day);
  }

  lemma TimeTextInjective(t: DateTime, u: DateTime)
    requires TimeText(t) == TimeText(u)
    ensures t.hour == u.hour && t.minute == u.minute && t.second == u.second
  {
    var r, s := TimeText(t), TimeText(u);
    assert Render(t.hour, 10, 2) == r[..2] == s[..2] == Render(u.hour, 10, 2);
    assert Render(t.minute, 10, 2) == r[3..5] == s[3..5] == Render(u.minute, 10, 2);
    assert Render(t.second, 10, 2) == r[6..] == s[6..] == Render(u.second, 10, 2);
    TwoDigits(t.hour, u.hour);
    TwoDigits(t.minute, u.minute);
    TwoDigits(t.second, u.second);
  }

  lemma FractionInjective(m: nat, n: nat)
    requires m < 1000000 && n < 1000000 && Fraction(m) == Fraction(n)
    ensures m == n
  {
    assert Pow(10, 6) == 1000000;
    if m != 0 && n != 0 {
      assert Render(m, 10, 6) == Fraction(m)[1..] == Fraction(n)[1..] == Render(n, 10, 6);
      RenderInjective(m, n, 10, 6);
    }
  }

  lemma SignedHoursInjective(y: Zone, z: Zone)
    requires y.Offset? && z.Offset? && y.InRange() && z.InRange() && SignedHours(y) == SignedHours(z)
    ensures y.negative == z.negative && y.hour == z.hour && y.minute == z.minute
  {
    var r, s := SignedHours(y), SignedHours(z);
    assert r[0] == s[0];
    assert Render(y.hour, 10, 2) == r[1..3] == s[1..3] == Render(z.hour, 10, 2);
    assert Render(y.minute, 10, 2) == r[4..] == s[4..] == Render(z.minute, 10, 2);
    TwoDigits(y.hour, z.hour);
    TwoDigits(y.minute, z.minute);
  }

  lemma OffsetSecondsInjective(y: Zone, z: Zone)
    requires y.Offset? && z.Offset? && y.InRange() && z.InRange() && OffsetSeconds(y) == OffsetSeconds(z)
    ensures y.second == z.second && y.micro == z.micro
  {
    var r, s := OffsetSeconds(y), OffsetSeconds(z);
    if r != "" {
      assert Render(y.second, 10, 2) == r[1..3] == s[1..3] == Render(z.second, 10, 2);
      assert Fraction(y.micro) == r[3..] == s[3..] == Fraction(z.micro);
      TwoDigits(y.second, z.second);
      FractionInjective(y.micro, z.micro);
    }
  }

  lemma ZoneTextInjective(y: Zone, z: Zone)
    requires y.InRange() && z.InRange() && ZoneText(y) == ZoneText(z)
    ensures y == z
  {
    if y.Offset? && z.Offset? {
      var r, s := ZoneText(y), ZoneText(z);
      assert SignedHours(y) == r[..6] == s[..6] == SignedHours(z);
      assert OffsetSeconds(y) == r[6..] == s[6..] == OffsetSeconds(z);
      SignedHoursInjective(y, z);
      OffsetSecondsInjective(y, z);
    }
  }

  lemma SameCut(a: string, b: string, c: string, d: string)
    requires a + b == c + d && |a| == |c|
    ensures a == c && b == d
  {
    assert a == (a + b)[..|a|] == (c + d)[..|c|] == c;
    assert b == (a + b)[|a|..] == (c + d)[|c|..] == d;
  }

  /** The fraction, if any, starts with a point, and the zone never does. */
  lemma FractionShows(m: nat, z: Zone)
    requires m < 1000000
    ensures var r := Fraction(m) + ZoneText(z);
      m != 0 <==> r != "" && r[0] == '.'
  {
    if m == 0 {
      assert Fraction(m) + ZoneText(z) == ZoneText(z);
    }
  }

  lemma TailInjective(m: nat, y: Zone, n: nat, z: Zone)
    requires m < 1000000 && n < 1000000 && y.InRange() && z.InRange()
    requires Fraction(m) + ZoneText(y) == Fraction(n) + ZoneText(z)
    ensures m == n && y == z
  {
    FractionShows(m, y);
    FractionShows(n, z);
    SameCut(Fraction(m), ZoneText(y), Fraction(n), ZoneText(z));
    FractionInjective(m, n);
    ZoneTextInjective(y, z);
  }

  lemma SplitFront(date: string, time: string, tail: string)
    requires |date| == 10 && |time| == 8
    ensures var s := date + "T" + time + tail;
      |s| >= 19 && s[..10] == date && s[10] == 'T' && s[11..19] == time && s[19..] == tail
  {
    var front := date + "T" + time;
    assert |front| == 19 && front[..10] == date && front[10] == 'T' && front[11..] == time;
    var s := front + tail;
    assert s[..19] == front && s[19..] == tail;
    assert s[..10] == s[..19][..10] && s[11..19] == s[..19][11..];
  }

  /** Timestamps with one ISO text are the same reading in the same zone, naive ones included. */
  lemma IsoFormatInjective(t: DateTime, u: DateTime)
    ensures IsoFormat(t) == IsoFormat(u) ==> t == u
  {
    if IsoFormat(t) == IsoFormat(u) {
      SplitFront(DateText(t), TimeText(t), Fraction(t.micro) + ZoneText(t.zone));
      SplitFront(DateText(u), TimeText(u), Fraction(u.micro) + ZoneText(u.zone));
      DateTextInjective(t, u);
      TimeTextInjective(t, u);
      TailInjective(t.micro, t.zone, u.micro, u.zone);
    }
  }

  // --------------------------------------------------- what the texts say

  lemma SameSlice(s: string, at: nat, part: string, lo: nat, hi: nat)
    requires at + |part| <= |s| && s[at..at + |part|] == part && lo <= hi <= |part|
    ensures s[at + lo..at + hi] == part[lo..hi]
  {
    forall k | 0 <= k < hi - lo ensures s[at + lo..at + hi][k] == part[lo..hi][k] {
      assert s[at..at + |part|][lo + k] == s[at + lo + k];
    }
  }

  /** Two lower-case digits for each byte, in order. */
  lemma {:induction false} HexReadsBack(bytes: seq<Byte>, k: nat)
    requires k < |bytes|
    ensures Numeral(Hex(bytes)[2 * k..2 * k + 2], 16) == bytes[k] && AllLower(Hex(bytes))
  {
    var first := Render(bytes[0], 16, 2);
    RenderIsLower(bytes[0], 16, 2);
    assert Hex(bytes) == first + Hex(bytes[1..]);
    if k == 0 {
      assert Pow(16, 2) == 256;
      assert Hex(bytes)[..2] == first;
      RenderRoundTrip(bytes[0], 16, 2);
      if |bytes| > 1 {
        HexReadsBack(bytes[1..], 0);
      }
    } else {
      HexReadsBack(bytes[1..], k - 1);
      assert Hex(bytes)[2..2 + |Hex(bytes[1..])|] == Hex(bytes[1..]);
      SameSlice(Hex(bytes), 2, Hex(bytes[1..]), 2 * (k - 1), 2 * (k - 1) + 2);
    }
  }

  /** The text of an id, without its dashes, is its sixteen bytes in hexadecimal. */
  lemma UuidLayout(u: Uuid, k: nat)
    requires k < 16
    ensures var s := UuidText(u);
      && |s| == 36 && s[8] == s[13] == s[18] == s[23] == '-'
      && var digits := s[..8] + s[9..13] + s[14..18] + s[19..23] + s[24..];
         Numeral(digits[2 * k..2 * k + 2], 16) == u[k] && AllLower(digits)
  {
    var h, s := Hex(u), UuidText(u);
    assert s[..8] == h[..8] && s[9..13] == h[8..12] && s[14..18] == h[12..16] && s[19..23] == h[16..20];
    assert s[24..] == h[20..];
    assert h == h[..8] + h[8..12] + h[12..16] + h[16..20] + h[20..];
    HexReadsBack(u, k);
  }

  lemma ReadTwo(n: nat)
    requires n < 100
    ensures Numeral(Render(n, 10, 2), 10) == n
  {
    assert Pow(10, 2) == 100;
    RenderRoundTrip(n, 10, 2);
  }

  lemma DateLayout(t: DateTime)
    ensures var d := DateText(t);
      && d[4] == d[7] == '-'
      && Numeral(d[..4], 10) == t.year && Numeral(d[5..7], 10) == t.month && Numeral(d[8..10], 10) == t.day
  {
    var d := DateText(t);
    assert d[..4] == Render(t.year, 10, 4);
    assert d[5..7] == Render(t.month, 10, 2);
    assert d[8..10] == Render(t.day, 10, 2);
    assert Pow(10, 4) == 10000;
    RenderRoundTrip(t.year, 10, 4);
    ReadTwo(t.month);
    ReadTwo(t.day);
  }

  lemma TimeLayout(t: DateTime)
    ensures var c := TimeText(t);
      && c[2] == c[5] == ':'
      && Numeral(c[..2], 10) == t.hour && Numeral(c[3..5], 10) == t.minute && Numeral(c[6..8], 10) == t.second
  {
    var c := TimeText(t);
    assert c[..2] == Render(t.hour, 10, 2);
    assert c[3..5] == Render(t.minute, 10, 2);
    assert c[6..8] == Render(t.second, 10, 2);
    ReadTwo(t.hour);
    ReadTwo(t.minute);
    ReadTwo(t.second);
  }

  /** Where the parts of a timestamp stand in its text, and what they say. */
  lemma IsoFormatLayout(t: DateTime)
    ensures var s := IsoFormat(t);
      && |s| >= 19 && s[4] == s[7] == '-' && s[10] == 'T' && s[13] == s[16] == ':'
      && Numeral(s[..4], 10) == t.year && Numeral(s[5..7], 10) == t.month && Numeral(s[8..10], 10) == t.day
      && Numeral(s[11..13], 10) == t.hour && Numeral(s[14..16], 10) == t.minute
      && Numeral(s[17..19], 10) == t.second
      && s[19..] == Fraction(t.micro) + ZoneText(t.zone)
  {
    var s, d, c := IsoFormat(t), DateText(t), TimeText(t);
    SplitFront(d, c, Fraction(t.micro) + ZoneText(t.zone));
    DateLayout(t);
    TimeLayout(t);
    DatePart(s, d);
    TimePart(s, c);
  }

  lemma DatePart(s: string, d: string)
    requires |s| >= 19 && |d| == 10 && s[..10] == d
    ensures s[4] == d[4] && s[7] == d[7]
    ensures s[..4] == d[..4] && s[5..7] == d[5..7] && s[8..10] == d[8..10]
  {
    SameSlice(s, 0, d, 0, 4);
    SameSlice(s, 0, d, 5, 7);
    SameSlice(s, 0, d, 8, 10);
  }

  lemma TimePart(s: string, c: string)
    requires |s| >= 19 && |c| == 8 && s[11..19] == c
    ensures s[13] == c[2] && s[16] == c[5]
    ensures s[11..13] == c[..2] && s[14..16] == c[3..5] && s[17..19] == c[6..8]
  {
    SameSlice(s, 11, c, 0, 2);
    SameSlice(s, 11, c, 3, 5);
    SameSlice(s, 11, c, 6, 8);
  }

  /** The fraction is a point and six digits, or nothing for zero. */
  lemma FractionLayout(micro: nat)
    requires micro < 1000000
    ensures var s := Fraction(micro);
      if micro == 0 then s == "" else |s| == 7 && s[0] == '.' && Numeral(s[1..], 10) == micro
  {
    assert Pow(10, 6) == 1000000;
    if micro != 0 {
      RenderRoundTrip(micro, 10, 6);
      assert Fraction(micro)[1..] == Render(micro, 10, 6);
    }
  }

  lemma SignedHoursLayout(z: Zone)
    requires z.Offset? && z.InRange()
    ensures var h := SignedHours(z);
      && h[0] == (if z.negative then '-' else '+') && h[3] == ':'
      && Numeral(h[1..3], 10) == z.hour && Numeral(h[4..6], 10) == z.minute
  {
    var h := SignedHours(z);
    assert h[1..3] == Render(z.hour, 10, 2) && h[4..6] == Render(z.minute, 10, 2);
    ReadTwo(z.hour);
    ReadTwo(z.minute);
  }

  lemma OffsetSecondsLayout(z: Zone)
    requires z.Offset? && z.InRange() && (z.second != 0 || z.micro != 0)
    ensures var s := OffsetSeconds(z);
      |s| >= 3 && s[0] == ':' && Numeral(s[1..3], 10) == z.second && s[3..] == Fraction(z.micro)
  {
    var s := OffsetSeconds(z);
    assert s[1..3] == Render(z.second, 10, 2) && s[3..] == Fraction(z.micro);
    ReadTwo(z.second);
  }

  lemma JoinedParts(h: string, t: string)
    requires |h| == 6
    ensures var s := h + t;
      && s[0] == h[0] && s[3] == h[3] && s[1..3] == h[1..3] && s[4..6] == h[4..6]
      && (|t| >= 3 ==> s[6] == t[0] && s[7..9] == t[1..3] && s[9..] == t[3..])
  {
  }

  /** The offset is a sign, hours and minutes, and the seconds if there are any; nothing if naive. */
  lemma ZoneLayout(z: Zone)
    requires z.InRange()
    ensures var s := ZoneText(z);
      if z.Naive? then s == ""
      else
        && |s| >= 6 && s[0] == (if z.negative then '-' else '+') && s[3] == ':'
        && Numeral(s[1..3], 10) == z.hour && Numeral(s[4..6], 10) == z.minute
        && if z.second == 0 && z.micro == 0 then |s| == 6
           else |s| >= 9 && s[6] == ':' && Numeral(s[7..9], 10) == z.second && s[9..] == Fraction(z.micro)
  {
    if z.Offset? {
      SignedHoursLayout(z);
      JoinedParts(SignedHours(z), OffsetSeconds(z));
      if z.second != 0 || z.micro != 0 {
        OffsetSecondsLayout(z);
      }
    }
  }

  /** The text of the zone the agents stamp in. */
  lemma UtcText()
    ensures ZoneText(UTC) == "+00:00"
  {
    assert Render(0, 10, 1) == "0";
    assert Render(0, 10, 2) == "00";
    assert SignedHours(UTC) == "+00:00";
  }

  // ------------------------------------------------------------ canonical form

  /** The keys in the order `sort_keys=True` writes them. */
  const KEYS: seq<string> := [
    "action", "agent_id", "agent_type", "decision", "event_id",
    "previous_event_hash", "resource_arn", "task_id", "timestamp"]

  function Texts(f: Hashed): (r: seq<string>)
    ensures |r| == |KEYS|
  {
    [f.action, f.agentId, f.agentType, f.decision, UuidText(f.eventId),
     f.previousEventHash, f.resourceArn, f.taskId, IsoFormat(f.timestamp)]
  }

  /** What comes before a value: the separator, the quoted key, a colon and an opening quote. */
  function Lead(sep: char, key: string): string {
    [sep] + "\"" + key + "\":\""
  }

  function Quoted(value: string, tail: string): string {
    Escape(value) + "\"" + tail
  }

  /** Compact JSON members; `sep` is '{' before the first and ',' before the others. */
  function Members(sep: char, keys: seq<string>, values: seq<string>): string
    requires |keys| == |values|
    decreases |keys|
  {
    if keys == [] then "}"
    else Lead(sep, keys[0]) + Quoted(values[0], Members(',', keys[1..], values[1..]))
  }

  /** The text that is hashed. */
  function Canonical(f: Hashed): string {
    Members('{', KEYS, Texts(f))
  }

  /** Decoder for an object with exactly these keys, in this order, all holding strings. */
  function ReadMembers(sep: char, keys: seq<string>, t: string): Option<seq<string>>
    decreases |keys|
  {
    if keys == [] then (if t == "}" then Some([]) else None)
    else if Lead(sep, keys[0]) <= t then
      match ReadString(t[|Lead(sep, keys[0])|..])
      case None => None
      case Some((v, rest)) =>
        match ReadMembers(',', keys[1..], rest)
        case None => None
        case Some(vs) => Some([v] + vs)
    else None
  }

  lemma ReadMember(sep: char, keys: seq<string>, body: string, v: string, rest: string, vs: seq<string>)
    requires keys != [] && ReadString(body) == Some((v, rest))
    requires ReadMembers(',', keys[1..], rest) == Some(vs)
    ensures ReadMembers(sep, keys, Lead(sep, keys[0]) + body) == Some([v] + vs)
  {
    var lead := Lead(sep, keys[0]);
    assert (lead + body)[|lead|..] == body;
  }

  /** Decoding undoes encoding, for every list of keys and all Unicode values. */
  lemma {:induction false} MembersRoundTrip(sep: char, keys: seq<string>, values: seq<string>)
    requires |keys| == |values|
    ensures ReadMembers(sep, keys, Members(sep, keys, values)) == Some(values)
    decreases |keys|
  {
    if keys != [] {
      var tail := Members(',', keys[1..], values[1..]);
      MembersRoundTrip(',', keys[1..], values[1..]);
      assert ReadString(Quoted(values[0], tail)) == Some((values[0], tail)) by {
        ReadStringInvertsEscape(values[0], tail);
      }
      ReadMember(sep, keys, Quoted(values[0], tail), values[0], tail, values[1..]);
      assert [values[0]] + values[1..] == values;
    }
  }

  /** The value that stands under a key. */
  function Lookup(keys: seq<string>, values: seq<string>, key: string): Option<string>
    requires |keys| == |values|
  {
    if keys == [] then None else if keys[0] == key then Some(values[0]) else Lookup(keys[1..], values[1..], key)
  }

  lemma {:induction false} LookupAt(keys: seq<string>, values: seq<string>, i: nat)
    requires |keys| == |values| && i < |keys| && forall j | 0 <= j < i :: keys[j] != keys[i]
    ensures Lookup(keys, values, keys[i]) == Some(values[i])
  {
    if i > 0 {
      LookupAt(keys[1..], values[1..], i - 1);
    }
  }

  lemma KeysDiffer()
    ensures |KEYS| == 9 && forall i, j | 0 <= i < j < |KEYS| :: KEYS[i] != KEYS[j]
  {
  }

  lemma TextUnder(f: Hashed, i: nat)
    requires i < |KEYS|
    ensures Lookup(KEYS, Texts(f), KEYS[i]) == Some(Texts(f)[i])
  {
    KeysDiffer();
    LookupAt(KEYS, Texts(f), i);
  }

  /** Decoding the text that is hashed gives under each name the text of the field of that name. */
  lemma CanonicalNamesTheFields(f: Hashed)
    ensures ReadMembers('{', KEYS, Canonical(f)) == Some(Texts(f))
    ensures var read := Texts(f);
      && Lookup(KEYS, read, "event_id") == Some(UuidText(f.eventId))
      && Lookup(KEYS, read, "timestamp") == Some(IsoFormat(f.timestamp))
      && Lookup(KEYS, read, "agent_id") == Some(f.agentId)
      && Lookup(KEYS, read, "agent_type") == Some(f.agentType)
      && Lookup(KEYS, read, "task_id") == Some(f.taskId)
      && Lookup(KEYS, read, "action") == Some(f.action)
      && Lookup(KEYS, read, "resource_arn") == Some(f.resourceArn)
      && Lookup(KEYS, read, "decision") == Some(f.decision)
      && Lookup(KEYS, read, "previous_event_hash") == Some(f.previousEventHash)
  {
    MembersRoundTrip('{', KEYS, Texts(f));
    KeysDiffer();
    TextUnder(f, 0);
    TextUnder(f, 1);
    TextUnder(f, 2);
    TextUnder(f, 3);
    TextUnder(f, 4);
    TextUnder(f, 5);
    TextUnder(f, 6);
    TextUnder(f, 7);
    TextUnder(f, 8);
  }

  lemma TextsInjective(f: Hashed, g: Hashed)
    requires Texts(f) == Texts(g)
    ensures f == g
  {
    var s, t := Texts(f), Texts(g);
    assert forall i | 0 <= i < 9 :: s[i] == t[i];
    assert s[0] == f.action && s[1] == f.agentId && s[2] == f.agentType && s[3] == f.decision;
    assert s[4] == UuidText(f.eventId) && s[5] == f.previousEventHash && s[8] == IsoFormat(f.timestamp);
    UuidTextInjective(f.eventId, g.eventId);
    IsoFormatInjective(f.timestamp, g.timestamp);
  }

  /** Two events with the same canonical text agree on all nine fields. */
  lemma CanonicalInjective(f: Hashed, g: Hashed)
    ensures Canonical(f) == Canonical(g) ==> f == g
  {
    if Canonical(f) == Canonical(g) {
      MembersRoundTrip('{', KEYS, Texts(f));
      MembersRoundTrip('{', KEYS, Texts(g));
      TextsInjective(f, g);
    }
  }

  /** `compute_event_hash` for a digest function such as SHA-256 in hexadecimal (FIPS 180-4). */
  function EventHash(digest: string -> string): Hashed -> string {
    (f: Hashed) => digest(Canonical(f))
  }

  /** A collision of the event hash is a collision of the digest on two different texts. */
  lemma CollisionIsDigestCollision(digest: string -> string, f: Hashed, g: Hashed)
    requires f != g && EventHash(digest)(f) == EventHash(digest)(g)
    ensures Canonical(f) != Canonical(g) && digest(Canonical(f)) == digest(Canonical(g))
  {
    CanonicalInjective(f, g);
  }

  /** Code-point order on keys, the order `sort_keys=True` uses. */
  predicate Before(s: string, t: string) {
    t != "" && (s == "" || s[0] < t[0] || (s[0] == t[0] && Before(s[1..], t[1..])))
  }

  lemma KeysAreSorted()
    ensures forall i | 0 <= i < |KEYS| - 1 :: Before(KEYS[i], KEYS[i + 1])
  {
  }
}
