/** The retention floor: the smallest UUIDv7 of an instant, and what of the
    order of ids it decides. */
module Retention {
  import opened Options
  import opened Bytes

  const ID_BYTES: nat := 16
  const TIMESTAMP_BYTES: nat := 6
  const MAX_RETENTION_DAYS: int := 3650
  const NANOS_PER_MILLI: int := 1_000_000
  const NANOS_PER_DAY: int := 24 * 60 * 60 * 1_000_000_000

  // ---- Order -------------------------------------------------------------------

  ghost predicate DiffersAt(a: Text, b: Text, k: nat)
    requires |a| == |b|
  {
    k < |a| && a[k] < b[k] && forall j :: 0 <= j < k ==> a[j] == b[j]
  }

  /** a sorts before b, where they are equally long. */
  ghost predicate Less(a: Text, b: Text)
    requires |a| == |b|
  {
    exists k: nat :: DiffersAt(a, b, k)
  }

  /** A byte string as a number, most significant byte first. */
  function Value(s: Text): nat {
    if |s| == 0 then 0 else Value(s[..|s| - 1]) * 256 + s[|s| - 1] as nat
  }

  lemma LessSplits(a: Text, b: Text, c: Text, d: Text)
    requires |a| == |b| && |c| == |d| && Less(a + c, b + d)
    ensures Less(a, b) || (a == b && Less(c, d))
  {
    var x, y := a + c, b + d;
    var k: nat :| DiffersAt(x, y, k);
    forall j | 0 <= j < |a| ensures x[j] == a[j] && y[j] == b[j] {
    }
    if k < |a| {
      assert DiffersAt(a, b, k);
    } else {
      assert a == b;
      forall j | 0 <= j <= k - |a| ensures x[|a| + j] == c[j] && y[|a| + j] == d[j] {
      }
      assert DiffersAt(c, d, k - |a|);
    }
  }

  lemma LessConcat(a: Text, b: Text, c: Text, d: Text)
    requires |a| == |b| && |c| == |d|
    ensures Less(a + c, b + d) <==> Less(a, b) || (a == b && Less(c, d))
  {
    var x, y := a + c, b + d;
    if Less(x, y) {
      LessSplits(a, b, c, d);
    }
    if Less(a, b) {
      var k: nat :| DiffersAt(a, b, k);
      assert DiffersAt(x, y, k);
    }
    if a == b && Less(c, d) {
      var k: nat :| DiffersAt(c, d, k);
      assert DiffersAt(x, y, |a| + k);
    }
  }

  lemma LessOne(a: byte, b: byte)
    ensures Less([a], [b]) <==> a < b
  {
    if a < b {
      assert DiffersAt([a], [b], 0);
    }
  }

  lemma ValueStep(a: Text)
    ensures |a| == 0 ==> Value(a) == 0
    ensures |a| > 0 ==> Value(a) == Value(a[..|a| - 1]) * 256 + a[|a| - 1] as nat
  {
  }

  /** Equally long byte strings sort as the numbers they write. */
  lemma {:induction false} LessIsSmaller(a: Text, b: Text)
    requires |a| == |b|
    ensures Less(a, b) <==> Value(a) < Value(b)
    ensures a == b <==> Value(a) == Value(b)
    decreases |a|
  {
    hide Less, Value;
    ValueStep(a);
    ValueStep(b);
    if |a| == 0 {
      NothingLess(a, b);
    } else {
      var n := |a| - 1;
      LessIsSmaller(a[..n], b[..n]);
      assert a == a[..n] + [a[n]] && b == b[..n] + [b[n]];
      LessConcat(a[..n], b[..n], [a[n]], [b[n]]);
      LessOne(a[n], b[n]);
    }
  }

  lemma NothingLess(a: Text, b: Text)
    requires |a| == |b| == 0
    ensures a == b && !Less(a, b)
  {
  }

  // ---- The text of an id ------------------------------------------------------------

  function Digit(n: nat): (c: byte)
    requires n < 16
  {
    if n < 10 then (48 + n) as byte else (87 + n) as byte
  }

  function Hex(s: Text): (text: Text)
    ensures |text| == 2 * |s|
  {
    if |s| == 0 then []
    else Hex(s[..|s| - 1]) + [Digit(s[|s| - 1] as nat / 16), Digit(s[|s| - 1] as nat % 16)]
  }

  /** The written form of an id: groups of 8, 4, 4, 4 and 12 digits. */
  function IdText(id: Text): (text: Text)
    requires |id| == ID_BYTES
    ensures |text| == 36
  {
    Hex(id[..4]) + [DASH] + Hex(id[4..6]) + [DASH] + Hex(id[6..8]) + [DASH] + Hex(id[8..10]) + [DASH] + Hex(id[10..])
  }

  lemma DigitsOrder(a: byte, b: byte)
    ensures var x := [Digit(a as nat / 16), Digit(a as nat % 16)];
            var y := [Digit(b as nat / 16), Digit(b as nat % 16)];
            (Less(x, y) <==> a < b) && (x == y <==> a == b)
  {
    var x, y := [Digit(a as nat / 16), Digit(a as nat % 16)], [Digit(b as nat / 16), Digit(b as nat % 16)];
    assert x == [x[0]] + [x[1]] && y == [y[0]] + [y[1]];
    LessConcat([x[0]], [y[0]], [x[1]], [y[1]]);
    LessOne(x[0], y[0]);
    LessOne(x[1], y[1]);
    DigitOrder(a as nat / 16, b as nat / 16);
    DigitOrder(a as nat % 16, b as nat % 16);
  }

  lemma DigitOrder(m: nat, n: nat)
    requires m < 16 && n < 16
    ensures (Digit(m) < Digit(n) <==> m < n) && (Digit(m) == Digit(n) <==> m == n)
  {
  }

  lemma {:induction false} HexOrder(a: Text, b: Text)
    requires |a| == |b|
    ensures (Less(Hex(a), Hex(b)) <==> Less(a, b)) && (Hex(a) == Hex(b) <==> a == b)
    decreases |a|
  {
    hide Less, Digit;
    if |a| == 0 {
      NothingLess(a, b);
      NothingLess(Hex(a), Hex(b));
    } else {
      var n := |a| - 1;
      HexOrder(a[..n], b[..n]);
      DigitsOrder(a[n], b[n]);
      assert a == a[..n] + [a[n]] && b == b[..n] + [b[n]];
      LessConcat(a[..n], b[..n], [a[n]], [b[n]]);
      LessOne(a[n], b[n]);
      var x, y := [Digit(a[n] as nat / 16), Digit(a[n] as nat % 16)], [Digit(b[n] as nat / 16), Digit(b[n] as nat % 16)];
      LessConcat(Hex(a[..n]), Hex(b[..n]), x, y);
      SplitsSame(Hex(a[..n]), Hex(b[..n]), x, y);
      SplitsSame(a[..n], b[..n], [a[n]], [b[n]]);
    }
  }

  lemma SplitsSame(a: Text, b: Text, c: Text, d: Text)
    requires |a| == |b| && |c| == |d|
    ensures a + c == b + d <==> a == b && c == d
  {
    if a + c == b + d {
      assert a == (a + c)[..|a|] && b == (b + d)[..|a|];
      assert c == (a + c)[|a|..] && d == (b + d)[|a|..];
    }
  }

  /** A group more, with its dash: the order of what is written so far. */
  lemma GroupOrder(x: Text, y: Text, a: Text, b: Text, p: Text, q: Text)
    requires |x| == |y| && |a| == |b| && |p| == |q|
    requires (Less(x, y) <==> Less(a, b)) && (x == y <==> a == b)
    ensures (Less(x + [DASH] + Hex(p), y + [DASH] + Hex(q)) <==> Less(a + p, b + q))
    ensures x + [DASH] + Hex(p) == y + [DASH] + Hex(q) <==> a + p == b + q
  {
    hide Less, Hex;
    HexOrder(p, q);
    LessConcat(x + [DASH], y + [DASH], Hex(p), Hex(q));
    LessConcat(x, y, [DASH], [DASH]);
    LessOne(DASH, DASH);
    LessConcat(a, b, p, q);
    SplitsSame(x + [DASH], y + [DASH], Hex(p), Hex(q));
    SplitsSame(x, y, [DASH], [DASH]);
    SplitsSame(a, b, p, q);
  }

  /** Ids sort as text as they do as bytes. */
  lemma TextOrder(a: Text, b: Text)
    requires |a| == |b| == ID_BYTES
    ensures Less(IdText(a), IdText(b)) <==> Less(a, b)
  {
    hide Less, Hex;
    HexOrder(a[..4], b[..4]);
    var x, y := Hex(a[..4]), Hex(b[..4]);
    Grow(a, 4, 6);
    Grow(b, 4, 6);
    GroupOrder(x, y, a[..4], b[..4], a[4..6], b[4..6]);
    x, y := x + [DASH] + Hex(a[4..6]), y + [DASH] + Hex(b[4..6]);
    Grow(a, 6, 8);
    Grow(b, 6, 8);
    GroupOrder(x, y, a[..6], b[..6], a[6..8], b[6..8]);
    x, y := x + [DASH] + Hex(a[6..8]), y + [DASH] + Hex(b[6..8]);
    Grow(a, 8, 10);
    Grow(b, 8, 10);
    GroupOrder(x, y, a[..8], b[..8], a[8..10], b[8..10]);
    x, y := x + [DASH] + Hex(a[8..10]), y + [DASH] + Hex(b[8..10]);
    Grow(a, 10, 16);
    Grow(b, 10, 16);
    GroupOrder(x, y, a[..10], b[..10], a[10..], b[10..]);
  }

  lemma Grow(s: Text, m: nat, n: nat)
    requires m <= n <= |s|
    ensures s[..m] + s[m..n] == s[..n]
    ensures n == |s| ==> s[m..n] == s[m..] && s[..n] == s
  {
  }

  // ---- The cutoff ------------------------------------------------------------------------

  /** A version 7 UUID: section 5.7 of RFC 9562. */
  predicate IsVersion7(id: Text) {
    |id| == ID_BYTES && 0x70 <= id[6] < 0x80 && 0x80 <= id[8] < 0xC0
  }

  function Timestamp(id: Text): nat
    requires |id| == ID_BYTES
  {
    Value(id[..TIMESTAMP_BYTES])
  }

  function CutoffBytes(ms: nat): (id: Text)
    ensures |id| == ID_BYTES
  {
    BigEndian(ms, TIMESTAMP_BYTES) + [0x70, 0, 0x80, 0, 0, 0, 0, 0, 0, 0]
  }

  /** The low n bytes of a number, most significant first. */
  function BigEndian(ms: nat, n: nat): (s: Text)
    ensures |s| == n
  {
    if n == 0 then [] else BigEndian(ms / 256, n - 1) + [(ms % 256) as byte]
  }

  function Power(n: nat): (p: nat)
    ensures p > 0
  {
    if n == 0 then 1 else 256 * Power(n - 1)
  }

  lemma {:induction false} ValueOfBigEndian(ms: nat, n: nat)
    requires ms < Power(n)
    ensures Value(BigEndian(ms, n)) == ms
  {
    if n > 0 {
      assert ms / 256 < Power(n - 1);
      ValueOfBigEndian(ms / 256, n - 1);
      var s := BigEndian(ms, n);
      assert s[..n - 1] == BigEndian(ms / 256, n - 1) && s[n - 1] == (ms % 256) as byte;
    }
  }

  const TIMESTAMP_LIMIT: nat := 0x1_0000_0000_0000

  lemma LimitIsPower()
    ensures Power(TIMESTAMP_BYTES) == TIMESTAMP_LIMIT
  {
    assert Power(1) == 256;
    assert Power(2) == 256 * 256;
    assert Power(3) == 256 * 256 * 256;
    assert Power(4) == 0x1_0000_0000;
    assert Power(5) == 256 * 0x1_0000_0000;
  }

  /** After equal timestamps no version 7 id sorts before the cutoff. */
  lemma RestNotLess(rest: Text)
    requires |rest| == 10 && 0x70 <= rest[0] && 0x80 <= rest[2]
    ensures !Less(rest, [0x70, 0, 0x80, 0, 0, 0, 0, 0, 0, 0])
  {
    var least: Text := [0x70, 0, 0x80, 0, 0, 0, 0, 0, 0, 0];
    forall k: nat ensures !DiffersAt(rest, least, k) {
      assert k < 10 ==> least[k] == 0 || k == 0 || k == 2;
    }
  }

  /** The text of a version 7 id sorts below the cutoff's exactly when the id
      was made before the instant. */
  lemma BelowCutoff(id: Text, ms: nat)
    requires IsVersion7(id) && ms < TIMESTAMP_LIMIT
    ensures Less(IdText(id), IdText(CutoffBytes(ms))) <==> Timestamp(id) < ms
  {
    hide Less, Value, BigEndian, IdText, Power;
    LimitIsPower();
    ValueOfBigEndian(ms, TIMESTAMP_BYTES);
    var cutoff := CutoffBytes(ms);
    var least: Text := [0x70, 0, 0x80, 0, 0, 0, 0, 0, 0, 0];
    TextOrder(id, cutoff);
    assert id == id[..6] + id[6..];
    LessConcat(id[..6], BigEndian(ms, 6), id[6..], least);
    LessIsSmaller(id[..6], BigEndian(ms, 6));
    RestNotLess(id[6..]);
  }

  // ---- cutoffID ------------------------------------------------------------------------------

  lemma BigEndianStep(v: nat, n: nat)
    requires n > 0
    ensures BigEndian(v, n) == BigEndian(v / 256, n - 1) + [(v % 256) as byte]
  {
  }

  lemma TwoBytes(v: nat)
    ensures BigEndian(v, 2) == [(v / 256 % 256) as byte, (v % 256) as byte]
  {
    BigEndianStep(v, 2);
    BigEndianStep(v / 256, 1);
  }

  lemma LowBytes(v: nat)
    ensures v / 256 / 256 == v / 0x1_0000 && v % 0x1_0000 / 256 % 256 == v / 256 % 256
    ensures v % 0x1_0000 % 256 == v % 256
  {
    var x, r := v / 256, v % 256;
    var a, b := x / 256, x % 256;
    assert v == 0x1_0000 * a + (256 * b + r) && 0 <= 256 * b + r < 0x1_0000;
    assert v / 0x1_0000 == a && v % 0x1_0000 == 256 * b + r;
    assert (256 * b + r) / 256 == b;
  }

  /** Four bytes are the two high ones and the two low ones. */
  lemma FourBytes(v: nat)
    ensures BigEndian(v, 4) == BigEndian(v / 0x1_0000, 2) + BigEndian(v % 0x1_0000, 2)
  {
    hide BigEndian;
    BigEndianStep(v, 4);
    BigEndianStep(v / 256, 3);
    TwoBytes(v % 0x1_0000);
    LowBytes(v);
    var high := BigEndian(v / 0x1_0000, 2);
    assert high + [(v / 256 % 256) as byte] + [(v % 256) as byte]
      == high + [(v / 256 % 256) as byte, (v % 256) as byte];
  }

  lemma Halves(v: nat)
    ensures BigEndian(v, 2) == BigEndian(v % 0x1_0000, 2)
  {
    hide BigEndian;
    TwoBytes(v);
    TwoBytes(v % 0x1_0000);
    LowBytes(v);
  }

  method PutUint16(u: array<byte>, at: nat, v: nat)
    requires at + 2 <= u.Length && v < 0x1_0000
    modifies u
    ensures u[..] == old(u[..at]) + BigEndian(v, 2) + old(u[at + 2..])
  {
    u[at], u[at + 1] := (v / 256) as byte, (v % 256) as byte;
    TwoBytes(v);
    assert u[..] == old(u[..at]) + [(v / 256) as byte, (v % 256) as byte] + old(u[at + 2..]);
  }

  method PutUint32(u: array<byte>, at: nat, v: nat)
    requires at + 4 <= u.Length && v < 0x1_0000_0000
    modifies u
    ensures u[..] == old(u[..at]) + BigEndian(v, 4) + old(u[at + 4..])
  {
    hide BigEndian;
    ghost var high, low := BigEndian(v / 0x1_0000, 2), BigEndian(v % 0x1_0000, 2);
    PutUint16(u, at, v / 0x1_0000);
    assert u[..at + 2] == old(u[..at]) + high && u[at + 4..] == old(u[at + 4..]);
    PutUint16(u, at + 2, v % 0x1_0000);
    assert u[..] == old(u[..at]) + high + low + old(u[at + 4..]);
    FourBytes(v);
  }

  /** The six bytes of the timestamp, as cutoffID writes them: two, then four. */
  lemma SixBytes(ms: nat)
    ensures BigEndian(ms, 6) == BigEndian(ms / 0x1_0000_0000 % 0x1_0000, 2) + BigEndian(ms % 0x1_0000_0000, 4)
  {
    hide BigEndian;
    var low := ms % 0x1_0000_0000;
    BigEndianStep(ms, 6);
    BigEndianStep(ms / 256, 5);
    assert ms / 256 / 256 == ms / 0x1_0000;
    FourBytes(ms / 0x1_0000);
    FourBytes(low);
    assert ms / 0x1_0000 / 0x1_0000 == ms / 0x1_0000_0000;
    assert ms / 0x1_0000 % 0x1_0000 == low / 0x1_0000;
    Halves(ms / 0x1_0000_0000);
    TwoBytes(low % 0x1_0000);
    assert low % 0x1_0000 / 256 % 256 == ms / 256 % 256 && low % 0x1_0000 % 256 == ms % 256;
    var a, b := BigEndian(ms / 0x1_0000_0000, 2), BigEndian(low / 0x1_0000, 2);
    var y, z := (ms / 256 % 256) as byte, (ms % 256) as byte;
    assert a + b + [y] + [z] == a + (b + [y, z]);
  }

  /** cutoffID fills the bytes from the instant's milliseconds, wrapped to 64
      bits and cut to 48. */
  method CutoffId(millis: int) returns (text: Text)
    ensures text == IdText(CutoffBytes(millis % 0x1_0000_0000_0000_0000))
  {
    hide BigEndian, IdText;
    var ms := millis % 0x1_0000_0000_0000_0000;
    var u := new byte[ID_BYTES](_ => 0);
    ghost var high, low := BigEndian(ms / 0x1_0000_0000 % 0x1_0000, 2), BigEndian(ms % 0x1_0000_0000, 4);
    assert u[2..] == seq(14, _ => 0) && u[..0] == [];
    PutUint16(u, 0, ms / 0x1_0000_0000 % 0x1_0000);
    assert u[..] == high + seq(14, _ => 0);
    assert u[..2] == high && u[6..] == seq(10, _ => 0);
    PutUint32(u, 2, ms % 0x1_0000_0000);
    assert u[..] == high + low + seq(10, _ => 0);
    u[6], u[8] := 0x70, 0x80;
    SixBytes(ms);
    assert u[..] == high + low + [0x70, 0, 0x80, 0, 0, 0, 0, 0, 0, 0];
    text := IdText(u[..]);
  }

  // ---- The floor -----------------------------------------------------------------------------------

  /** A Go duration: nanoseconds in 64 bits, wrapping. */
  function Wrapped(n: int): (d: int)
    ensures -0x8000_0000_0000_0000 <= d < 0x8000_0000_0000_0000
  {
    var low := n % 0x1_0000_0000_0000_0000;
    if low < 0x8000_0000_0000_0000 then low else low - 0x1_0000_0000_0000_0000
  }

  function Period(days: int): int {
    Wrapped(-days * NANOS_PER_DAY)
  }

  /** retentionCutoff in milliseconds; instants are nanoseconds. */
  function CutoffMillis(now: int, days: int): int {
    (now + Period(days)) / NANOS_PER_MILLI
  }

  /** The longest period a duration holds, some 292 years. */
  const LONGEST_PERIOD: int := 106751

  /** A period reaches back that far exactly when a duration holds it; every
      one a setting can hold does. */
  lemma PeriodFits(days: int)
    requires 0 <= days
    ensures Period(days) == -days * NANOS_PER_DAY <==> days <= LONGEST_PERIOD
    ensures days <= MAX_RETENTION_DAYS ==> Period(days) == -days * NANOS_PER_DAY
  {
    if days <= LONGEST_PERIOD {
      assert -0x8000_0000_0000_0000 <= -days * NANOS_PER_DAY <= 0;
    } else {
      assert -days * NANOS_PER_DAY < -0x8000_0000_0000_0000;
    }
  }

  ghost predicate InRange(now: int, days: int) {
    0 <= CutoffMillis(now, days) < TIMESTAMP_LIMIT
  }

  function Floor(now: int, days: int): Text
    requires InRange(now, days)
  {
    IdText(CutoffBytes(CutoffMillis(now, days)))
  }

  /** The floor a list answers: none without a policy, or one that cannot be
      read, or that keeps messages forever. */
  method RetentionFloorId(now: int, days: Option<int>) returns (floor: Option<Text>)
    ensures floor.Some? <==> days.Some? && days.value > 0
    ensures floor.Some? && InRange(now, days.value) ==> floor.value == Floor(now, days.value)
  {
    hide IdText, CutoffBytes, CutoffMillis;
    if days.None? || days.value <= 0 {
      return None;
    }
    var millis := CutoffMillis(now, days.value);
    var text := CutoffId(millis);
    NotWrapped(millis);
    return Some(text);
  }

  lemma NotWrapped(millis: int)
    ensures 0 <= millis < TIMESTAMP_LIMIT ==> millis % 0x1_0000_0000_0000_0000 == millis
  {
  }

  /** With the period fixed the floor only rises: an id swept now is below
      every floor answered afterwards. */
  lemma SweptStaysBelow(id: Text, now: int, later: int, days: int)
    requires IsVersion7(id) && now <= later && InRange(now, days) && InRange(later, days)
    requires Less(IdText(id), Floor(now, days))
    ensures Less(IdText(id), Floor(later, days))
  {
    hide Less, IdText, CutoffBytes, Timestamp;
    BelowCutoff(id, CutoffMillis(now, days));
    BelowCutoff(id, CutoffMillis(later, days));
  }

  /** And only the period can lower it: a longer one always does, as long as
      a duration holds it. */
  lemma LongerPeriodLowers(now: int, days: int, longer: int)
    requires 0 <= days < longer <= LONGEST_PERIOD && InRange(now, days) && InRange(now, longer)
    ensures Less(Floor(now, longer), Floor(now, days))
  {
    hide Less, IdText, Value, BigEndian, Power, Period;
    var low, high := CutoffMillis(now, longer), CutoffMillis(now, days);
    assert low < high by {
      PeriodFits(days);
      PeriodFits(longer);
      assert now - longer * NANOS_PER_DAY <= now - days * NANOS_PER_DAY - NANOS_PER_DAY;
    }
    FloorOrder(low, high);
  }

  lemma FloorOrder(low: int, high: int)
    requires 0 <= low < high < TIMESTAMP_LIMIT
    ensures Less(IdText(CutoffBytes(low)), IdText(CutoffBytes(high)))
  {
    hide Less, IdText, Value, BigEndian, Power;
    LimitIsPower();
    var id := CutoffBytes(low);
    assert id[..TIMESTAMP_BYTES] == BigEndian(low, TIMESTAMP_BYTES);
    ValueOfBigEndian(low, TIMESTAMP_BYTES);
    BelowCutoff(id, high);
  }

  /** A day more than that would put the floor in the future. */
  lemma OverlongPeriodRaises(now: int)
    requires InRange(now, 0) && InRange(now, LONGEST_PERIOD + 1)
    ensures Less(Floor(now, 0), Floor(now, LONGEST_PERIOD + 1))
  {
    hide Less, IdText, BigEndian;
    assert Period(0) == 0 && Period(LONGEST_PERIOD + 1) > NANOS_PER_DAY;
    FloorOrder(CutoffMillis(now, 0), CutoffMillis(now, LONGEST_PERIOD + 1));
  }
}
