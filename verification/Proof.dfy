/** The signed payload of a WOPI proof, and the freshness of its timestamp. */
module Proof {
  import opened Wrappers

  type byte = x: int | 0 <= x < 256

  const TWO_TO_THE_32: int := 0x1_0000_0000
  const TWO_TO_THE_62: int := 0x4000_0000_0000_0000
  const TWO_TO_THE_63: int := 0x8000_0000_0000_0000
  const TWO_TO_THE_64: int := 0x1_0000_0000_0000_0000

  type int64 = x: int | -TWO_TO_THE_63 <= x < TWO_TO_THE_63
  type uint32 = x: int | 0 <= x < TWO_TO_THE_32
  type uint64 = x: int | 0 <= x < TWO_TO_THE_64

  // The n low bytes of v, most significant first.
  function BigEndian(v: nat, n: nat): (bytes: seq<byte>)
    ensures |bytes| == n
  {
    if n == 0 then [] else BigEndian(v / 256, n - 1) + [v % 256]
  }

  function FromBigEndian(bytes: seq<byte>): (v: nat)
  {
    if bytes == [] then 0 else FromBigEndian(bytes[..|bytes| - 1]) * 256 + bytes[|bytes| - 1]
  }

  function Limit(n: nat): (limit: nat)
    ensures limit > 0
  {
    if n == 0 then 1 else Limit(n - 1) * 256
  }

  lemma {:induction false} DecodeBigEndian(v: nat, n: nat)
    requires v < Limit(n)
    ensures FromBigEndian(BigEndian(v, n)) == v
  {
    if n > 0 {
      DecodeBigEndian(v / 256, n - 1);
      assert BigEndian(v, n)[..n - 1] == BigEndian(v / 256, n - 1);
    }
  }

  lemma {:induction false} EncodeBigEndian(bytes: seq<byte>)
    ensures FromBigEndian(bytes) < Limit(|bytes|)
    ensures BigEndian(FromBigEndian(bytes), |bytes|) == bytes
  {
    if bytes != [] {
      EncodeBigEndian(bytes[..|bytes| - 1]);
      assert bytes == bytes[..|bytes| - 1] + [bytes[|bytes| - 1]];
    }
  }

  /** Byte k of the n bytes counts 256 to the power n - 1 - k. */
  lemma {:induction false} BigEndianByte(v: nat, n: nat, k: nat)
    requires k < n
    ensures BigEndian(v, n)[k] == v / Limit(n - 1 - k) % 256
  {
    if k < n - 1 {
      BigEndianByte(v / 256, n - 1, k);
      DivTwice(v, Limit(n - 2 - k));
    }
  }

  lemma DivTwice(v: nat, m: nat)
    requires m > 0
    ensures v / 256 / m == v / (m * 256)
  {
    var q, r := v / 256 / m, v / 256 % m;
    Regrouped(v, m, q, r);
    QuotientIs(v, m * 256, q, r * 256 + v % 256);
  }

  lemma Regrouped(v: nat, m: nat, q: nat, r: nat)
    requires v / 256 == q * m + r
    ensures v == q * (m * 256) + (r * 256 + v % 256)
  {
    assert v == (q * m + r) * 256 + v % 256;
  }

  lemma QuotientIs(v: nat, d: nat, q: nat, r: nat)
    requires d > 0 && v == q * d + r && r < d
    ensures v / d == q
  {
    var p := v / d;
    assert v == p * d + v % d;
    if p < q {
      Gap(p, q, d);
    } else if q < p {
      Gap(q, p, d);
    }
  }

  lemma Gap(p: nat, q: nat, d: nat)
    requires p < q
    ensures p * d + d <= q * d
  {
    assert q * d == p * d + d + (q - p - 1) * d;
  }

  lemma Limits()
    ensures Limit(4) == TWO_TO_THE_32 && Limit(8) == TWO_TO_THE_64
  {
    assert Limit(2) == 0x1_0000;
    assert Limit(4) == 0x1_0000_0000;
    assert Limit(6) == 0x1_0000_0000_0000;
  }

  // Go's conversions between integer types keep the low bits.
  function ToUint32(x: nat): uint32 {
    x % TWO_TO_THE_32
  }

  function ToUint64(x: int64): uint64 {
    if x < 0 then x + TWO_TO_THE_64 else x
  }

  function ToInt64(x: uint64): int64 {
    if x < TWO_TO_THE_63 then x else x - TWO_TO_THE_64
  }

  // [4 bytes token length][token][4 bytes URL length][URL][4 bytes: 8][8 bytes timestamp]
  function Payload(token: seq<byte>, url: seq<byte>, timestamp: int64): seq<byte> {
    Prefixed(token, UrlPart(url, timestamp))
  }

  function UrlPart(url: seq<byte>, timestamp: int64): seq<byte> {
    Prefixed(url, StampPart(timestamp))
  }

  // A field behind its length, and what follows it.
  function Prefixed(data: seq<byte>, rest: seq<byte>): seq<byte> {
    BigEndian(ToUint32(|data|), 4) + data + rest
  }

  function StampPart(timestamp: int64): seq<byte> {
    BigEndian(8, 4) + BigEndian(ToUint64(timestamp), 8)
  }

  method AppendBigEndianUint32(buf: seq<byte>, v: uint32) returns (res: seq<byte>)
    ensures res == buf + BigEndian(v, 4)
    ensures res == buf + [v / 0x100_0000, v / 0x1_0000 % 0x100, v / 0x100 % 0x100, v % 0x100]
  {
    var b := new byte[4];
    b[0], b[1], b[2], b[3] := v / 0x100_0000 % 0x100, v / 0x1_0000 % 0x100, v / 0x100 % 0x100, v % 0x100;
    assert v / 0x100 / 0x100 == v / 0x1_0000 && v / 0x1_0000 / 0x100 == v / 0x100_0000;
    assert BigEndian(v, 4) == BigEndian(v / 0x1_0000, 2) + [v / 0x100 % 0x100, v % 0x100];
    assert b[..] == BigEndian(v, 4);
    return buf + b[..];
  }

  method AppendBigEndianUint64(buf: seq<byte>, v: uint64) returns (res: seq<byte>)
    ensures res == buf + BigEndian(v, 8)
  {
    var b := new byte[8];
    var rest: nat := v;
    var i := 8;
    while i > 0
      invariant 0 <= i <= 8
      invariant BigEndian(v, 8) == BigEndian(rest, i) + b[i..]
    {
      i := i - 1;
      b[i] := rest % 0x100;
      rest := rest / 0x100;
    }
    assert b[0..] == b[..];
    return buf + b[..];
  }

  lemma Regroup(a: seq<byte>, b: seq<byte>, c: seq<byte>, d: seq<byte>, e: seq<byte>, f: seq<byte>)
    ensures [] + a + b + c + d + e + f == a + b + (c + d + (e + f))
  {
  }

  method BuildProofPayload(accessToken: seq<byte>, urlUpper: seq<byte>, timestamp: int64) returns (buf: seq<byte>)
    ensures buf == Payload(accessToken, urlUpper, timestamp)
    ensures |buf| == |accessToken| + |urlUpper| + 20
  {
    buf := [];
    buf := AppendBigEndianUint32(buf, ToUint32(|accessToken|));
    buf := buf + accessToken;
    buf := AppendBigEndianUint32(buf, ToUint32(|urlUpper|));
    buf := buf + urlUpper;
    buf := AppendBigEndianUint32(buf, 8);
    buf := AppendBigEndianUint64(buf, ToUint64(timestamp));
    assert StampPart(timestamp) == BigEndian(8, 4) + BigEndian(ToUint64(timestamp), 8);
    Regroup(BigEndian(ToUint32(|accessToken|), 4), accessToken, BigEndian(ToUint32(|urlUpper|), 4), urlUpper,
            BigEndian(8, 4), BigEndian(ToUint64(timestamp), 8));
  }

  /** Where everything is in the payload: the length of the token, the token, the length of
      the URL, the URL, the length 8, and the timestamp in two's complement. */
  lemma PayloadLayout(token: seq<byte>, url: seq<byte>, timestamp: int64)
    ensures var bytes, t, u := Payload(token, url, timestamp), |token|, |url|;
            && |bytes| == t + u + 20
            && bytes[..4] == BigEndian(t % 0x1_0000_0000, 4) && bytes[4..4 + t] == token
            && bytes[4 + t..8 + t] == BigEndian(u % 0x1_0000_0000, 4) && bytes[8 + t..8 + t + u] == url
            && bytes[8 + t + u..12 + t + u] == [0, 0, 0, 8]
            && bytes[12 + t + u..]
               == BigEndian(if timestamp < 0 then timestamp + 0x1_0000_0000_0000_0000 else timestamp, 8)
  {
    var head, rest := BigEndian(ToUint32(|token|), 4), UrlPart(url, timestamp);
    var mid, tail := BigEndian(ToUint32(|url|), 4), StampPart(timestamp);
    Pieces(head, token, rest);
    Pieces(mid, url, tail);
    Eight();
    assert tail == [0, 0, 0, 8] + BigEndian(ToUint64(timestamp), 8);
    var bytes := Payload(token, url, timestamp);
    assert bytes == head + token + rest && rest == mid + url + tail;
    Shift(bytes, head + token, rest);
  }

  lemma Eight()
    ensures BigEndian(8, 4) == [0, 0, 0, 8]
  {
    assert BigEndian(0, 2) == [0, 0];
    assert BigEndian(0, 3) == [0, 0, 0];
  }

  lemma Pieces(a: seq<byte>, b: seq<byte>, c: seq<byte>)
    ensures (a + b + c)[..|a|] == a && (a + b + c)[|a|..|a| + |b|] == b && (a + b + c)[|a| + |b|..] == c
  {
  }

  lemma Shift(bytes: seq<byte>, front: seq<byte>, rest: seq<byte>)
    requires bytes == front + rest
    ensures forall i, j :: 0 <= i <= j <= |rest| ==> bytes[|front| + i..|front| + j] == rest[i..j]
    ensures forall i :: 0 <= i <= |rest| ==> bytes[|front| + i..] == rest[i..]
  {
  }

  // A length-prefixed field and what follows it.
  function Field(bytes: seq<byte>): (field: Option<(seq<byte>, seq<byte>)>)
    ensures field.Some? ==>
              |field.value.0| < TWO_TO_THE_32 && bytes == Prefixed(field.value.0, field.value.1)
  {
    if |bytes| < 4 then None
    else
      var n := FromBigEndian(bytes[..4]);
      if |bytes| - 4 < n then None
      else
        EncodeBigEndian(bytes[..4]);
        Limits();
        Some((bytes[4..4 + n], bytes[4 + n..]))
  }

  datatype Signed = Signed(token: seq<byte>, url: seq<byte>, timestamp: int64)

  // The three fields in turn, the last of eight bytes and with nothing after it.
  function ReadStamp(bytes: seq<byte>): (stamp: Option<int64>)
    ensures stamp.Some? ==> bytes == StampPart(stamp.value)
  {
    var field := Field(bytes);
    if field == None || |field.value.0| != 8 || field.value.1 != [] then None
    else
      EncodeBigEndian(field.value.0);
      Limits();
      Some(ToInt64(FromBigEndian(field.value.0)))
  }

  function ReadUrl(bytes: seq<byte>): (res: Option<(seq<byte>, int64)>)
    ensures res.Some? ==> bytes == UrlPart(res.value.0, res.value.1)
  {
    var field := Field(bytes);
    if field == None then None
    else
      var stamp := ReadStamp(field.value.1);
      if stamp == None then None else Some((field.value.0, stamp.value))
  }

  function Decode(bytes: seq<byte>): Option<Signed> {
    var field := Field(bytes);
    if field == None then None
    else
      var rest := ReadUrl(field.value.1);
      if rest == None then None else Some(Signed(field.value.0, rest.value.0, rest.value.1))
  }

  lemma FieldOf(n: uint32, data: seq<byte>, rest: seq<byte>)
    requires n <= |data + rest|
    ensures Field(BigEndian(n, 4) + data + rest) == Some(((data + rest)[..n], (data + rest)[n..]))
  {
    Limits();
    DecodeBigEndian(n, 4);
    var bytes := BigEndian(n, 4) + data + rest;
    assert bytes[..4] == BigEndian(n, 4);
    assert bytes[4..] == data + rest;
    assert bytes[4..4 + n] == (data + rest)[..n] && bytes[4 + n..] == (data + rest)[n..];
  }

  // A field that fits is read back.
  lemma FieldBack(data: seq<byte>, rest: seq<byte>)
    requires |data| < TWO_TO_THE_32
    ensures Field(Prefixed(data, rest)) == Some((data, rest))
  {
    FieldOf(|data|, data, rest);
    assert (data + rest)[..|data|] == data && (data + rest)[|data|..] == rest;
  }

  lemma StampBack(timestamp: int64)
    ensures ReadStamp(StampPart(timestamp)) == Some(timestamp)
  {
    var ts := BigEndian(ToUint64(timestamp), 8);
    FieldBack(ts, []);
    assert StampPart(timestamp) == Prefixed(ts, []);
    Limits();
    DecodeBigEndian(ToUint64(timestamp), 8);
  }

  lemma UrlBack(url: seq<byte>, timestamp: int64)
    ensures ReadUrl(UrlPart(url, timestamp)) == Some((url, timestamp)) <==> |url| < TWO_TO_THE_32
  {
    if |url| < TWO_TO_THE_32 {
      FieldBack(url, StampPart(timestamp));
      StampBack(timestamp);
    } else {
      FieldOf(ToUint32(|url|), url, StampPart(timestamp));
    }
  }

  lemma DecodeIs(bytes: seq<byte>, token: seq<byte>, rest: seq<byte>)
    requires Field(bytes) == Some((token, rest))
    ensures Decode(bytes)
         == if ReadUrl(rest) == None then None else Some(Signed(token, ReadUrl(rest).value.0, ReadUrl(rest).value.1))
  {
  }

  lemma PayloadField(token: seq<byte>, url: seq<byte>, timestamp: int64)
    ensures Field(Payload(token, url, timestamp)).Some?
    ensures var field := Field(Payload(token, url, timestamp)).value;
            if |token| < TWO_TO_THE_32 then field == (token, UrlPart(url, timestamp)) else |field.0| != |token|
  {
    if |token| < TWO_TO_THE_32 {
      FieldBack(token, UrlPart(url, timestamp));
    } else {
      FieldOf(ToUint32(|token|), token, UrlPart(url, timestamp));
    }
  }

  /** The decoder recovers token, URL and timestamp from their payload exactly when the
      two lengths fit the fields that hold them. */
  lemma {:induction false} DecodePayload(token: seq<byte>, url: seq<byte>, timestamp: int64)
    ensures Decode(Payload(token, url, timestamp)) == Some(Signed(token, url, timestamp))
       <==> |token| < TWO_TO_THE_32 && |url| < TWO_TO_THE_32
  {
    var bytes := Payload(token, url, timestamp);
    PayloadField(token, url, timestamp);
    UrlBack(url, timestamp);
    DecodeIs(bytes, Field(bytes).value.0, Field(bytes).value.1);
  }

  lemma DecodedFields(bytes: seq<byte>)
    requires Decode(bytes).Some?
    ensures Field(bytes).Some? && ReadUrl(Field(bytes).value.1).Some?
    ensures Decode(bytes).value.token == Field(bytes).value.0
    ensures (Decode(bytes).value.url, Decode(bytes).value.timestamp) == ReadUrl(Field(bytes).value.1).value
  {
  }

  /** What the decoder accepts is the payload of what it returns. */
  lemma PayloadOfDecoded(bytes: seq<byte>)
    requires Decode(bytes).Some?
    ensures var d := Decode(bytes).value; Payload(d.token, d.url, d.timestamp) == bytes
  {
    DecodedFields(bytes);
  }

  /** Different requests are signed over different payloads. */
  lemma {:induction false} PayloadIsInjective(a: Signed, b: Signed)
    requires |a.token| < TWO_TO_THE_32 && |a.url| < TWO_TO_THE_32
    requires |b.token| < TWO_TO_THE_32 && |b.url| < TWO_TO_THE_32
    requires Payload(a.token, a.url, a.timestamp) == Payload(b.token, b.url, b.timestamp)
    ensures a == b
  {
    DecodePayload(a.token, a.url, a.timestamp);
    DecodePayload(b.token, b.url, b.timestamp);
  }

  // .NET ticks, of 100 nanoseconds, from the year 1 to 1970.
  const UNIX_EPOCH_TICKS: int := 621_355_968_000_000_000

  const MAX_AGE: int := 20 * 60 * 1_000_000_000

  // The farthest a tick count can be from the Unix epoch for its nanoseconds to fit.
  const TICK_RANGE: int := 92_233_720_368_547_758

  // The value of x in 64-bit two's complement.
  function Wrap(x: int): int64 {
    (x + TWO_TO_THE_63) % TWO_TO_THE_64 - TWO_TO_THE_63
  }

  // time.Time.Sub, which saturates.
  function Sub(a: int, b: int): int64 {
    if a - b < -TWO_TO_THE_63 then -TWO_TO_THE_63
    else if a - b >= TWO_TO_THE_63 then TWO_TO_THE_63 - 1
    else a - b
  }

  // The instant of a tick count in nanoseconds from the Unix epoch, as the service computes it.
  function UnixNanos(ticks: int64): int64 {
    Wrap(Wrap(ticks - UNIX_EPOCH_TICKS) * 100)
  }

  function Abs(x: int): nat {
    if x < 0 then -x else x
  }

  lemma WrapFits(x: int)
    ensures -TWO_TO_THE_63 <= x < TWO_TO_THE_63 ==> Wrap(x) == x
  {
  }

  /** isTimestampFresh, at `now` nanoseconds from the Unix epoch, 1970 to 2262. Where the
      multiplication does not overflow, it is exactly the test on the true skew; and the
      negation never overflows. */
  method IsTimestampFresh(ticks: int64, now: int) returns (timely: bool)
    requires 0 <= now < TWO_TO_THE_63
    ensures Abs(ticks - 621_355_968_000_000_000) <= 92_233_720_368_547_758 ==>
              (timely <==> Abs(now - (ticks - 621_355_968_000_000_000) * 100) <= 1_200_000_000_000)
    ensures timely <==> Abs(now - UnixNanos(ticks)) <= 1_200_000_000_000
  {
    hide Wrap;
    var unixNanos := Wrap(Wrap(ticks - UNIX_EPOCH_TICKS) * 100);
    WrapFits(ticks - UNIX_EPOCH_TICKS);
    WrapFits((ticks - UNIX_EPOCH_TICKS) * 100);
    var skew := Sub(now, unixNanos);
    if skew < 0 {
      WrapFits(-skew);
      assert skew > -TWO_TO_THE_63;
      skew := Wrap(-skew);
    }
    timely := skew <= MAX_AGE;
  }

  lemma WrapPeriod(x: int, k: int)
    ensures Wrap(x + k * TWO_TO_THE_64) == Wrap(x)
  {
  }

  lemma WrapDiffers(x: int) returns (k: int)
    ensures Wrap(x) == x + k * TWO_TO_THE_64
  {
    k := -((x + TWO_TO_THE_63) / TWO_TO_THE_64);
  }

  /** The instant is the true one but for a multiple of 2^64, and fits 64 bits, which leaves no
      other. */
  lemma UnixNanosIs(ticks: int64)
    ensures exists m: int :: UnixNanos(ticks) == (ticks - 621_355_968_000_000_000) * 100 + m * 0x1_0000_0000_0000_0000
    ensures -0x8000_0000_0000_0000 <= UnixNanos(ticks) < 0x8000_0000_0000_0000
  {
    hide Wrap;
    var a := WrapDiffers(ticks - UNIX_EPOCH_TICKS);
    var b := WrapDiffers(Wrap(ticks - UNIX_EPOCH_TICKS) * 100);
    assert UnixNanos(ticks) == (ticks - 621_355_968_000_000_000) * 100 + (a * 100 + b) * 0x1_0000_0000_0000_0000;
  }

  /** Over all tick counts the instant, and with it the verdict, repeats every 2^62 ticks:
      a hundred times that is a multiple of 2^64. */
  lemma UnixNanosPeriod(ticks: int64)
    requires ticks + TWO_TO_THE_62 < TWO_TO_THE_63
    ensures UnixNanos(ticks + TWO_TO_THE_62) == UnixNanos(ticks)
  {
    var a := WrapDiffers(ticks - UNIX_EPOCH_TICKS);
    var b := WrapDiffers(ticks + TWO_TO_THE_62 - UNIX_EPOCH_TICKS);
    var x := Wrap(ticks - UNIX_EPOCH_TICKS) * 100;
    WrapPeriod(x, 25 + 100 * (b - a));
    assert Wrap(ticks + TWO_TO_THE_62 - UNIX_EPOCH_TICKS) * 100 == x + (25 + 100 * (b - a)) * TWO_TO_THE_64;
  }

  // A hundred times less than 2^62 is no multiple of 2^64, as 25 is odd.
  lemma NoMultiple(shift: int, m: int)
    requires 0 < shift < TWO_TO_THE_62
    ensures shift * 100 != m * TWO_TO_THE_64
  {
  }

  /** No shorter shift of the ticks has that effect. */
  lemma {:induction false} UnixNanosNoShorterPeriod(ticks: int64, shift: int)
    requires 0 < shift < TWO_TO_THE_62 && ticks + shift < TWO_TO_THE_63
    ensures UnixNanos(ticks + shift) != UnixNanos(ticks)
  {
    var a := WrapDiffers(ticks - UNIX_EPOCH_TICKS);
    var b := WrapDiffers(ticks + shift - UNIX_EPOCH_TICKS);
    var c := WrapDiffers(Wrap(ticks - UNIX_EPOCH_TICKS) * 100);
    var d := WrapDiffers(Wrap(ticks + shift - UNIX_EPOCH_TICKS) * 100);
    NoMultiple(shift, c - d + 100 * (a - b));
  }
}
