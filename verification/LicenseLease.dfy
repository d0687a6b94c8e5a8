/** The binary form of a licence lease: little-endian numbers and length-prefixed UTF-8 texts. */
module LicenseLease {
  import opened Options
  import opened Utf8

  const MAGIC := 0x314C4644
  const VERSION := 3
  const MAX_BYTES := 65536
  const MAX_TEXT := 16384

  newtype int64 = x: int | -0x8000_0000_0000_0000 <= x < 0x8000_0000_0000_0000

  /** A well-formed text; as UTF-16 and as UTF-8 it is the same sequence of scalar values. */
  type Text = seq<Scalar>

  datatype Lease = Lease(cardDuration: int64, expireTime: int64, validatedAt: int64, lastUsedAt: int64,
    licenseKey: Text, machineId: Text, cloudServerUrl: Text, serverSessionToken: Text, environment: Text,
    endpointManifestUrl: Text)

  // ---- Numbers ----

  function Power(n: nat): nat { if n == 0 then 1 else 256 * Power(n - 1) }

  /** The n lowest bytes, lowest first. */
  function Low(value: nat, n: nat): (r: seq<byte>)
    ensures |r| == n
  {
    if n == 0 then [] else [(value % 256) as byte] + Low(value / 256, n - 1)
  }

  function Number(bytes: seq<byte>): nat {
    if bytes == [] then 0 else bytes[0] as int + 256 * Number(bytes[1..])
  }

  lemma {:induction false} NumberOfLow(value: nat, n: nat)
    requires value < Power(n)
    ensures Number(Low(value, n)) == value
  {
    if n > 0 { NumberOfLow(value / 256, n - 1); }
  }

  lemma {:induction false} LowestByte(low: nat, rest: nat)
    requires low < 256
    ensures (low + 256 * rest) % 256 == low && (low + 256 * rest) / 256 == rest
  {}

  lemma {:induction false} LowOfNumber(bytes: seq<byte>)
    ensures Number(bytes) < Power(|bytes|) && Low(Number(bytes), |bytes|) == bytes
  {
    if bytes != [] {
      LowOfNumber(bytes[1..]);
      var low, rest := bytes[0] as int, Number(bytes[1..]);
      LowestByte(low, rest);
      assert Low(Number(bytes), |bytes|) == [low as byte] + Low(rest, |bytes| - 1);
    }
  }

  lemma {:induction false} NumberAppends(bytes: seq<byte>, b: byte)
    ensures Number(bytes + [b]) == Number(bytes) + b as int * Power(|bytes|)
  {
    if bytes == [] {
      assert Number([b][1..]) == 0;
      assert [] + [b] == [b];
    } else {
      assert (bytes + [b])[1..] == bytes[1..] + [b];
      NumberAppends(bytes[1..], b);
    }
  }

  lemma {:induction false} Powers()
    ensures Power(4) == 0x1_0000_0000 && Power(8) == 0x1_0000_0000_0000_0000
  {
    assert Power(1) == 256 && Power(2) == 65536 && Power(3) == 0x100_0000 && Power(4) == 0x1_0000_0000;
    assert Power(5) == 0x100_0000_0000 && Power(6) == 0x1_0000_0000_0000 && Power(7) == 0x100_0000_0000_0000;
  }

  /** A signed number as its two's complement. */
  function Bits(value: int64): nat {
    if value < 0 then value as int + 0x1_0000_0000_0000_0000 else value as int
  }

  function Signed(bits: nat): int64
    requires bits < 0x1_0000_0000_0000_0000
  {
    if bits < 0x8000_0000_0000_0000 then bits as int64 else (bits - 0x1_0000_0000_0000_0000) as int64
  }

  function I64(value: int64): seq<byte> { Low(Bits(value), 8) }

  function U32(value: nat): seq<byte> { Low(value, 4) }

  method Append(output: seq<byte>, value: nat, n: nat) returns (r: seq<byte>)
    ensures r == output + Low(value, n)
  {
    r := output;
    var rest: nat, left: nat := value, n;
    while left > 0
      invariant left <= n && r + Low(rest, left) == output + Low(value, n)
    {
      r := r + [(rest % 256) as byte];
      rest, left := rest / 256, left - 1;
    }
  }

  method Read(bytes: seq<byte>, at: nat, n: nat) returns (value: Option<nat>)
    requires at <= |bytes|
    ensures value.Some? <==> at + n <= |bytes|
    ensures value.Some? ==> value.value < Power(n) && Low(value.value, n) == bytes[at..at + n]
  {
    if |bytes| - at < n { return None; }
    var v, place := 0, 1;
    for k := 0 to n
      invariant v == Number(bytes[at..at + k]) && place == Power(k)
    {
      assert bytes[at..at + k + 1] == bytes[at..at + k] + [bytes[at + k]];
      NumberAppends(bytes[at..at + k], bytes[at + k]);
      v := v + bytes[at + k] as int * place;
      place := 256 * place;
    }
    LowOfNumber(bytes[at..at + n]);
    value := Some(v);
  }

  // ---- Texts ----

  function TextBytes(text: Text): seq<byte> { U32(|EncodeAll(text)|) + EncodeAll(text) }

  predicate TextFits(text: Text) { |EncodeAll(text)| <= MAX_TEXT }

  function TextsBytes(texts: seq<Text>): seq<byte> {
    if texts == [] then [] else TextBytes(texts[0]) + TextsBytes(texts[1..])
  }

  /** A text is told apart from whatever follows it. */
  lemma {:induction false} TextEnds(a: Text, b: Text, x: seq<byte>, y: seq<byte>)
    requires TextFits(a) && TextFits(b) && TextBytes(a) + x == TextBytes(b) + y
    ensures a == b && x == y
  {
    hide EncodeAll;
    var p, q := EncodeAll(a), EncodeAll(b);
    assert (TextBytes(a) + x)[..4] == U32(|p|) && (TextBytes(b) + y)[..4] == U32(|q|);
    Powers();
    NumberOfLow(|p|, 4);
    NumberOfLow(|q|, 4);
    assert |p| == |q|;
    assert (TextBytes(a) + x)[4..4 + |p|] == p && (TextBytes(b) + y)[4..4 + |q|] == q;
    assert (TextBytes(a) + x)[4 + |p|..] == x && (TextBytes(b) + y)[4 + |q|..] == y;
    EncodingIsInjective(a, b);
  }

  lemma {:induction false} TextsEnd(a: seq<Text>, b: seq<Text>, x: seq<byte>, y: seq<byte>)
    requires |a| == |b| && (forall t | t in a :: TextFits(t)) && (forall t | t in b :: TextFits(t))
    requires TextsBytes(a) + x == TextsBytes(b) + y
    ensures a == b && x == y
  {
    hide TextBytes, TextFits;
    if a == [] {
      assert x == [] + x && y == [] + y;
    } else {
      assert TextsBytes(a) + x == TextBytes(a[0]) + (TextsBytes(a[1..]) + x);
      assert TextsBytes(b) + y == TextBytes(b[0]) + (TextsBytes(b[1..]) + y);
      assert a[0] in a && b[0] in b;
      TextEnds(a[0], b[0], TextsBytes(a[1..]) + x, TextsBytes(b[1..]) + y);
      TextsEnd(a[1..], b[1..], x, y);
      assert a == [a[0]] + a[1..] && b == [b[0]] + b[1..];
    }
  }

  lemma {:induction false} TextsConcat(a: seq<Text>, b: seq<Text>)
    ensures TextsBytes(a + b) == TextsBytes(a) + TextsBytes(b)
  {
    hide TextBytes;
    if a == [] { assert a + b == b; }
    else {
      assert (a + b)[1..] == a[1..] + b;
      TextsConcat(a[1..], b);
    }
  }

  method AppendText(output: seq<byte>, text: Text) returns (r: Option<seq<byte>>)
    ensures r.Some? <==> TextFits(text)
    ensures r.Some? ==> r.value == output + TextBytes(text)
  {
    var utf8 := EncodeAll(text);
    if |utf8| > MAX_TEXT { return None; }
    var more := Append(output, |utf8|, 4);
    r := Some(more + utf8);
  }

  /** What stands at a place, if it is a text within its limit. */
  ghost predicate TextAt(bytes: seq<byte>, at: nat, text: Text) {
    at <= |bytes| && TextFits(text) && TextBytes(text) <= bytes[at..]
  }

  method ReadText(bytes: seq<byte>, at: nat) returns (text: Option<Text>, next: nat)
    requires at <= |bytes|
    ensures text.Some? ==> TextAt(bytes, at, text.value) && next == at + |TextBytes(text.value)| <= |bytes|
    ensures text.None? ==> forall t :: !TextAt(bytes, at, t)
  {
    hide EncodeAll, Low;
    next := at;
    var length := Read(bytes, at, 4);
    forall t | TextAt(bytes, at, t) ensures length == Some(|EncodeAll(t)|) && at + 4 + |EncodeAll(t)| <= |bytes| {
      LengthAt(bytes, at, t, length);
    }
    if length.None? || length.value > MAX_TEXT || |bytes| - at - 4 < length.value { return None, at; }
    var body := bytes[at + 4..at + 4 + length.value];
    forall t | TextAt(bytes, at, t) ensures EncodeAll(t) == body { BodyAt(bytes, at, t); }
    var decoded := DecodeText(body);
    if decoded.None? { return None, at; }
    text := decoded;
    next := at + 4 + length.value;
    FoundAt(bytes, at, decoded.value, length.value);
  }

  lemma {:induction false} LengthAt(bytes: seq<byte>, at: nat, t: Text, length: Option<nat>)
    requires TextAt(bytes, at, t)
    requires length.Some? <==> at + 4 <= |bytes|
    requires length.Some? ==> length.value < Power(4) && Low(length.value, 4) == bytes[at..at + 4]
    ensures length == Some(|EncodeAll(t)|) && at + 4 + |EncodeAll(t)| <= |bytes|
  {
    hide EncodeAll, Low, Power;
    var n := |EncodeAll(t)|;
    assert |TextBytes(t)| == 4 + n;
    assert bytes[at..at + 4] == bytes[at..][..4] == TextBytes(t)[..4] == U32(n);
    Powers();
    NumberOfLow(n, 4);
    NumberOfLow(length.value, 4);
  }

  lemma {:induction false} BodyAt(bytes: seq<byte>, at: nat, t: Text)
    requires TextAt(bytes, at, t)
    ensures at + 4 + |EncodeAll(t)| <= |bytes| && bytes[at + 4..at + 4 + |EncodeAll(t)|] == EncodeAll(t)
  {
    hide EncodeAll, Low;
    var n := |EncodeAll(t)|;
    assert |TextBytes(t)| == 4 + n;
    assert bytes[at + 4..at + 4 + n] == bytes[at..][4..4 + n] == TextBytes(t)[4..4 + n] == EncodeAll(t);
  }

  lemma {:induction false} FoundAt(bytes: seq<byte>, at: nat, t: Text, n: nat)
    requires at + 4 + n <= |bytes| && bytes[at + 4..at + 4 + n] == EncodeAll(t) && n <= MAX_TEXT
    requires bytes[at..at + 4] == Low(n, 4)
    ensures TextAt(bytes, at, t) && |TextBytes(t)| == 4 + n
  {
    hide EncodeAll, Low;
    assert bytes[at..][..4 + n] == bytes[at..at + 4] + bytes[at + 4..at + 4 + n];
    assert |EncodeAll(t)| == n;
    assert TextBytes(t) == bytes[at..][..4 + n];
  }

  // ---- Leases ----

  function Header(lease: Lease, version: nat): seq<byte> {
    U32(MAGIC) + U32(version) + I64(lease.cardDuration) + I64(lease.expireTime) + I64(lease.validatedAt) +
    I64(lease.lastUsedAt)
  }

  /** The texts that a version of the format holds. */
  function TextCount(version: nat): nat { if version >= 3 then 6 else if version == 2 then 4 else 3 }

  function AllTexts(lease: Lease): seq<Text> {
    [lease.licenseKey, lease.machineId, lease.cloudServerUrl, lease.serverSessionToken, lease.environment,
     lease.endpointManifestUrl]
  }

  function Texts(lease: Lease, version: nat): seq<Text> { AllTexts(lease)[..TextCount(version)] }

  function EncodeLease(lease: Lease, version: nat): seq<byte> {
    Header(lease, version) + TextsBytes(Texts(lease, version))
  }

  /** A lease that this version of the format can hold. */
  ghost predicate Fits(lease: Lease, version: nat) {
    && 1 <= version <= VERSION
    && (forall t | t in AllTexts(lease) :: TextFits(t))
    && (version < 2 ==> lease.serverSessionToken == [])
    && (version < 3 ==> lease.environment == [] && lease.endpointManifestUrl == [])
    && |EncodeLease(lease, version)| <= MAX_BYTES
  }

  lemma {:induction false} I64IsInjective(a: int64, b: int64)
    requires I64(a) == I64(b)
    ensures a == b
  {
    hide Low;
    Powers();
    NumberOfLow(Bits(a), 8);
    NumberOfLow(Bits(b), 8);
  }

  lemma {:induction false} U32IsInjective(a: nat, b: nat)
    requires U32(a) == U32(b) && a <= VERSION && b <= VERSION
    ensures a == b
  {
    hide Low;
    Powers();
    NumberOfLow(a, 4);
    NumberOfLow(b, 4);
  }

  lemma {:induction false} HeaderFields(lease: Lease, version: nat, x: seq<byte>)
    ensures |Header(lease, version)| == 40
    ensures var bytes := Header(lease, version) + x;
      bytes[..4] == U32(MAGIC) && bytes[4..8] == U32(version) && bytes[8..16] == I64(lease.cardDuration) &&
      bytes[16..24] == I64(lease.expireTime) && bytes[24..32] == I64(lease.validatedAt) &&
      bytes[32..40] == I64(lease.lastUsedAt) && bytes[40..] == x
  {
    hide Low, Bits;
  }

  /** An encoding is told apart from whatever follows it. */
  lemma {:induction false} LeaseEnds(a: Lease, v: nat, x: seq<byte>, b: Lease, w: nat, y: seq<byte>)
    requires Fits(a, v) && Fits(b, w) && EncodeLease(a, v) + x == EncodeLease(b, w) + y
    ensures a == b && v == w && x == y
  {
    hide Low, TextsBytes, TextFits, U32, I64, Header;
    var s, t := TextsBytes(Texts(a, v)) + x, TextsBytes(Texts(b, w)) + y;
    assert EncodeLease(a, v) + x == Header(a, v) + s && EncodeLease(b, w) + y == Header(b, w) + t;
    HeaderFields(a, v, s);
    HeaderFields(b, w, t);
    U32IsInjective(v, w);
    I64IsInjective(a.cardDuration, b.cardDuration);
    I64IsInjective(a.expireTime, b.expireTime);
    I64IsInjective(a.validatedAt, b.validatedAt);
    I64IsInjective(a.lastUsedAt, b.lastUsedAt);
    TextsEnd(Texts(a, v), Texts(b, w), x, y);
    SameTexts(a, b, v);
  }

  lemma {:induction false} SameTexts(a: Lease, b: Lease, version: nat)
    requires Fits(a, version) && Fits(b, version) && Texts(a, version) == Texts(b, version)
    ensures AllTexts(a) == AllTexts(b)
    ensures a.licenseKey == b.licenseKey && a.machineId == b.machineId && a.cloudServerUrl == b.cloudServerUrl
    ensures a.serverSessionToken == b.serverSessionToken && a.environment == b.environment
    ensures a.endpointManifestUrl == b.endpointManifestUrl
  {
    hide EncodeLease, TextFits;
    var s, t := Texts(a, version), Texts(b, version);
    assert s[0] == t[0] && s[1] == t[1] && s[2] == t[2];
    if version >= 2 { assert s[3] == t[3]; }
    if version >= 3 { assert s[4] == t[4] && s[5] == t[5]; }
  }

  /** No strict prefix of an encoding is itself an encoding, in any version. */
  lemma {:induction false} PrefixIsRefused(lease: Lease, version: nat, n: nat, other: Lease, w: nat)
    requires Fits(lease, version) && n < |EncodeLease(lease, version)| && Fits(other, w)
    ensures EncodeLease(other, w) != EncodeLease(lease, version)[..n]
  {
    hide EncodeLease;
    var whole := EncodeLease(lease, version);
    if EncodeLease(other, w) == whole[..n] {
      assert whole == whole[..n] + whole[n..] && whole + [] == whole;
      LeaseEnds(lease, version, [], other, w, whole[n..]);
      assert false;
    }
  }

  /** Write a lease in the present version, unless a text or the whole is too long. */
  method Serialize(lease: Lease) returns (output: Option<seq<byte>>)
    ensures output.Some? <==> Fits(lease, VERSION)
    ensures output.Some? ==> output.value == EncodeLease(lease, VERSION)
  {
    hide Low, TextBytes, TextFits;
    var out := Append([], MAGIC, 4);
    out := Append(out, VERSION, 4);
    out := Append(out, Bits(lease.cardDuration), 8);
    out := Append(out, Bits(lease.expireTime), 8);
    out := Append(out, Bits(lease.validatedAt), 8);
    out := Append(out, Bits(lease.lastUsedAt), 8);
    assert out == Header(lease, VERSION);
    var texts := AllTexts(lease);
    for i := 0 to |texts|
      invariant out == Header(lease, VERSION) + TextsBytes(texts[..i])
      invariant forall k | 0 <= k < i :: TextFits(texts[k])
    {
      var more := AppendText(out, texts[i]);
      if more.None? {
        assert texts[i] in AllTexts(lease);
        return None;
      }
      OneMoreText(texts, i);
      out := more.value;
    }
    assert texts[..|texts|] == texts && Texts(lease, VERSION) == texts;
    if |out| > MAX_BYTES { return None; }
    output := Some(out);
  }

  lemma {:induction false} OneMoreText(texts: seq<Text>, i: nat)
    requires i < |texts|
    ensures TextsBytes(texts[..i + 1]) == TextsBytes(texts[..i]) + TextBytes(texts[i])
  {
    hide TextBytes;
    assert texts[..i + 1] == texts[..i] + [texts[i]];
    TextsConcat(texts[..i], [texts[i]]);
    OneText(texts[i]);
  }

  /** From here to the end stand exactly these texts, each within its limit. */
  ghost predicate HoldTexts(bytes: seq<byte>, start: nat, ts: seq<Text>) {
    start <= |bytes| && (forall t | t in ts :: TextFits(t)) && bytes[start..] == TextsBytes(ts)
  }

  /** Read the texts one after the other. */
  method ReadTexts(bytes: seq<byte>, start: nat, count: nat) returns (texts: Option<seq<Text>>)
    requires start <= |bytes|
    ensures texts.Some? ==> |texts.value| == count && HoldTexts(bytes, start, texts.value)
    ensures texts.None? ==> forall ts: seq<Text> | |ts| == count :: !HoldTexts(bytes, start, ts)
  {
    hide TextBytes, TextFits, TextsBytes, TextAt;
    var read: seq<Text> := [];
    var at := start;
    NoTexts();
    while |read| < count
      invariant start <= at <= |bytes| && |read| <= count && (forall t | t in read :: TextFits(t))
      invariant bytes[start..] == TextsBytes(read) + bytes[at..]
      decreases count - |read|
    {
      var text, next := ReadText(bytes, at);
      if text.None? {
        forall ts: seq<Text> | |ts| == count ensures !HoldTexts(bytes, start, ts) {
          NoSuchTexts(bytes, start, at, read, ts);
        }
        return None;
      }
      TextRead(bytes, start, at, read, text.value);
      read := read + [text.value];
      at := next;
    }
    if at != |bytes| {
      forall ts: seq<Text> | |ts| == count ensures !HoldTexts(bytes, start, ts) {
        LeftOver(bytes, start, read, ts, bytes[at..]);
      }
      return None;
    }
    assert bytes[at..] == [];
    texts := Some(read);
  }

  lemma {:induction false} NoTexts()
    ensures TextsBytes([]) == []
  {
  }

  lemma {:induction false} TextRead(bytes: seq<byte>, start: nat, at: nat, read: seq<Text>, text: Text)
    requires start <= at <= |bytes| && bytes[start..] == TextsBytes(read) + bytes[at..] && TextAt(bytes, at, text)
    ensures at + |TextBytes(text)| <= |bytes| && TextFits(text)
    ensures bytes[start..] == TextsBytes(read + [text]) + bytes[at + |TextBytes(text)|..]
  {
    hide TextBytes, TextFits, TextsBytes;
    var n := |TextBytes(text)|;
    OneMoreText(read + [text], |read|);
    assert (read + [text])[..|read|] == read && (read + [text])[..|read| + 1] == read + [text];
    assert bytes[at..][..n] == TextBytes(text);
    assert bytes[at..] == TextBytes(text) + bytes[at + n..];
  }

  /** If no text stands where the next one should, no list of texts fits. */
  lemma {:induction false} NoSuchTexts(bytes: seq<byte>, start: nat, at: nat, read: seq<Text>, ts: seq<Text>)
    requires start <= at <= |bytes| && bytes[start..] == TextsBytes(read) + bytes[at..]
    requires |read| < |ts| && (forall t | t in read :: TextFits(t))
    requires forall t :: !TextAt(bytes, at, t)
    ensures !HoldTexts(bytes, start, ts)
  {
    hide TextAt;
    if HoldTexts(bytes, start, ts) {
      NextStands(bytes, start, at, read, ts);
      assert false;
    }
  }

  lemma {:induction false} NextStands(bytes: seq<byte>, start: nat, at: nat, read: seq<Text>, ts: seq<Text>)
    requires start <= at <= |bytes| && bytes[start..] == TextsBytes(read) + bytes[at..]
    requires |read| < |ts| && (forall t | t in read :: TextFits(t)) && HoldTexts(bytes, start, ts)
    ensures TextAt(bytes, at, ts[|read|])
  {
    hide TextBytes, TextFits, TextsBytes;
    var k := |read|;
    var rest := ts[k + 1..];
    assert ts == ts[..k] + ([ts[k]] + rest);
    TextsConcat(ts[..k], [ts[k]] + rest);
    TextsConcat([ts[k]], rest);
    OneText(ts[k]);
    assert ts[k] in ts;
    TextsEnd(read, ts[..k], bytes[at..], TextBytes(ts[k]) + TextsBytes(rest));
    StandsAt(bytes, at, ts[k], TextsBytes(rest));
  }

  lemma {:induction false} OneText(t: Text)
    ensures TextsBytes([t]) == TextBytes(t)
  {
    hide TextBytes;
    var one := [t];
    assert one[1..] == [];
    assert TextsBytes(one) == TextBytes(t) + [];
  }

  lemma {:induction false} StandsAt(bytes: seq<byte>, at: nat, t: Text, rest: seq<byte>)
    requires at <= |bytes| && TextFits(t) && bytes[at..] == TextBytes(t) + rest
    ensures TextAt(bytes, at, t)
  {
    hide TextBytes;
  }

  lemma {:induction false} LeftOver(bytes: seq<byte>, start: nat, read: seq<Text>, ts: seq<Text>, rest: seq<byte>)
    requires |read| == |ts| && start <= |bytes| && bytes[start..] == TextsBytes(read) + rest && rest != []
    requires forall t | t in read :: TextFits(t)
    ensures !HoldTexts(bytes, start, ts)
  {
    hide TextBytes, TextFits, TextsBytes;
    if HoldTexts(bytes, start, ts) {
      assert TextsBytes(ts) + [] == TextsBytes(ts);
      TextsEnd(read, ts, rest, []);
      assert false;
    }
  }

  // ---- Reading a lease ----

  ghost predicate Encodes(bytes: seq<byte>, lease: Lease, version: nat) {
    Fits(lease, version) && bytes == EncodeLease(lease, version)
  }

  function WithTexts(cardDuration: int64, expireTime: int64, validatedAt: int64, lastUsedAt: int64, texts: seq<Text>)
    : Lease
    requires |texts| >= 3
  {
    Lease(cardDuration, expireTime, validatedAt, lastUsedAt, texts[0], texts[1], texts[2],
      if |texts| > 3 then texts[3] else [], if |texts| > 5 then texts[4] else [], if |texts| > 5 then texts[5] else [])
  }

  lemma {:induction false} LowOf(value: nat, n: nat, other: nat)
    requires value < Power(n) && other < Power(n) && Low(value, n) == Low(other, n)
    ensures value == other
  {
    hide Low, Power;
    NumberOfLow(value, n);
    NumberOfLow(other, n);
  }

  /** What the header of an encoding reads as. */
  lemma {:induction false} HeaderReads(bytes: seq<byte>, lease: Lease, version: nat, magic: nat, v: nat)
    requires Encodes(bytes, lease, version) && |bytes| >= 8
    requires magic < Power(4) && Low(magic, 4) == bytes[0..4] && v < Power(4) && Low(v, 4) == bytes[4..8]
    ensures |bytes| >= 40 && magic == MAGIC && v == version && 1 <= v <= VERSION
    ensures bytes[8..16] == I64(lease.cardDuration) && bytes[16..24] == I64(lease.expireTime)
    ensures bytes[24..32] == I64(lease.validatedAt) && bytes[32..40] == I64(lease.lastUsedAt)
    ensures bytes[40..] == TextsBytes(Texts(lease, version))
  {
    hide Low, Power, Header, TextsBytes, TextFits, I64;
    HeaderFields(lease, version, TextsBytes(Texts(lease, version)));
    Powers();
    assert bytes[0..4] == bytes[..4];
    LowOf(magic, 4, MAGIC);
    LowOf(v, 4, version);
  }

  lemma {:induction false} BitsOfSigned(bits: nat)
    requires bits < Power(8)
    ensures bits < 0x1_0000_0000_0000_0000 && Bits(Signed(bits)) == bits
  {
    hide Low;
    Powers();
  }

  method ReadSigned(bytes: seq<byte>, at: nat) returns (value: Option<int64>)
    requires at <= |bytes|
    ensures value.Some? <==> at + 8 <= |bytes|
    ensures value.Some? ==> I64(value.value) == bytes[at..at + 8]
  {
    hide Low, Power;
    var bits := Read(bytes, at, 8);
    if bits.None? { return None; }
    BitsOfSigned(bits.value);
    value := Some(Signed(bits.value));
  }

  /** Read a lease of any known version. What is read is exactly what was encoded: a record is given
      back if and only if the bytes are an encoding of it, to the last byte. */
  method Deserialize(bytes: seq<byte>) returns (r: Option<Lease>, ghost version: nat)
    ensures r.Some? ==> Encodes(bytes, r.value, version)
    ensures r.None? ==> forall lease, v: nat :: !Encodes(bytes, lease, v)
  {
    hide Low, Power, TextsBytes, TextFits, I64, Encodes, HoldTexts;
    r, version := None, 0;
    forall lease, v: nat | Encodes(bytes, lease, v) ensures 40 <= |bytes| <= MAX_BYTES { EncodedSize(bytes, lease, v); }
    if |bytes| == 0 || |bytes| > MAX_BYTES { return; }
    var magic := Read(bytes, 0, 4);
    if magic.None? { return; }
    var v := Read(bytes, 4, 4);
    if v.None? { return; }
    forall lease, w: nat | Encodes(bytes, lease, w)
      ensures magic.value == MAGIC && v.value == w && 1 <= w <= VERSION && |bytes| >= 40 && HeldBy(bytes, lease, w)
    {
      HeaderReads(bytes, lease, w, magic.value, v.value);
      EncodedHolds(bytes, lease, w);
    }
    if magic.value != MAGIC || v.value < 1 || v.value > VERSION { return; }
    version := v.value;
    var cardDuration := ReadSigned(bytes, 8);
    if cardDuration.None? { return; }
    var expireTime := ReadSigned(bytes, 16);
    if expireTime.None? { return; }
    var validatedAt := ReadSigned(bytes, 24);
    if validatedAt.None? { return; }
    var lastUsedAt := ReadSigned(bytes, 32);
    if lastUsedAt.None? { return; }
    var texts := ReadTexts(bytes, 40, TextCount(v.value));
    if texts.None? { return; }
    var lease := WithTexts(cardDuration.value, expireTime.value, validatedAt.value, lastUsedAt.value, texts.value);
    ReadIsEncoded(bytes, magic.value, v.value, lease, texts.value);
    r := Some(lease);
  }

  /** The texts of an encoding stand behind its header. */
  ghost predicate HeldBy(bytes: seq<byte>, lease: Lease, version: nat) {
    exists ts: seq<Text> :: |ts| == TextCount(version) && HoldTexts(bytes, 40, ts)
  }

  lemma {:induction false} EncodedSize(bytes: seq<byte>, lease: Lease, version: nat)
    requires Encodes(bytes, lease, version)
    ensures 40 <= |bytes| <= MAX_BYTES
  {
    hide Low, TextsBytes, TextFits, Header;
    HeaderFields(lease, version, []);
  }

  lemma {:induction false} EncodedHolds(bytes: seq<byte>, lease: Lease, version: nat)
    requires Encodes(bytes, lease, version)
    ensures HeldBy(bytes, lease, version)
  {
    hide Low, TextsBytes, TextFits, Header;
    HeaderFields(lease, version, TextsBytes(Texts(lease, version)));
    assert HoldTexts(bytes, 40, Texts(lease, version));
  }

  lemma {:induction false} ReadIsEncoded(bytes: seq<byte>, magic: nat, version: nat, lease: Lease, texts: seq<Text>)
    requires 40 <= |bytes| <= MAX_BYTES && 1 <= version <= VERSION && magic == MAGIC
    requires Low(magic, 4) == bytes[0..4] && Low(version, 4) == bytes[4..8]
    requires I64(lease.cardDuration) == bytes[8..16] && I64(lease.expireTime) == bytes[16..24]
    requires I64(lease.validatedAt) == bytes[24..32] && I64(lease.lastUsedAt) == bytes[32..40]
    requires |texts| == TextCount(version) && HoldTexts(bytes, 40, texts)
    requires lease == WithTexts(lease.cardDuration, lease.expireTime, lease.validatedAt, lease.lastUsedAt, texts)
    ensures Encodes(bytes, lease, version)
  {
    hide Low, TextsBytes, I64;
    assert Texts(lease, version) == texts;
    EmptyFits();
    forall t | t in AllTexts(lease) ensures TextFits(t) { assert t in texts || t == []; }
    assert bytes == bytes[0..4] + bytes[4..8] + bytes[8..16] + bytes[16..24] + bytes[24..32] + bytes[32..40] + bytes[40..];
  }

  lemma {:induction false} EmptyFits()
    ensures TextFits([])
  {
  }

  // ---- The codec's promises ----

  /** Every lease that can be written is read back: its bytes encode it and nothing else. */
  lemma {:induction false} RoundTrip(lease: Lease, other: Lease, v: nat)
    requires Fits(lease, VERSION)
    ensures Encodes(EncodeLease(lease, VERSION), lease, VERSION)
    ensures Encodes(EncodeLease(lease, VERSION), other, v) ==> other == lease && v == VERSION
  {
    hide Fits, EncodeLease;
    if Encodes(EncodeLease(lease, VERSION), other, v) {
      DecodedIsUnique(EncodeLease(lease, VERSION), lease, VERSION, other, v);
    }
  }

  /** Bytes encode at most one lease, in one version: what is read in the present version is written
      back to the same bytes. */
  lemma {:induction false} DecodedIsUnique(bytes: seq<byte>, a: Lease, v: nat, b: Lease, w: nat)
    requires Encodes(bytes, a, v) && Encodes(bytes, b, w)
    ensures a == b && v == w
  {
    hide Fits, EncodeLease;
    assert bytes + [] == bytes;
    LeaseEnds(a, v, [], b, w, []);
  }

  /** Bytes of an earlier version give a lease whose later fields are empty. */
  lemma {:induction false} EarlierVersionsAreShorter(bytes: seq<byte>, lease: Lease, version: nat)
    requires Encodes(bytes, lease, version) && version < VERSION
    ensures lease.environment == [] && lease.endpointManifestUrl == []
    ensures version == 1 ==> lease.serverSessionToken == []
    ensures !Encodes(bytes, lease, VERSION)
  {
    hide EncodeLease;
    if Encodes(bytes, lease, VERSION) {
      DecodedIsUnique(bytes, lease, version, lease, VERSION);
      assert false;
    }
  }

  // ---- Which bytes hold what ----

  /** Between these places stand the length of the text's UTF-8 form and that form itself. */
  ghost predicate Stands(bytes: seq<byte>, from: nat, to: nat, text: Text) {
    && from + 4 <= to <= |bytes|
    && Number(bytes[from..from + 4]) == to - from - 4 && bytes[from + 4..to] == EncodeAll(text)
  }

  lemma {:induction false} TextStands(bytes: seq<byte>, from: nat, text: Text, rest: seq<byte>) returns (to: nat)
    requires from <= |bytes| && TextFits(text) && bytes[from..] == TextBytes(text) + rest
    ensures Stands(bytes, from, to, text) && bytes[to..] == rest
  {
    hide EncodeAll, Low;
    var body := EncodeAll(text);
    to := from + 4 + |body|;
    var whole := bytes[from..];
    assert whole[..4] == U32(|body|) && whole[4..4 + |body|] == body && whole[4 + |body|..] == rest;
    assert bytes[from..from + 4] == whole[..4] && bytes[from + 4..to] == whole[4..4 + |body|] && bytes[to..] == whole[4 + |body|..];
    Powers();
    NumberOfLow(|body|, 4);
  }

  /** The places of the texts in an encoding. */
  ghost predicate Placed(bytes: seq<byte>, places: seq<nat>, texts: seq<Text>) {
    |places| == |texts| + 1 && forall k | 0 <= k < |texts| :: Stands(bytes, places[k], places[k + 1], texts[k])
  }

  lemma {:induction false} TextsStand(bytes: seq<byte>, from: nat, texts: seq<Text>) returns (places: seq<nat>)
    requires from <= |bytes| && (forall t | t in texts :: TextFits(t)) && bytes[from..] == TextsBytes(texts)
    ensures Placed(bytes, places, texts) && places[0] == from && places[|texts|] == |bytes|
    decreases |texts|
  {
    hide TextBytes, TextFits, Stands;
    if texts == [] {
      places := [from];
    } else {
      var to := TextStands(bytes, from, texts[0], TextsBytes(texts[1..]));
      TextEnd(bytes, from, to, texts[0]);
      var rest := TextsStand(bytes, to, texts[1..]);
      places := [from] + rest;
      forall k | 0 <= k < |texts| ensures Stands(bytes, places[k], places[k + 1], texts[k]) {
        if k > 0 { assert texts[1..][k - 1] == texts[k]; }
      }
    }
  }

  lemma {:induction false} TextEnd(bytes: seq<byte>, from: nat, to: nat, text: Text)
    requires Stands(bytes, from, to, text)
    ensures to <= |bytes|
  {
  }

  /** The layout of the format: from byte 40 to the end stand licence key, machine, server, from version 2 on
      session token, and from version 3 on environment and manifest, each behind its length. */
  lemma {:induction false} Layout(lease: Lease, version: nat) returns (places: seq<nat>)
    requires Fits(lease, version)
    ensures |places| == (if version == 1 then 4 else if version == 2 then 5 else 7)
    ensures var bytes := EncodeLease(lease, version);
      && places[0] == 40 && places[|places| - 1] == |bytes|
      && Stands(bytes, places[0], places[1], lease.licenseKey)
      && Stands(bytes, places[1], places[2], lease.machineId)
      && Stands(bytes, places[2], places[3], lease.cloudServerUrl)
      && (version >= 2 ==> Stands(bytes, places[3], places[4], lease.serverSessionToken))
      && (version >= 3 ==> Stands(bytes, places[4], places[5], lease.environment))
      && (version >= 3 ==> Stands(bytes, places[5], places[6], lease.endpointManifestUrl))
  {
    hide TextsBytes, TextFits, Stands, Header;
    var texts, bytes := Texts(lease, version), EncodeLease(lease, version);
    HeaderFields(lease, version, TextsBytes(texts));
    forall t | t in texts ensures TextFits(t) { assert t in AllTexts(lease); }
    places := TextsStand(bytes, 40, texts);
    assert texts[0] == lease.licenseKey && texts[1] == lease.machineId && texts[2] == lease.cloudServerUrl;
    assert version >= 2 ==> texts[3] == lease.serverSessionToken;
    assert version >= 3 ==> texts[4] == lease.environment && texts[5] == lease.endpointManifestUrl;
  }

  /** The first forty bytes: the mark, the version and the four times, in little-endian order. */
  lemma {:induction false} HeaderLayout(lease: Lease, version: nat)
    requires Fits(lease, version)
    ensures var bytes := EncodeLease(lease, version);
      && |bytes| >= 40 && Number(bytes[..4]) == 0x314C4644 && Number(bytes[4..8]) == version
      && Number(bytes[8..16]) == lease.cardDuration as int % 0x1_0000_0000_0000_0000
      && Number(bytes[16..24]) == lease.expireTime as int % 0x1_0000_0000_0000_0000
      && Number(bytes[24..32]) == lease.validatedAt as int % 0x1_0000_0000_0000_0000
      && Number(bytes[32..40]) == lease.lastUsedAt as int % 0x1_0000_0000_0000_0000
  {
    hide TextsBytes, TextFits, Low, Header;
    HeaderFields(lease, version, TextsBytes(Texts(lease, version)));
    Powers();
    NumberOfLow(MAGIC, 4);
    NumberOfLow(version, 4);
    BitsAre(lease.cardDuration);
    BitsAre(lease.expireTime);
    BitsAre(lease.validatedAt);
    BitsAre(lease.lastUsedAt);
  }

  lemma {:induction false} BitsAre(value: int64)
    ensures Number(I64(value)) == value as int % 0x1_0000_0000_0000_0000
  {
    hide Low;
    Powers();
    NumberOfLow(Bits(value), 8);
  }

  lemma {:induction false} AllFit(lease: Lease)
    ensures (forall t | t in AllTexts(lease) :: TextFits(t)) <==>
      |EncodeAll(lease.licenseKey)| <= 16384 && |EncodeAll(lease.machineId)| <= 16384 && |EncodeAll(lease.cloudServerUrl)| <= 16384 &&
      |EncodeAll(lease.serverSessionToken)| <= 16384 && |EncodeAll(lease.environment)| <= 16384 &&
      |EncodeAll(lease.endpointManifestUrl)| <= 16384
  {
    hide EncodeAll;
    var all := AllTexts(lease);
    assert all[0] in all && all[1] in all && all[2] in all && all[3] in all && all[4] in all && all[5] in all;
  }

  lemma {:induction false} EncodedLength(lease: Lease)
    ensures |EncodeLease(lease, 3)| == 64 + |EncodeAll(lease.licenseKey)| + |EncodeAll(lease.machineId)| +
      |EncodeAll(lease.cloudServerUrl)| + |EncodeAll(lease.serverSessionToken)| + |EncodeAll(lease.environment)| +
      |EncodeAll(lease.endpointManifestUrl)|
  {
    hide EncodeAll, Low, Header, TextsBytes;
    HeaderFields(lease, 3, []);
    assert Texts(lease, 3) == AllTexts(lease);
    SizeOfTexts(AllTexts(lease));
    SizeOfSix(AllTexts(lease));
  }

  /** A lease can be written exactly if no text is longer than 16384 bytes and all together, with the header
      and the lengths, no longer than 65536. */
  lemma {:induction false} WritableExactly(lease: Lease)
    ensures var a, b, c, d, e, f := |EncodeAll(lease.licenseKey)|, |EncodeAll(lease.machineId)|, |EncodeAll(lease.cloudServerUrl)|,
      |EncodeAll(lease.serverSessionToken)|, |EncodeAll(lease.environment)|, |EncodeAll(lease.endpointManifestUrl)|;
      Fits(lease, 3) <==>
        a <= 16384 && b <= 16384 && c <= 16384 && d <= 16384 && e <= 16384 && f <= 16384 && 64 + a + b + c + d + e + f <= 65536
  {
    hide EncodeAll, EncodeLease, AllTexts, TextFits;
    AllFit(lease);
    EncodedLength(lease);
  }

  lemma {:induction false} SizeFirst(texts: seq<Text>)
    requires texts != []
    ensures TextsSize(texts) == 4 + |EncodeAll(texts[0])| + TextsSize(texts[1..])
  {
  }

  lemma {:induction false} SizeOfSix(texts: seq<Text>)
    requires |texts| == 6
    ensures TextsSize(texts) == 24 + |EncodeAll(texts[0])| + |EncodeAll(texts[1])| + |EncodeAll(texts[2])| +
      |EncodeAll(texts[3])| + |EncodeAll(texts[4])| + |EncodeAll(texts[5])|
  {
    hide EncodeAll, TextsSize;
    for k := 0 to 6
      invariant TextsSize(texts) == 4 * k + TextsSize(texts[k..]) +
        (if k > 0 then |EncodeAll(texts[0])| else 0) + (if k > 1 then |EncodeAll(texts[1])| else 0) +
        (if k > 2 then |EncodeAll(texts[2])| else 0) + (if k > 3 then |EncodeAll(texts[3])| else 0) +
        (if k > 4 then |EncodeAll(texts[4])| else 0) + (if k > 5 then |EncodeAll(texts[5])| else 0)
    {
      SizeFirst(texts[k..]);
      assert texts[k..][1..] == texts[k + 1..];
    }
    SizeOfNone();
    assert texts[6..] == [];
  }

  lemma {:induction false} SizeOfNone()
    ensures TextsSize([]) == 0
  {
  }

  function TextsSize(texts: seq<Text>): nat {
    if texts == [] then 0 else 4 + |EncodeAll(texts[0])| + TextsSize(texts[1..])
  }

  lemma {:induction false} SizeOfTexts(texts: seq<Text>)
    ensures |TextsBytes(texts)| == TextsSize(texts)
  {
    hide EncodeAll, Low;
    if texts != [] { SizeOfTexts(texts[1..]); }
  }
}
