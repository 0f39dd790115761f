/** Device and host capabilities: the codec, and what a successful exchange guarantees. */
module Capabilities {
  import opened Prelude
  import opened Tlv

  const MAX_SIZE: nat := 16_777_216
  const CAPS_SIZE: nat := 256
  const NANOS_PER_MILLI: nat := 1_000_000

  const TAG_PING_TIMEOUT: Byte := 0x01
  const TAG_STATUS_SUPPORTED: Byte := 0x02
  const TAG_MAX_PACKET_SIZE: Byte := 0x03
  const TAG_ECHO_SUPPORTED: Byte := 0x04

  /** Durations are counted in nanoseconds. */
  datatype DeviceCaps = DeviceCaps(pingTimeout: Option<nat>, status: bool, echo: bool, maxSize: nat)

  datatype HostCaps = HostCaps(maxSize: nat)

  const DEFAULT_DEVICE_CAPS := DeviceCaps(None, false, false, MAX_SIZE)
  const DEFAULT_HOST_CAPS := HostCaps(MAX_SIZE)

  // ---------------------------------------------------------------- encoding

  /** Whole milliseconds, saturating at `u32::MAX`; zero stands for "no timeout". */
  function Millis(d: Option<nat>): (m: nat)
    ensures m < TWO_TO_THE_32
  {
    if d.None? then 0 else Min(d.value / NANOS_PER_MILLI, TWO_TO_THE_32 - 1)
  }

  function FromMillis(m: nat): Option<nat> {
    if m == 0 then None else Some(m * NANOS_PER_MILLI)
  }

  function Flag(b: bool): Bytes {
    if b then [1] else [0]
  }

  function DeviceEntries(c: DeviceCaps): seq<Entry> {
    [Entry(TAG_PING_TIMEOUT, LittleEndian(Millis(c.pingTimeout), 4)),
     Entry(TAG_STATUS_SUPPORTED, Flag(c.status)),
     Entry(TAG_MAX_PACKET_SIZE, LittleEndian(c.maxSize, 8)),
     Entry(TAG_ECHO_SUPPORTED, Flag(c.echo))]
  }

  function EncodeDevice(c: DeviceCaps): Bytes {
    EncodeAll(DeviceEntries(c))
  }

  function EncodeHost(c: HostCaps): Bytes {
    EncodeAll([Entry(TAG_MAX_PACKET_SIZE, LittleEndian(c.maxSize, 8))])
  }

  // ---------------------------------------------------------------- decoding

  /** Entries with an unknown tag, or too short for their tag, change nothing. */
  predicate DeviceKnows(e: Entry) {
    || (e.tag == TAG_PING_TIMEOUT && |e.value| >= 4)
    || (e.tag == TAG_STATUS_SUPPORTED && |e.value| >= 1)
    || (e.tag == TAG_MAX_PACKET_SIZE && |e.value| >= 8)
    || (e.tag == TAG_ECHO_SUPPORTED && |e.value| >= 1)
  }

  function ApplyDevice(c: DeviceCaps, e: Entry): DeviceCaps {
    if e.tag == TAG_PING_TIMEOUT && |e.value| >= 4 then
      c.(pingTimeout := FromMillis(FromLittleEndian(e.value[..4])))
    else if e.tag == TAG_STATUS_SUPPORTED && |e.value| >= 1 then c.(status := e.value[0] != 0)
    else if e.tag == TAG_MAX_PACKET_SIZE && |e.value| >= 8 then c.(maxSize := FromLittleEndian(e.value[..8]))
    else if e.tag == TAG_ECHO_SUPPORTED && |e.value| >= 1 then c.(echo := e.value[0] != 0)
    else c
  }

  function ApplyDeviceAll(c: DeviceCaps, es: seq<Entry>): DeviceCaps
    decreases |es|
  {
    if es == [] then c else ApplyDeviceAll(ApplyDevice(c, es[0]), es[1..])
  }

  function DecodeDevice(data: Bytes): Result<DeviceCaps> {
    match Decode(data)
    case Err => Err
    case Ok(es) => Ok(ApplyDeviceAll(DEFAULT_DEVICE_CAPS, es))
  }

  predicate HostKnows(e: Entry) {
    e.tag == TAG_MAX_PACKET_SIZE && |e.value| >= 8
  }

  function ApplyHost(c: HostCaps, e: Entry): HostCaps {
    if HostKnows(e) then HostCaps(FromLittleEndian(e.value[..8])) else c
  }

  function ApplyHostAll(c: HostCaps, es: seq<Entry>): HostCaps
    decreases |es|
  {
    if es == [] then c else ApplyHostAll(ApplyHost(c, es[0]), es[1..])
  }

  function DecodeHost(data: Bytes): Result<HostCaps> {
    match Decode(data)
    case Err => Err
    case Ok(es) => Ok(ApplyHostAll(DEFAULT_HOST_CAPS, es))
  }

  // ------------------------------------------------------ the code's own loops

  method EncodeDeviceInto(c: DeviceCaps) returns (data: Bytes)
    ensures data == EncodeDevice(c)
  {
    ghost var es := DeviceEntries(c);
    Unroll4(es);
    var buf := new Buffer();
    buf.Append(TAG_PING_TIMEOUT, LittleEndian(Millis(c.pingTimeout), 4));
    assert buf.data == [] + Encode(es[0]) == Encode(es[0]);
    buf.Append(TAG_STATUS_SUPPORTED, Flag(c.status));
    assert buf.data == Encode(es[0]) + Encode(es[1]);
    buf.Append(TAG_MAX_PACKET_SIZE, LittleEndian(c.maxSize, 8));
    assert buf.data == Encode(es[0]) + Encode(es[1]) + Encode(es[2]);
    buf.Append(TAG_ECHO_SUPPORTED, Flag(c.echo));
    data := buf.data;
  }

  lemma Unroll4(es: seq<Entry>)
    requires |es| == 4
    ensures EncodeAll(es) == Encode(es[0]) + Encode(es[1]) + Encode(es[2]) + Encode(es[3])
  {
    var e1, e2, e3 := es[1..], es[2..], es[3..];
    assert e1[1..] == e2 && e2[1..] == e3 && e3[1..] == [];
    assert EncodeAll(e3) == Encode(es[3]);
    assert EncodeAll(e2) == Encode(es[2]) + EncodeAll(e3);
    assert EncodeAll(e1) == Encode(es[1]) + EncodeAll(e2);
  }

  method DecodeDeviceLoop(data: Bytes) returns (r: Result<DeviceCaps>)
    ensures r == DecodeDevice(data)
  {
    var entries := DecodeLoop(data);
    if entries.Err? {
      return Err;
    }
    var caps := DEFAULT_DEVICE_CAPS;
    var i := 0;
    assert entries.value[i..] == entries.value;
    while i < |entries.value|
      invariant 0 <= i <= |entries.value|
      invariant ApplyDeviceAll(DEFAULT_DEVICE_CAPS, entries.value) == ApplyDeviceAll(caps, entries.value[i..])
    {
      var tag, value := entries.value[i].tag, entries.value[i].value;
      if tag == TAG_PING_TIMEOUT && |value| >= 4 {
        var millis := FromLittleEndian(value[..4]);
        caps := caps.(pingTimeout := if millis == 0 then None else Some(millis * NANOS_PER_MILLI));
      } else if tag == TAG_STATUS_SUPPORTED && value != [] {
        caps := caps.(status := value[0] != 0);
      } else if tag == TAG_MAX_PACKET_SIZE && |value| >= 8 {
        caps := caps.(maxSize := FromLittleEndian(value[..8]));
      } else if tag == TAG_ECHO_SUPPORTED && value != [] {
        caps := caps.(echo := value[0] != 0);
      }
      assert entries.value[i..][1..] == entries.value[i + 1..];
      i := i + 1;
    }
    assert ApplyDeviceAll(caps, entries.value[i..]) == caps;
    assert DecodeDevice(data) == Ok(ApplyDeviceAll(DEFAULT_DEVICE_CAPS, entries.value));
    return Ok(caps);
  }

  // -------------------------------------------------------------- round trips

  /** What survives the wire: the timeout in whole milliseconds, none below one. */
  function Normalise(c: DeviceCaps): DeviceCaps {
    c.(pingTimeout := FromMillis(Millis(c.pingTimeout)))
  }

  lemma FieldRoundTrip(x: nat, n: nat)
    requires x < Power256(n)
    ensures |LittleEndian(x, n)| == n
    ensures FromLittleEndian(LittleEndian(x, n)[..n]) == x
  {
    LittleEndianLength(x, n);
    LittleEndianRoundTrip(x, n);
    assert LittleEndian(x, n)[..n] == LittleEndian(x, n);
  }

  lemma ApplyFour(c: DeviceCaps, es: seq<Entry>)
    requires |es| == 4
    ensures ApplyDeviceAll(c, es)
         == ApplyDevice(ApplyDevice(ApplyDevice(ApplyDevice(c, es[0]), es[1]), es[2]), es[3])
  {
    var e1, e2, e3 := es[1..], es[2..], es[3..];
    assert e1[1..] == e2 && e2[1..] == e3 && e3[1..] == [];
    var c1 := ApplyDevice(c, es[0]);
    var c2 := ApplyDevice(c1, es[1]);
    var c3 := ApplyDevice(c2, es[2]);
    ApplyOne(c, es);
    ApplyOne(c1, e1);
    ApplyOne(c2, e2);
    ApplyOne(c3, e3);
  }

  lemma ApplyOne(c: DeviceCaps, es: seq<Entry>)
    requires es != []
    ensures ApplyDeviceAll(c, es) == ApplyDeviceAll(ApplyDevice(c, es[0]), es[1..])
    ensures |es| == 1 ==> ApplyDeviceAll(c, es) == ApplyDevice(c, es[0])
  {
  }

  /** The host decodes exactly what the device encoded, up to the resolution of the timeout. */
  lemma DeviceRoundTrip(c: DeviceCaps)
    requires c.maxSize < TWO_TO_THE_64
    ensures DecodeDevice(EncodeDevice(c)) == Ok(Normalise(c))
  {
    Powers();
    var es := DeviceEntries(c);
    FieldRoundTrip(Millis(c.pingTimeout), 4);
    FieldRoundTrip(c.maxSize, 8);
    DecodeExact(EncodeDevice(c), es);
    ApplyFour(DEFAULT_DEVICE_CAPS, es);
  }

  /** Exactly which timeouts cross the wire unchanged. */
  lemma DeviceRoundTripExact(c: DeviceCaps)
    requires c.maxSize < TWO_TO_THE_64
    ensures DecodeDevice(EncodeDevice(c)) == Ok(c)
       <==> match c.pingTimeout
            case None => true
            case Some(d) => d % NANOS_PER_MILLI == 0 && 0 < d / NANOS_PER_MILLI < TWO_TO_THE_32
  {
    DeviceRoundTrip(c);
    assert Normalise(c) == c <==> FromMillis(Millis(c.pingTimeout)) == c.pingTimeout;
  }

  lemma HostRoundTrip(c: HostCaps)
    requires c.maxSize < TWO_TO_THE_64
    ensures DecodeHost(EncodeHost(c)) == Ok(c)
  {
    Powers();
    var es := [Entry(TAG_MAX_PACKET_SIZE, LittleEndian(c.maxSize, 8))];
    FieldRoundTrip(c.maxSize, 8);
    DecodeExact(EncodeHost(c), es);
    assert es[1..] == [];
    assert ApplyHostAll(DEFAULT_HOST_CAPS, es) == ApplyHost(DEFAULT_HOST_CAPS, es[0]);
  }

  lemma EncodedSizes(c: DeviceCaps, h: HostCaps)
    ensures |EncodeDevice(c)| == 26 <= CAPS_SIZE && |EncodeHost(h)| == 11 <= CAPS_SIZE
  {
    Unroll4(DeviceEntries(c));
    LittleEndianLength(Millis(c.pingTimeout), 4);
    LittleEndianLength(c.maxSize, 8);
    LittleEndianLength(h.maxSize, 8);
    LengthBytes();
    var es := [Entry(TAG_MAX_PACKET_SIZE, LittleEndian(h.maxSize, 8))];
    assert es[1..] == [] && EncodeAll(es[1..]) == [];
  }

  lemma LengthBytes()
    ensures forall n: nat :: |LittleEndian(n % TWO_TO_THE_16, 2)| == 2
  {
    forall n: nat
      ensures |LittleEndian(n % TWO_TO_THE_16, 2)| == 2
    {
      LittleEndianLength(n % TWO_TO_THE_16, 2);
    }
  }

  /** The bytes of one answer and one announcement, as they cross the wire. */
  lemma WireFormatExample()
    ensures EncodeDevice(DeviceCaps(Some(10_000 * NANOS_PER_MILLI), true, true, 0x0100_0000))
         == [1, 4, 0, 0x10, 0x27, 0, 0] + [2, 1, 0, 1] + [3, 8, 0, 0, 0, 0, 1, 0, 0, 0, 0] + [4, 1, 0, 1]
    ensures EncodeHost(HostCaps(0x0100_0000)) == [3, 8, 0, 0, 0, 0, 1, 0, 0, 0, 0]
  {
    var c := DeviceCaps(Some(10_000 * NANOS_PER_MILLI), true, true, 0x0100_0000);
    Unroll4(DeviceEntries(c));
    PingBytes();
    SizeBytes();
    FlagBytes();
    hide LittleEndian, Encode;
    var es := [Entry(TAG_MAX_PACKET_SIZE, LittleEndian(0x0100_0000, 8))];
    assert es[1..] == [] && EncodeAll(es[1..]) == [];
  }

  /** One more byte in front. */
  lemma LowFirst(x: nat, n: nat, lo: Byte, hi: nat)
    requires x == lo + 256 * hi
    ensures LittleEndian(x, n + 1) == [lo] + LittleEndian(hi, n)
  {
    LowByte(lo, hi);
  }

  lemma PingField()
    ensures LittleEndian(10_000, 4) == [0x10, 0x27, 0, 0]
  {
    assert LittleEndian(0, 2) == [0, 0];
    hide LittleEndian;
    LowFirst(10_000, 3, 0x10, 0x27);
    LowFirst(0x27, 2, 0x27, 0);
  }

  lemma PingBytes()
    ensures Millis(Some(10_000 * NANOS_PER_MILLI)) == 10_000
    ensures Encode(Entry(TAG_PING_TIMEOUT, LittleEndian(10_000, 4))) == [1, 4, 0, 0x10, 0x27, 0, 0]
  {
    PingField();
    assert LittleEndian(4, 2) == [4, 0] by { assert LittleEndian(0, 1) == [0]; }
    hide LittleEndian;
  }

  lemma SizeField()
    ensures LittleEndian(0x0100_0000, 8) == [0, 0, 0, 1] + LittleEndian(0, 4)
  {
    hide LittleEndian;
    LowFirst(0x0100_0000, 7, 0, 0x1_0000);
    LowFirst(0x1_0000, 6, 0, 0x100);
    LowFirst(0x100, 5, 0, 1);
    LowFirst(1, 4, 1, 0);
  }

  lemma SizeBytes()
    ensures Encode(Entry(TAG_MAX_PACKET_SIZE, LittleEndian(0x0100_0000, 8))) == [3, 8, 0, 0, 0, 0, 1, 0, 0, 0, 0]
  {
    SizeField();
    assert LittleEndian(0, 4) == [0, 0, 0, 0] by { assert LittleEndian(0, 2) == [0, 0]; }
    assert LittleEndian(8, 2) == [8, 0] by { assert LittleEndian(0, 1) == [0]; }
    hide LittleEndian;
  }

  lemma FlagBytes()
    ensures Encode(Entry(TAG_STATUS_SUPPORTED, Flag(true))) == [2, 1, 0, 1]
    ensures Encode(Entry(TAG_ECHO_SUPPORTED, Flag(true))) == [4, 1, 0, 1]
  {
    assert LittleEndian(1, 2) == [1] + LittleEndian(0, 1);
  }

  /** The last known entry of a kind decides. */
  lemma {:induction false} LastEntryCounts(c: DeviceCaps, es: seq<Entry>, e: Entry)
    ensures ApplyDeviceAll(c, es + [e]) == ApplyDevice(ApplyDeviceAll(c, es), e)
    decreases |es|
  {
    if es == [] {
      assert es + [e] == [e] && [e][1..] == [];
    } else {
      assert (es + [e])[1..] == es[1..] + [e];
      LastEntryCounts(ApplyDevice(c, es[0]), es[1..], e);
    }
  }

  // ---------------------------------------------------- forward compatibility

  /** The entries the device decoder reacts to. */
  function KnownToDevice(es: seq<Entry>): seq<Entry> {
    if es == [] then []
    else (if DeviceKnows(es[0]) then [es[0]] else []) + KnownToDevice(es[1..])
  }

  function KnownToHost(es: seq<Entry>): seq<Entry> {
    if es == [] then []
    else (if HostKnows(es[0]) then [es[0]] else []) + KnownToHost(es[1..])
  }

  lemma {:induction false} OnlyKnownMatter(c: DeviceCaps, es: seq<Entry>)
    ensures ApplyDeviceAll(c, es) == ApplyDeviceAll(c, KnownToDevice(es))
    decreases |es|
  {
    if es != [] {
      OnlyKnownMatter(ApplyDevice(c, es[0]), es[1..]);
      if DeviceKnows(es[0]) {
        assert KnownToDevice(es)[1..] == KnownToDevice(es[1..]);
      } else {
        assert KnownToDevice(es) == KnownToDevice(es[1..]);
      }
    }
  }

  lemma {:induction false} OnlyKnownMatterToHost(c: HostCaps, es: seq<Entry>)
    ensures ApplyHostAll(c, es) == ApplyHostAll(c, KnownToHost(es))
    decreases |es|
  {
    if es != [] {
      OnlyKnownMatterToHost(ApplyHost(c, es[0]), es[1..]);
      if HostKnows(es[0]) {
        assert KnownToHost(es)[1..] == KnownToHost(es[1..]);
      } else {
        assert KnownToHost(es) == KnownToHost(es[1..]);
      }
    }
  }

  /** Inserting or removing unknown entries anywhere never changes what is decoded. */
  lemma UnknownEntriesIgnored(a: seq<Entry>, b: seq<Entry>)
    requires AllFit(a) && AllFit(b)
    ensures KnownToDevice(a) == KnownToDevice(b) ==> DecodeDevice(EncodeAll(a)) == DecodeDevice(EncodeAll(b))
    ensures KnownToHost(a) == KnownToHost(b) ==> DecodeHost(EncodeAll(a)) == DecodeHost(EncodeAll(b))
  {
    DecodeExact(EncodeAll(a), a);
    DecodeExact(EncodeAll(b), b);
    OnlyKnownMatter(DEFAULT_DEVICE_CAPS, a);
    OnlyKnownMatter(DEFAULT_DEVICE_CAPS, b);
    OnlyKnownMatterToHost(DEFAULT_HOST_CAPS, a);
    OnlyKnownMatterToHost(DEFAULT_HOST_CAPS, b);
  }

  // --------------------------------------------------------------- negotiation

  /** `usize::try_from(x).unwrap_or(usize::MAX)` on a platform whose largest `usize` is `limit`. */
  function ToUsize(x: nat, limit: nat): nat {
    Min(x, limit)
  }

  /** The limit the host enforces on `send` after the exchange, or after a failed one. */
  function HostSendLimit(answer: Option<Bytes>, hostUsize: nat): Result<nat> {
    if answer.None? then Ok(ToUsize(DEFAULT_DEVICE_CAPS.maxSize, hostUsize))
    else
      match DecodeDevice(answer.value)
      case Err => Err
      case Ok(c) => Ok(ToUsize(c.maxSize, hostUsize))
  }

  /** The limit the device enforces on `send`, `caps` being what it holds of the host. */
  function DeviceSendLimit(caps: HostCaps, deviceUsize: nat): nat {
    ToUsize(caps.maxSize, deviceUsize)
  }

  lemma AnsweredLimit(c: DeviceCaps, hostUsize: nat)
    requires c.maxSize < TWO_TO_THE_64
    ensures HostSendLimit(Some(EncodeDevice(c)), hostUsize) == Ok(ToUsize(c.maxSize, hostUsize))
  {
    DeviceRoundTrip(c);
  }

  /** Host to device: with the exchange done, no accepted packet is too large for the device
      if and only if the advertised size fits the device's usize or the host's is no wider. */
  lemma HostToDeviceLimits(c: DeviceCaps, hostUsize: nat, deviceUsize: nat)
    requires c.maxSize < TWO_TO_THE_64
    ensures HostSendLimit(Some(EncodeDevice(c)), hostUsize).Ok?
    ensures HostSendLimit(Some(EncodeDevice(c)), hostUsize).value <= ToUsize(c.maxSize, deviceUsize)
       <==> c.maxSize <= deviceUsize || hostUsize <= deviceUsize
  {
    DeviceRoundTrip(c);
  }

  /** Believing in a device maximum of `q`, a host with this usize accepts nothing that is too large for
      a device with maximum `m` and that usize. */
  predicate Covers(q: nat, hostUsize: nat, m: nat, deviceUsize: nat) {
    (q <= m || hostUsize <= m) && (q <= deviceUsize || hostUsize <= deviceUsize)
  }

  lemma CoversExactly(q: nat, hostUsize: nat, m: nat, deviceUsize: nat)
    ensures ToUsize(q, hostUsize) <= ToUsize(m, deviceUsize) <==> Covers(q, hostUsize, m, deviceUsize)
  {
  }

  /** What the host enforces after an answered query, and after an unanswered one, for which it
      assumes the default: with that it accepts packets that are too large if and only if the default
      is not covered by the device's maximum. */
  lemma UnansweredLimits(maxSize: nat, hostUsize: nat, deviceUsize: nat)
    ensures HostSendLimit(None, hostUsize).Ok?
    ensures HostSendLimit(None, hostUsize).value <= ToUsize(maxSize, deviceUsize)
       <==> Covers(MAX_SIZE, hostUsize, maxSize, deviceUsize)
  {
    CoversExactly(MAX_SIZE, hostUsize, maxSize, deviceUsize);
  }

  /** Device to host: the host's limit is a usize, so it always crosses exactly if the announcement
      is served; if it is not, the device assumes the default, which is too much if and only if the
      host's limit is smaller and the device's usize is wider. */
  lemma DeviceToHostLimits(maxSize: nat, deviceUsize: nat)
    requires maxSize < TWO_TO_THE_64
    ensures DecodeHost(EncodeHost(HostCaps(maxSize))).Ok?
    ensures DeviceSendLimit(DecodeHost(EncodeHost(HostCaps(maxSize))).value, deviceUsize) <= maxSize
    ensures DeviceSendLimit(DEFAULT_HOST_CAPS, deviceUsize) <= maxSize <==> MAX_SIZE <= maxSize || deviceUsize <= maxSize
  {
    HostRoundTrip(HostCaps(maxSize));
  }

  /** How often the host polls, if at all. */
  function StatusInterval(pingInterval: Option<nat>, c: DeviceCaps): Option<nat> {
    if !c.status then None
    else if c.pingTimeout.None? then pingInterval
    else if pingInterval.None? then Some(c.pingTimeout.value / 2)
    else Some(Min(pingInterval.value, c.pingTimeout.value / 2))
  }
}
