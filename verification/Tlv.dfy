/** Little-endian integers and the tag-length-value encoding of capabilities. */
module Tlv {
  import opened Prelude
  import opened Framing

  // ------------------------------------------------- little-endian integers

  function Power256(n: nat): (p: nat)
    ensures p > 0
  {
    if n == 0 then 1 else 256 * Power256(n - 1)
  }

  lemma Powers()
    ensures Power256(1) == 256 && Power256(2) == TWO_TO_THE_16
    ensures Power256(4) == TWO_TO_THE_32 && Power256(8) == TWO_TO_THE_64
  {
    assert Power256(3) == 256 * Power256(2);
    assert Power256(5) == 256 * Power256(4);
    assert Power256(6) == 256 * Power256(5);
    assert Power256(7) == 256 * Power256(6);
  }

  /** The `n` low bytes of `x`, least significant first. */
  function LittleEndian(x: nat, n: nat): Bytes
    decreases n
  {
    if n == 0 then [] else [x % 256] + LittleEndian(x / 256, n - 1)
  }

  function FromLittleEndian(b: Bytes): nat {
    if b == [] then 0 else b[0] + 256 * FromLittleEndian(b[1..])
  }

  lemma {:induction false} LittleEndianLength(x: nat, n: nat)
    ensures |LittleEndian(x, n)| == n
    decreases n
  {
    if n > 0 {
      LittleEndianLength(x / 256, n - 1);
    }
  }

  /** Writing and reading an integer that fits gives it back. */
  lemma {:induction false} LittleEndianRoundTrip(x: nat, n: nat)
    requires x < Power256(n)
    ensures FromLittleEndian(LittleEndian(x, n)) == x
    decreases n
  {
    if n > 0 {
      LittleEndianRoundTrip(x / 256, n - 1);
      assert LittleEndian(x, n)[1..] == LittleEndian(x / 256, n - 1);
    }
  }

  /** Reading and writing bytes gives them back. */
  lemma {:induction false} FromLittleEndianRoundTrip(b: Bytes)
    ensures FromLittleEndian(b) < Power256(|b|)
    ensures LittleEndian(FromLittleEndian(b), |b|) == b
  {
    if b != [] {
      FromLittleEndianRoundTrip(b[1..]);
      LowByte(b[0], FromLittleEndian(b[1..]));
      assert b == [b[0]] + b[1..];
    }
  }

  lemma LowByte(lo: Byte, hi: nat)
    ensures (lo + 256 * hi) % 256 == lo && (lo + 256 * hi) / 256 == hi
  {
  }

  // -------------------------------------------------------------- entries

  datatype Entry = Entry(tag: Byte, value: Bytes)

  /** The length field holds 16 bits. */
  predicate Fits(e: Entry) {
    |e.value| < TWO_TO_THE_16
  }

  predicate AllFit(es: seq<Entry>) {
    forall i :: 0 <= i < |es| ==> Fits(es[i])
  }

  /** One entry; the cast of the length to `u16` drops its high bits. */
  function Encode(e: Entry): Bytes {
    [e.tag] + LittleEndian(|e.value| % TWO_TO_THE_16, 2) + e.value
  }

  function EncodeAll(es: seq<Entry>): Bytes {
    if es == [] then [] else Encode(es[0]) + EncodeAll(es[1..])
  }

  function Decode(data: Bytes): (r: Result<seq<Entry>>)
    decreases |data|
  {
    if data == [] then Ok([])
    else if |data| < 3 then Err
    else
      var len := FromLittleEndian(data[1..3]);
      if |data| < 3 + len then Err
      else
        Prepend([Entry(data[0], data[3..3 + len])], Decode(data[3 + len..]))
  }

  /** Entries decoded before the rest of the input. */
  function Prepend(es: seq<Entry>, r: Result<seq<Entry>>): Result<seq<Entry>> {
    match r
    case Err => Err
    case Ok(fs) => Ok(es + fs)
  }

  lemma PrependTwice(a: seq<Entry>, b: seq<Entry>, r: Result<seq<Entry>>)
    ensures Prepend(a, Prepend(b, r)) == Prepend(a + b, r)
  {
    if r.Ok? {
      assert a + (b + r.value) == a + b + r.value;
    }
  }

  /** The buffer the encoder appends to. */
  class Buffer {
    var data: Bytes

    constructor ()
      ensures data == []
    {
      data := [];
    }

    method Append(tag: Byte, value: Bytes)
      modifies this
      ensures data == old(data) + Encode(Entry(tag, value))
    {
      data := data + [tag];
      data := data + LittleEndian(|value| % TWO_TO_THE_16, 2);
      data := data + value;
    }
  }

  lemma Parts(tag: Byte, le: Bytes, value: Bytes, rest: Bytes)
    requires |le| == 2
    ensures var all := [tag] + le + value + rest;
            && |all| == 3 + |value| + |rest| && all[0] == tag && all[1..3] == le
            && all[3..3 + |value|] == value && all[3 + |value|..] == rest
  {
  }

  lemma DecodeFirst(e: Entry, rest: Bytes)
    requires Fits(e)
    ensures Decode(Encode(e) + rest) == Prepend([e], Decode(rest))
  {
    var le := LittleEndian(|e.value|, 2);
    Powers();
    LittleEndianLength(|e.value|, 2);
    LittleEndianRoundTrip(|e.value|, 2);
    assert Encode(e) == [e.tag] + le + e.value by {
      assert |e.value| % TWO_TO_THE_16 == |e.value|;
    }
    Parts(e.tag, le, e.value, rest);
  }

  lemma EncodeAllStep(es: seq<Entry>, data: Bytes)
    requires es != []
    ensures EncodeAll(es) + data == Encode(es[0]) + (EncodeAll(es[1..]) + data)
  {
  }

  /** Entries in front of any input are decoded first and change nothing after them. */
  lemma {:induction false} DecodeAppend(es: seq<Entry>, data: Bytes)
    requires AllFit(es)
    ensures Decode(EncodeAll(es) + data) == Prepend(es, Decode(data))
  {
    if es == [] {
      assert EncodeAll(es) + data == data;
      if Decode(data).Ok? { assert es + Decode(data).value == Decode(data).value; }
    } else {
      var more := EncodeAll(es[1..]) + data;
      EncodeAllStep(es, data);
      DecodeFirst(es[0], more);
      DecodeAppend(es[1..], data);
      PrependTwice([es[0]], es[1..], Decode(data));
      assert [es[0]] + es[1..] == es;
    }
  }

  lemma HeaderExact(data: Bytes)
    requires |data| >= 3
    ensures FromLittleEndian(data[1..3]) < TWO_TO_THE_16
    ensures LittleEndian(FromLittleEndian(data[1..3]), 2) == data[1..3]
  {
    Powers();
    FromLittleEndianRoundTrip(data[1..3]);
  }

  lemma EncodeExact(data: Bytes, n: nat)
    requires |data| >= 3 + n && n == FromLittleEndian(data[1..3])
    ensures Encode(Entry(data[0], data[3..3 + n])) + data[3 + n..] == data
    ensures Fits(Entry(data[0], data[3..3 + n]))
  {
    HeaderExact(data);
    hide FromLittleEndian, LittleEndian;
    FourParts(data, n);
    assert n % TWO_TO_THE_16 == n;
  }

  lemma FourParts(data: Bytes, n: nat)
    requires |data| >= 3 + n
    ensures [data[0]] + data[1..3] + data[3..3 + n] + data[3 + n..] == data
    ensures |data[3..3 + n]| == n
  {
  }

  lemma {:induction false} DecodeSound(data: Bytes)
    requires Decode(data).Ok?
    ensures AllFit(Decode(data).value) && EncodeAll(Decode(data).value) == data
    decreases |data|
  {
    if data != [] {
      var n := FromLittleEndian(data[1..3]);
      var e, rest := Entry(data[0], data[3..3 + n]), data[3 + n..];
      DecodeSound(rest);
      EncodeExact(data, n);
      var es := Decode(data).value;
      assert es == [e] + Decode(rest).value;
      assert es[1..] == Decode(rest).value;
    }
  }

  /** Decoding accepts exactly the concatenations of well-formed entries, each in one
      way: everything else is truncated input. */
  lemma DecodeExact(data: Bytes, es: seq<Entry>)
    ensures Decode(data) == Ok(es) <==> AllFit(es) && data == EncodeAll(es)
  {
    if AllFit(es) && data == EncodeAll(es) {
      DecodeAppend(es, []);
      assert EncodeAll(es) + [] == data && es + [] == es;
    }
    if Decode(data) == Ok(es) {
      DecodeSound(data);
    }
  }

  lemma DecodeFailsExactlyOnTruncation(data: Bytes)
    ensures Decode(data).Err? <==> forall es | AllFit(es) :: EncodeAll(es) != data
  {
    if Decode(data).Ok? {
      DecodeExact(data, Decode(data).value);
    } else {
      forall es | AllFit(es)
        ensures EncodeAll(es) != data
      {
        DecodeExact(data, es);
      }
    }
  }

  /** The cast to 16 bits makes the codec exact for an entry if and only if the value
      is shorter than 65536 bytes. */
  lemma SingleRoundTrip(e: Entry)
    ensures Decode(EncodeAll([e])) == Ok([e]) <==> |e.value| < TWO_TO_THE_16
  {
    DecodeExact(EncodeAll([e]), [e]);
    assert AllFit([e]) <==> Fits([e][0]);
  }

  /** Decoding from a position, in terms of the whole input. */
  lemma DecodeAt(data: Bytes, pos: nat)
    requires pos < |data|
    ensures pos + 3 > |data| ==> Decode(data[pos..]).Err?
    ensures pos + 3 <= |data| ==>
              var len := FromLittleEndian(data[pos + 1..pos + 3]);
              Decode(data[pos..]) == if pos + 3 + len > |data| then Err
                                     else Prepend([Entry(data[pos], data[pos + 3..pos + 3 + len])], Decode(data[pos + 3 + len..]))
  {
    var rest := data[pos..];
    if pos + 3 <= |data| {
      assert rest[1..3] == data[pos + 1..pos + 3];
      var len := FromLittleEndian(data[pos + 1..pos + 3]);
      if pos + 3 + len <= |data| {
        assert rest[3..3 + len] == data[pos + 3..pos + 3 + len];
        assert rest[3 + len..] == data[pos + 3 + len..];
      }
    }
  }

  lemma PrependNothing(r: Result<seq<Entry>>)
    ensures Prepend([], r) == r
  {
    if r.Ok? {
      assert [] + r.value == r.value;
    }
  }

  /** The decoding loop, as written: it advances `pos` and collects entries. */
  method DecodeLoop(data: Bytes) returns (r: Result<seq<Entry>>)
    ensures r == Decode(data)
  {
    hide FromLittleEndian;
    var entries := [];
    var pos := 0;
    assert data[pos..] == data;
    PrependNothing(Decode(data));
    while pos < |data|
      invariant 0 <= pos <= |data|
      invariant Decode(data) == Prepend(entries, Decode(data[pos..]))
    {
      DecodeAt(data, pos);
      if pos + 3 > |data| {
        return Err;
      }
      var tag := data[pos];
      var len := FromLittleEndian(data[pos + 1..pos + 3]);
      pos := pos + 3;
      if pos + len > |data| {
        return Err;
      }
      var entry := Entry(tag, data[pos..pos + len]);
      PrependTwice(entries, [entry], Decode(data[pos + len..]));
      entries := entries + [entry];
      pos := pos + len;
    }
    assert data[pos..] == [] && entries + [] == entries;
    return Ok(entries);
  }
}
