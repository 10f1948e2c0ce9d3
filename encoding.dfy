/** The length-prefixed frame codec (`src/encoding.rs`).

    On the wire a frame is a 2-byte big-endian length `n` followed by `n`
    bytes of payload, where the payload is what the serializer (bincode)
    produced for the message. */
module Encoding {
  import opened Wrappers

  type Byte = b: int | 0 <= b < 256

  /** Largest length a `u16` prefix can carry. */
  const U16_MAX: nat := 65535

  /** The codec's error kinds. `IO` is never produced by the codec itself. */
  datatype Error = Serialization | IO | LargePayload

  /** The serializer the codec is generic over, as a pair of functions. The
      model fixes nothing about the byte format; `RoundTrips` is the one
      property the codec relies on. */
  datatype Bincode<!T> = Bincode(serialize: T -> seq<Byte>, deserialize: seq<Byte> -> Option<T>)

  ghost predicate RoundTrips<T(!new)>(b: Bincode<T>) {
    forall m: T :: b.deserialize(b.serialize(m)) == Some(m)
  }

  /** `bytes::BytesMut`: a growable byte buffer. Only its contents are
      modelled; its capacity (`reserve`) has no observable effect on them. */
  class BytesMut {
    var data: seq<Byte>

    constructor (init: seq<Byte>)
      ensures data == init
    {
      data := init;
    }
  }

  /** `read_u16::<BigEndian>` on the first two bytes. */
  function ReadU16BE(d: seq<Byte>): (n: nat)
    requires |d| >= 2
    ensures n <= U16_MAX
  {
    d[0] as int * 256 + d[1] as int
  }

  /** `put_u16`: the two bytes of `n`, most significant first. */
  function U16BE(n: nat): (b: seq<Byte>)
    requires n <= U16_MAX
    ensures |b| == 2 && ReadU16BE(b) == n
  {
    [n / 256, n % 256]
  }

  /** The big-endian header reads back to the same two bytes it came from. */
  lemma U16BEOfRead(d: seq<Byte>)
    requires |d| >= 2
    ensures U16BE(ReadU16BE(d)) == d[..2]
  {
  }

  /** The bytes `encode` appends for a payload that fits. */
  function Frame(payload: seq<Byte>): (f: seq<Byte>)
    requires |payload| <= U16_MAX
    ensures |f| == |payload| + 2
    ensures ReadU16BE(f) == |payload| && f[2..] == payload
  {
    U16BE(|payload|) + payload
  }

  /** `NetworkMessage::encode`: serialize, refuse a payload longer than a
      `u16` can describe, otherwise append header and payload to `buf`. */
  method Encode<T>(b: Bincode<T>, msg: T, buf: BytesMut) returns (r: Result<(), Error>)
    modifies buf
    ensures var p := b.serialize(msg);
      if |p| > U16_MAX then r == Err(LargePayload) && buf.data == old(buf.data)
      else r == Ok(()) && buf.data == old(buf.data) + Frame(p)
  {
    var p := b.serialize(msg);
    if |p| > U16_MAX {
      r := Err(LargePayload);
    } else {
      buf.data := buf.data + U16BE(|p|);
      buf.data := buf.data + p;
      r := Ok(());
    }
  }

  /** What one call of `decode` returns, with the buffer contents it leaves. */
  datatype Decoded<T> = Decoded(result: Result<Option<T>, Error>, rest: seq<Byte>)

  /** The effect of `decode` on buffer contents `d`: "need more" with the
      contents untouched, or exactly one frame taken off the front. */
  function DecodeFront<T>(b: Bincode<T>, d: seq<Byte>): (r: Decoded<T>)
    ensures r.result == Ok(None) <==> r.rest == d
    ensures r.rest != d ==> |d| > 2 && 2 + ReadU16BE(d) <= |d| && r.rest == d[2 + ReadU16BE(d)..]
    ensures r.rest != d ==>
      r.result == (if b.deserialize(d[2..2 + ReadU16BE(d)]).Some?
                   then Ok(b.deserialize(d[2..2 + ReadU16BE(d)])) else Err(Serialization))
  {
    if |d| <= 2 then Decoded(Ok(None), d)
    else
      var n := ReadU16BE(d);
      if |d| < 2 + n then Decoded(Ok(None), d)
      else
        match b.deserialize(d[2..2 + n])
        case Some(m) => Decoded(Ok(Some(m)), d[2 + n..])
        case None => Decoded(Err(Serialization), d[2 + n..])
  }

  /** `NetworkMessage::decode` on the buffer `src`, changed in place: the
      header is skipped (`advance`), then the payload split off (`split_to`). */
  method Decode<T>(b: Bincode<T>, src: BytesMut) returns (r: Result<Option<T>, Error>)
    modifies src
    ensures Decoded(r, src.data) == DecodeFront(b, old(src.data))
  {
    if |src.data| <= 2 {
      return Ok(None);
    }
    var payloadSize := ReadU16BE(src.data);
    var frameSize := 2 + payloadSize;
    if |src.data| < frameSize {
      return Ok(None);
    }
    ghost var d := src.data;
    src.data := src.data[2..];
    var payload := src.data[..payloadSize];
    src.data := src.data[payloadSize..];
    assert payload == d[2..frameSize] && src.data == d[frameSize..];
    match b.deserialize(payload)
    case Some(m) => r := Ok(Some(m));
    case None => r := Err(Serialization);
  }

  /** Two bytes or fewer are never decoded, not even the complete frame of
      an empty payload; one more byte of anything after it lets it through. */
  lemma EmptyFrameNeedsAFollower<T>(b: Bincode<T>, x: Byte)
    ensures DecodeFront(b, Frame([])) == Decoded(Ok(None), Frame([]))
    ensures DecodeFront(b, Frame([]) + [x]).rest == [x]
  {
    assert (Frame([]) + [x])[2..2] == [];
  }

  /** No strict prefix of a frame yields a message or consumes a byte. */
  lemma StrictPrefixNeedsMore<T>(b: Bincode<T>, p: seq<Byte>, k: nat)
    requires |p| <= U16_MAX && k < |Frame(p)|
    ensures DecodeFront(b, Frame(p)[..k]) == Decoded(Ok(None), Frame(p)[..k])
  {
    var d := Frame(p)[..k];
    if k > 2 {
      assert d[..2] == Frame(p)[..2];
      assert ReadU16BE(d) == |p|;
    }
  }

  /** A frame followed by anything: exactly the frame is consumed and what
      followed stays, in order. */
  lemma FrameIsConsumedExactly<T>(b: Bincode<T>, p: seq<Byte>, rest: seq<Byte>)
    requires |p| <= U16_MAX && (|p| >= 1 || rest != [])
    ensures DecodeFront(b, Frame(p) + rest).rest == rest
    ensures DecodeFront(b, Frame(p) + rest).result ==
      if b.deserialize(p).Some? then Ok(b.deserialize(p)) else Err(Serialization)
  {
    var d := Frame(p) + rest;
    assert d[..2] == Frame(p)[..2];
    assert ReadU16BE(d) == |p|;
    assert d[2..2 + |p|] == p;
    assert d[2 + |p|..] == rest;
  }

  /** Round trip: decoding what `encode` appended gives the message back and
      leaves exactly the bytes that followed. */
  lemma DecodeEncodeRoundTrip<T(!new)>(b: Bincode<T>, m: T, rest: seq<Byte>)
    requires RoundTrips(b)
    requires |b.serialize(m)| <= U16_MAX
    requires |b.serialize(m)| >= 1 || rest != []
    ensures DecodeFront(b, Frame(b.serialize(m)) + rest) == Decoded(Ok(Some(m)), rest)
  {
    FrameIsConsumedExactly(b, b.serialize(m), rest);
  }

  /** Every payload of `ms` fits a frame and none is empty. */
  predicate AllFramable<T>(b: Bincode<T>, ms: seq<T>) {
    forall i :: 0 <= i < |ms| ==> 1 <= |b.serialize(ms[i])| <= U16_MAX
  }

  /** The byte stream a writer produces for the messages `ms`, in order. */
  function EncodeAll<T>(b: Bincode<T>, ms: seq<T>): (d: seq<Byte>)
    requires AllFramable(b, ms)
    ensures ms == [] <==> d == []
  {
    if ms == [] then [] else Frame(b.serialize(ms[0])) + EncodeAll(b, ms[1..])
  }

  /** How a reader uses the codec: call `decode` until it needs more bytes or
      fails; the messages produced, and the buffer contents left. */
  function DecodeAvailable<T>(b: Bincode<T>, d: seq<Byte>): (r: (seq<T>, Decoded<T>))
    ensures r.1.result.Ok? ==> r.1.result.value == None
    decreases |d|
  {
    var step := DecodeFront(b, d);
    match step.result
    case Ok(Some(m)) =>
      var more := DecodeAvailable(b, step.rest);
      ([m] + more.0, more.1)
    case _ => ([], step)
  }

  /** Stream round trip: a reader that is given all the bytes a writer
      produced gets every message back, in order, and consumes every byte. */
  lemma {:induction false} DecodeAvailableRoundTrip<T(!new)>(b: Bincode<T>, ms: seq<T>)
    requires RoundTrips(b) && AllFramable(b, ms)
    ensures DecodeAvailable(b, EncodeAll(b, ms)) == (ms, Decoded(Ok(None), []))
  {
    if ms != [] {
      assert AllFramable(b, ms[1..]) by {
        forall i | 0 <= i < |ms[1..]| ensures 1 <= |b.serialize(ms[1..][i])| <= U16_MAX {
          assert ms[1..][i] == ms[i + 1];
        }
      }
      DecodeEncodeRoundTrip(b, ms[0], EncodeAll(b, ms[1..]));
      DecodeAvailableRoundTrip(b, ms[1..]);
      assert [ms[0]] + ms[1..] == ms;
    }
  }
}
