/** The length-prefixed frames of the msgpack bridge (engine/msgpack_bridge.py):
    a four-byte big-endian length, then the payload. */
module Framing {
  import opened Options

  type Byte = x: int | 0 <= x < 256

  type Bytes = seq<Byte>

  const HEADER := 4

  const MAX_PAYLOAD := 0x1_0000_0000

  function PackLength(n: nat): Bytes
    requires n < MAX_PAYLOAD
  {
    [n / 0x100_0000, n / 0x1_0000 % 0x100, n / 0x100 % 0x100, n % 0x100]
  }

  function UnpackLength(header: Bytes): nat
    requires |header| == HEADER
  {
    ((header[0] as int * 0x100 + header[1] as int) * 0x100 + header[2] as int) * 0x100 + header[3] as int
  }

  /** What call() writes; packing the length of a larger payload raises. */
  function Frame(payload: Bytes): Option<Bytes> {
    if |payload| < MAX_PAYLOAD then Some(PackLength(|payload|) + payload) else None
  }

  /** The payloads readable from a stream that ends. */
  function Frames(stream: Bytes): seq<Bytes> {
    if |stream| < HEADER then []
    else
      var n := UnpackLength(stream[..HEADER]);
      if |stream| < HEADER + n then []
      else [stream[HEADER..HEADER + n]] + Frames(stream[HEADER + n..])
  }

  ghost predicate Packable(payloads: seq<Bytes>) {
    forall p :: p in payloads ==> |p| < MAX_PAYLOAD
  }

  /** All the frames written one after another. */
  ghost function Written(payloads: seq<Bytes>): Bytes
    requires Packable(payloads)
  {
    if payloads == [] then [] else Frame(payloads[0]).value + Written(payloads[1..])
  }

  /** Most significant byte first. */
  lemma BigEndian(n: nat)
    requires n < MAX_PAYLOAD
    ensures var h := PackLength(n);
            && |h| == 4
            && n == h[0] as int * 16777216 + h[1] as int * 65536 + h[2] as int * 256 + h[3] as int
  {
    LengthRoundTrip(n);
  }

  /** A frame is four bytes of length, most significant first, and then the payload as it is. */
  lemma FrameLayout(payload: Bytes)
    requires |payload| < MAX_PAYLOAD
    ensures var f := Frame(payload);
            && f.Some? && |f.value| == 4 + |payload| && f.value[4..] == payload
            && |payload| == f.value[0] as int * 16777216 + f.value[1] as int * 65536 + f.value[2] as int * 256
                            + f.value[3] as int
  {
    BigEndian(|payload|);
  }

  lemma LengthRoundTrip(n: nat)
    requires n < MAX_PAYLOAD
    ensures |PackLength(n)| == HEADER && UnpackLength(PackLength(n)) == n
  {
    var h := PackLength(n);
    assert n / 0x1_0000 == h[0] as int * 0x100 + h[1] as int;
    assert n / 0x100 == n / 0x1_0000 * 0x100 + h[2] as int;
  }

  lemma HeaderRoundTrip(header: Bytes)
    requires |header| == HEADER
    ensures UnpackLength(header) < MAX_PAYLOAD && PackLength(UnpackLength(header)) == header
  {
  }

  lemma FrameIsReadBack(payload: Bytes, rest: Bytes)
    requires |payload| < MAX_PAYLOAD
    ensures Frames(Frame(payload).value + rest) == [payload] + Frames(rest)
  {
    LengthRoundTrip(|payload|);
    var stream := Frame(payload).value + rest;
    assert stream[..HEADER] == PackLength(|payload|);
    assert stream[HEADER..HEADER + |payload|] == payload;
    assert stream[HEADER + |payload|..] == rest;
  }

  /** Reading what was written, followed by anything, yields what was written, then the rest. */
  lemma {:induction false} RoundTrip(payloads: seq<Bytes>, rest: Bytes)
    requires Packable(payloads)
    ensures Frames(Written(payloads) + rest) == payloads + Frames(rest)
  {
    if payloads == [] {
      assert Written(payloads) + rest == rest;
    } else {
      var tail := Written(payloads[1..]);
      RoundTrip(payloads[1..], rest);
      FrameThenRest(payloads, tail, rest);
    }
  }

  lemma FrameThenRest(payloads: seq<Bytes>, tail: Bytes, rest: Bytes)
    requires payloads != [] && |payloads[0]| < MAX_PAYLOAD
    requires Frames(tail + rest) == payloads[1..] + Frames(rest)
    ensures Frames(Frame(payloads[0]).value + tail + rest) == payloads + Frames(rest)
  {
    var first := Frame(payloads[0]).value;
    assert first + tail + rest == first + (tail + rest);
    FrameIsReadBack(payloads[0], tail + rest);
    assert payloads == [payloads[0]] + payloads[1..];
  }

  lemma PartOfFrame(payload: Bytes, k: nat)
    requires |payload| < MAX_PAYLOAD && k < |Frame(payload).value|
    ensures Frames(Frame(payload).value[..k]) == []
  {
    LengthRoundTrip(|payload|);
    if k >= HEADER {
      assert Frame(payload).value[..k][..HEADER] == PackLength(|payload|);
    }
  }

  /** The first m frames fit into k bytes and no further one does. */
  ghost predicate FitsUpTo(payloads: seq<Bytes>, k: nat, m: nat)
    requires Packable(payloads) && m <= |payloads|
  {
    && |Written(payloads[..m])| <= k
    && (m < |payloads| ==> k < |Written(payloads[..m + 1])|)
  }

  /** However a stream is cut, what is read is exactly the frames that are there in full. */
  lemma {:induction false} CutStream(payloads: seq<Bytes>, k: nat) returns (m: nat)
    requires Packable(payloads) && k <= |Written(payloads)|
    ensures m <= |payloads| && FitsUpTo(payloads, k, m)
    ensures Frames(Written(payloads)[..k]) == payloads[..m]
  {
    if payloads == [] {
      m := 0;
    } else if k < |Frame(payloads[0]).value| {
      m := 0;
      CutInFirst(payloads, k);
    } else {
      var tail := payloads[1..];
      var n := CutStream(tail, k - |Frame(payloads[0]).value|);
      m := n + 1;
      CutLaterSizes(payloads, k, n);
      CutLater(payloads[0], Written(tail), k, tail, n);
      Recombine(payloads, k, n);
    }
  }

  lemma Recombine(payloads: seq<Bytes>, k: nat, n: nat)
    requires Packable(payloads) && payloads != [] && n < |payloads|
    requires var w := Frame(payloads[0]).value + Written(payloads[1..]);
             k <= |w| && Frames(w[..k]) == ([payloads[0]] + payloads[1..])[..n + 1]
    ensures Frames(Written(payloads)[..k]) == payloads[..n + 1]
  {
    assert [payloads[0]] + payloads[1..] == payloads;
  }

  lemma CutInFirst(payloads: seq<Bytes>, k: nat)
    requires Packable(payloads) && payloads != [] && k < |Frame(payloads[0]).value|
    ensures k < |Written(payloads[..1])| && k <= |Written(payloads)| && Frames(Written(payloads)[..k]) == []
  {
    PartOfFrame(payloads[0], k);
    assert Written(payloads)[..k] == Frame(payloads[0]).value[..k];
    assert payloads[..1] == [payloads[0]] && Written([payloads[0]]) == Frame(payloads[0]).value;
  }

  lemma CutLaterSizes(payloads: seq<Bytes>, k: nat, n: nat)
    requires Packable(payloads) && payloads != [] && n <= |payloads[1..]| && k >= |Frame(payloads[0]).value|
    requires FitsUpTo(payloads[1..], k - |Frame(payloads[0]).value|, n)
    ensures FitsUpTo(payloads, k, n + 1)
  {
    WrittenCons(payloads, n);
    if n + 1 < |payloads| {
      WrittenCons(payloads, n + 1);
    }
  }

  lemma CutLater(payload: Bytes, tail: Bytes, k: nat, rest: seq<Bytes>, n: nat)
    requires |payload| < MAX_PAYLOAD && n <= |rest|
    requires |Frame(payload).value| <= k <= |Frame(payload).value| + |tail|
    requires Frames(tail[..k - |Frame(payload).value|]) == rest[..n]
    ensures Frames((Frame(payload).value + tail)[..k]) == ([payload] + rest)[..n + 1]
  {
    CutFrames(payload, tail, k);
    assert ([payload] + rest)[..n + 1] == [payload] + rest[..n];
  }

  lemma CutFrames(payload: Bytes, tail: Bytes, k: nat)
    requires |payload| < MAX_PAYLOAD && |Frame(payload).value| <= k <= |Frame(payload).value| + |tail|
    ensures Frames((Frame(payload).value + tail)[..k]) == [payload] + Frames(tail[..k - |Frame(payload).value|])
  {
    var first := Frame(payload).value;
    assert (first + tail)[..k] == first + tail[..k - |first|];
    FrameIsReadBack(payload, tail[..k - |first|]);
  }

  lemma WrittenCons(payloads: seq<Bytes>, n: nat)
    requires Packable(payloads) && n < |payloads|
    ensures |Written(payloads[..n + 1])| == |Frame(payloads[0]).value| + |Written(payloads[1..][..n])|
  {
    assert payloads[..n + 1][1..] == payloads[1..][..n];
  }

  lemma ReadBack(payloads: seq<Bytes>)
    requires Packable(payloads)
    ensures Frames(Written(payloads)) == payloads
  {
    RoundTrip(payloads, []);
    assert Written(payloads) + [] == Written(payloads);
  }

  /** Different payload lists are written differently. */
  lemma WrittenIsInjective(ps: seq<Bytes>, qs: seq<Bytes>)
    requires Packable(ps) && Packable(qs) && Written(ps) == Written(qs)
    ensures ps == qs
  {
    ReadBack(ps);
    ReadBack(qs);
  }
}
