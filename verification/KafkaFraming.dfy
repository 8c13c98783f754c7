/** Kafka messages on the wire: a four-byte length in front of each, read in whatever pieces they arrive. */
module KafkaFraming {
  import opened Messages
  import opened ByteOrder

  /** The length of the first message with its length field, once all of it is there. */
  function FullLength(src: Bytes): (n: Option<nat>)
    ensures n.Some? ==> 4 <= n.value <= |src|
  {
    if |src| < 4 then None
    else
      var size := FromLe4(src[3], src[2], src[1], src[0]) + 4;
      if size <= |src| then Some(size) else None
  }

  datatype Cut = Cut(messages: seq<Bytes>, left: Bytes)

  /** Calls of `decode` until it asks for more bytes. */
  function CutAll(src: Bytes): Cut
    decreases |src|
  {
    var n := FullLength(src);
    if n.None? then Cut([], src)
    else
      var later := CutAll(src[n.value..]);
      Cut([src[..n.value]] + later.messages, later.left)
  }

  /** One call: the first message if all of it is there, or nothing. */
  method TakeMessage(src: Bytes) returns (message: Option<Bytes>, rest: Bytes)
    ensures message.None? ==> rest == src && CutAll(src) == Cut([], src)
    ensures message.Some? ==>
      && message.value + rest == src && |message.value| >= 4
      && CutAll(src) == Cut([message.value] + CutAll(rest).messages, CutAll(rest).left)
  {
    var n := FullLength(src);
    if n.None? {
      return None, src;
    }
    message, rest := Some(src[..n.value]), src[n.value..];
  }

  lemma {:induction false} LengthStable(a: Bytes, b: Bytes)
    requires FullLength(a).Some?
    ensures FullLength(a + b) == FullLength(a)
  {
  }

  lemma {:induction false} FirstCut(a: Bytes) returns (m: Bytes, rest: Bytes)
    requires FullLength(a).Some?
    ensures a == m + rest && FullLength(a) == Some(|m|) && |m| >= 4
  {
    m, rest := Split(a, FullLength(a).value);
  }

  lemma {:induction false} Split(a: Bytes, n: nat) returns (m: Bytes, rest: Bytes)
    requires n <= |a|
    ensures a == m + rest && |m| == n
  {
    m, rest := a[..n], a[n..];
  }

  lemma {:induction false} CutFirst(src: Bytes, m: Bytes, rest: Bytes)
    requires src == m + rest && FullLength(src) == Some(|m|)
    ensures CutAll(src) == Cut([m] + CutAll(rest).messages, CutAll(rest).left)
  {
    assert src[..|m|] == m && src[|m|..] == rest;
  }

  function After(list: seq<Bytes>, cut: Cut): Cut {
    Cut(list + cut.messages, cut.left)
  }

  lemma {:induction false} AfterAfter(m: Bytes, list: seq<Bytes>, cut: Cut)
    ensures After([m], After(list, cut)) == After([m] + list, cut) && After([], cut) == cut
  {
    assert [m] + (list + cut.messages) == [m] + list + cut.messages;
    assert [] + cut.messages == cut.messages;
  }

  /** Reading part of the bytes first and the rest later is reading them all. */
  lemma {:induction false} CutResumes(a: Bytes, b: Bytes)
    ensures CutAll(a + b) == After(CutAll(a).messages, CutAll(CutAll(a).left + b))
    decreases |a|
  {
    if FullLength(a).None? {
      AfterAfter([], [], CutAll(a + b));
    } else {
      var m, rest := FirstCut(a);
      LengthStable(a, b);
      Regrouped(m, rest, b);
      CutFirst(a, m, rest);
      CutFirst(a + b, m, rest + b);
      CutResumes(rest, b);
      AfterAfter(m, CutAll(rest).messages, CutAll(CutAll(rest).left + b));
    }
  }

  function Flat(chunks: seq<Bytes>): Bytes {
    if chunks == [] then [] else Flat(chunks[..|chunks| - 1]) + chunks[|chunks| - 1]
  }

  /** The messages read from bytes that arrive in pieces. */
  function FeedAll(chunks: seq<Bytes>): Cut {
    if chunks == [] then Cut([], [])
    else
      var before := FeedAll(chunks[..|chunks| - 1]);
      After(before.messages, CutAll(before.left + chunks[|chunks| - 1]))
  }

  /** The pieces make no difference. */
  lemma {:induction false} PiecesIrrelevant(chunks: seq<Bytes>)
    ensures FeedAll(chunks) == CutAll(Flat(chunks))
  {
    if chunks != [] {
      PiecesIrrelevant(chunks[..|chunks| - 1]);
      CutResumes(Flat(chunks[..|chunks| - 1]), chunks[|chunks| - 1]);
    }
  }

  /** A body with its length in front. */
  function Framed(body: Bytes): Bytes
    requires |body| < 0x1_0000_0000
  {
    var l := Le4(|body|);
    [l[3], l[2], l[1], l[0]] + body
  }

  /** The length goes out most significant byte first, and the body behind it. */
  lemma {:induction false} FramedExactly(body: Bytes)
    requires |body| < 0x1_0000_0000
    ensures var f := Framed(body);
            var a: int, b: int, c: int, d: int := f[0], f[1], f[2], f[3];
            |body| == a * 0x100_0000 + b * 0x1_0000 + c * 0x100 + d && f[4..] == body
  {
    Le4RoundTrip(|body|);
  }

  predicate Lengths(bodies: seq<Bytes>) {
    forall i :: 0 <= i < |bodies| ==> |bodies[i]| < 0x1_0000_0000
  }

  function FramedAll(bodies: seq<Bytes>): Bytes
    requires Lengths(bodies)
  {
    if bodies == [] then [] else Framed(bodies[0]) + FramedAll(bodies[1..])
  }

  function Frames(bodies: seq<Bytes>): seq<Bytes>
    requires Lengths(bodies)
  {
    seq(|bodies|, i requires 0 <= i < |bodies| => Framed(bodies[i]))
  }

  lemma {:induction false} CutOne(body: Bytes, rest: Bytes)
    requires |body| < 0x1_0000_0000
    ensures FullLength(Framed(body) + rest) == Some(|Framed(body)|)
    ensures (Framed(body) + rest)[..|Framed(body)|] == Framed(body) && (Framed(body) + rest)[|Framed(body)|..] == rest
  {
    Le4RoundTrip(|body|);
  }

  lemma {:induction false} CutFramed(bodies: seq<Bytes>)
    requires Lengths(bodies)
    ensures CutAll(FramedAll(bodies)) == Cut(Frames(bodies), [])
    decreases |bodies|
  {
    if bodies != [] {
      CutOne(bodies[0], FramedAll(bodies[1..]));
      CutFramed(bodies[1..]);
      assert Frames(bodies) == [Framed(bodies[0])] + Frames(bodies[1..]);
    }
  }

  /** Messages written one after the other are read back one by one, over any pieces. */
  lemma {:induction false} FramingRoundTrip(bodies: seq<Bytes>, chunks: seq<Bytes>)
    requires Lengths(bodies) && Flat(chunks) == FramedAll(bodies)
    ensures FeedAll(chunks) == Cut(Frames(bodies), [])
  {
    PiecesIrrelevant(chunks);
    CutFramed(bodies);
  }
}
