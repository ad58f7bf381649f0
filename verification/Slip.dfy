/** The SLIP network device (RFC 1055): the encoder that feeds packets to the guest, and the decoder that collects the
    bytes the guest transmits. The decoder has no escape flag: it treats the last buffered byte as one. */
module Slip {

  import opened ByteSeq

  const END: Byte := 192
  const ESC: Byte := 219
  const ESC_END: Byte := 220
  const ESC_ESC: Byte := 221
  const BUF_STEP: nat := 1500

  type Packet = seq<Byte>

  // ---------------------------------------------------------------- the encoder

  function EncodeByte(b: Byte): Packet {
    if b == END then [ESC, ESC_END] else if b == ESC then [ESC, ESC_ESC] else [b]
  }

  function EncodeBody(p: Packet): Packet {
    if p == [] then [] else EncodeBody(p[..|p| - 1]) + EncodeByte(p[|p| - 1])
  }

  function Encode(p: Packet): Packet { EncodeBody(p) + [END] }

  // ---------------------------------------------------------------- the decoder

  /** held: the bytes buffered so far. sent: the packets written to the network. */
  datatype Decoder = Decoder(held: Packet, sent: seq<Packet>)

  predicate EndsInEsc(p: Packet) { p != [] && p[|p| - 1] == ESC }

  /** The buffer after a byte other than END. */
  function Accept(held: Packet, b: Byte): Packet {
    if EndsInEsc(held) && b == ESC_END then held[..|held| - 1] + [END]
    else if EndsInEsc(held) && b == ESC_ESC then held
    else held + [b]
  }

  function Feed(d: Decoder, b: Byte): Decoder {
    if b != END then Decoder(Accept(d.held, b), d.sent)
    else if d.held == [] then d
    else Decoder([], d.sent + [d.held])
  }

  function FeedAll(d: Decoder, input: Packet): Decoder {
    if input == [] then d else Feed(FeedAll(d, input[..|input| - 1]), input[|input| - 1])
  }

  lemma {:induction false} FeedAllAppend(d: Decoder, a: Packet, b: Packet)
    ensures FeedAll(d, a + b) == FeedAll(FeedAll(d, a), b)
    decreases |b|
  {
    if b == [] {
      assert a + b == a;
    } else {
      var c := b[..|b| - 1];
      assert (a + b)[..|a + b| - 1] == a + c;
      FeedAllAppend(d, a, c);
    }
  }

  // ---------------------------------------------------------------- what a round trip gives

  /** A literal ESC_END or ESC_ESC right after a literal ESC. */
  predicate BadPair(p: Packet, i: nat) {
    i + 1 < |p| && p[i] == ESC && (p[i + 1] == ESC_END || p[i + 1] == ESC_ESC)
  }

  ghost predicate Clean(p: Packet) { forall i: nat :: !BadPair(p, i) }

  /** The packet with every bad pair unescaped once more, left to right. */
  function Collapse(p: Packet): Packet {
    if p == [] then [] else
      var held := Collapse(p[..|p| - 1]);
      var b := p[|p| - 1];
      if b == END || b == ESC then held + [b] else Accept(held, b)
  }

  lemma {:induction false} FeedEncodedByte(d: Decoder, b: Byte)
    ensures FeedAll(d, EncodeByte(b)) ==
            Decoder(if b == END || b == ESC then d.held + [b] else Accept(d.held, b), d.sent)
  {
    var e := EncodeByte(b);
    if |e| == 2 {
      assert e[..1] == [ESC] && [ESC][..0] == [];
      assert FeedAll(d, e[..1]) == Feed(FeedAll(d, []), ESC) == Decoder(d.held + [ESC], d.sent);
      assert (d.held + [ESC])[..|d.held|] == d.held;
    } else {
      assert e[..0] == [];
    }
  }

  lemma {:induction false} FeedEncodedBody(d: Decoder, p: Packet)
    requires d.held == []
    ensures FeedAll(d, EncodeBody(p)) == Decoder(Collapse(p), d.sent)
    decreases |p|
  {
    if p != [] {
      FeedEncodedBody(d, p[..|p| - 1]);
      FeedAllAppend(d, EncodeBody(p[..|p| - 1]), EncodeByte(p[|p| - 1]));
      FeedEncodedByte(Decoder(Collapse(p[..|p| - 1]), d.sent), p[|p| - 1]);
    }
  }

  lemma {:induction false} CleanStep(p: Packet)
    requires p != []
    ensures Clean(p) <==> Clean(p[..|p| - 1]) && (|p| < 2 || !BadPair(p, |p| - 2))
  {
    var q := p[..|p| - 1];
    forall i: nat
      ensures BadPair(p, i) <==> BadPair(q, i) || (i == |p| - 2 && BadPair(p, i))
    {
    }
    if !Clean(q) {
      var i: nat :| BadPair(q, i);
      assert BadPair(p, i);
    }
  }

  /** Nothing is longer than it was; a packet keeps its length exactly when it has no bad pair, and is then unchanged. */
  lemma {:induction false} CollapseIsIdentityIffClean(p: Packet)
    ensures |Collapse(p)| <= |p| && (p != [] ==> Collapse(p) != [])
    ensures Clean(p) ==> Collapse(p) == p
    ensures !Clean(p) ==> |Collapse(p)| < |p|
    decreases |p|
  {
    if p != [] {
      var q := p[..|p| - 1];
      CollapseIsIdentityIffClean(q);
      CleanStep(p);
      assert q + [p[|p| - 1]] == p;
    }
  }

  /** One packet through encoder and decoder: exactly one packet comes out, and it is the packet itself if and only if
      no ESC is directly followed by ESC_END or ESC_ESC. */
  lemma {:induction false} RoundTrip(p: Packet, sent: seq<Packet>)
    requires p != []
    ensures FeedAll(Decoder([], sent), Encode(p)) == Decoder([], sent + [Collapse(p)])
    ensures Collapse(p) == p <==> Clean(p)
  {
    var d := Decoder([], sent);
    CollapseIsIdentityIffClean(p);
    FeedEncodedBody(d, p);
    FeedAllAppend(d, EncodeBody(p), [END]);
    var d' := Decoder(Collapse(p), sent);
    assert [END][..0] == [];
    assert FeedAll(d', [END]) == Feed(FeedAll(d', []), END) == Feed(d', END);
  }

  function EncodeStream(ps: seq<Packet>): Packet {
    if ps == [] then [] else EncodeStream(ps[..|ps| - 1]) + Encode(ps[|ps| - 1])
  }

  /** What comes out of a stream: the empty packets are dropped, the others collapsed. */
  function Received(ps: seq<Packet>): seq<Packet> {
    if ps == [] then []
    else
      var front, p := Received(ps[..|ps| - 1]), ps[|ps| - 1];
      if p == [] then front else front + [Collapse(p)]
  }

  lemma {:induction false} StreamIsReceived(ps: seq<Packet>)
    ensures FeedAll(Decoder([], []), EncodeStream(ps)) == Decoder([], Received(ps))
    decreases |ps|
  {
    if ps != [] {
      var front, p := ps[..|ps| - 1], ps[|ps| - 1];
      StreamIsReceived(front);
      FeedAllAppend(Decoder([], []), EncodeStream(front), Encode(p));
      var d := Decoder([], Received(front));
      if p == [] {
        assert Encode(p) == [END] && [END][..0] == [];
        assert FeedAll(d, [END]) == Feed(FeedAll(d, []), END) == d;
      } else {
        RoundTrip(p, d.sent);
      }
    }
  }

  predicate Faithful(p: Packet) { p != [] && Collapse(p) == p }

  lemma {:induction false} ReceivedIffFaithful(ps: seq<Packet>)
    ensures |Received(ps)| <= |ps|
    ensures Received(ps) == ps <==> forall p | p in ps :: Faithful(p)
    decreases |ps|
  {
    if ps != [] {
      var front, p := ps[..|ps| - 1], ps[|ps| - 1];
      ReceivedIffFaithful(front);
      assert front + [p] == ps;
      assert (forall q | q in ps :: Faithful(q)) <==> (forall q | q in front :: Faithful(q)) && Faithful(p) by {
        assert forall q :: q in ps <==> q in front || q == p;
        assert forall q | q in front :: q in ps;
        assert p in ps;
      }
      if p == [] {
        assert !Faithful(p) && |Received(ps)| < |ps|;
      } else if Received(ps) == ps {
        assert Received(ps)[..|ps| - 1] == Received(front);
        assert Received(ps)[|ps| - 1] == Collapse(p);
      }
    }
  }

  /** Any number of packets: the far side sees exactly the packets sent if and only if every one of them is nonempty and
      clean. */
  lemma {:induction false} StreamRoundTrip(ps: seq<Packet>)
    ensures FeedAll(Decoder([], []), EncodeStream(ps)).sent == ps <==> forall p | p in ps :: p != [] && Clean(p)
  {
    StreamIsReceived(ps);
    ReceivedIffFaithful(ps);
    forall p | p in ps
      ensures Faithful(p) <==> p != [] && Clean(p)
    {
      CollapseIsIdentityIffClean(p);
    }
  }

  // ---------------------------------------------------------------- the decoder of RFC 1055, for reference

  /** The receiver of the RFC: an explicit flag says that the previous byte was an ESC. */
  datatype Reference = Reference(held: Packet, escaped: bool)

  function ReferenceFeed(r: Reference, b: Byte): Reference {
    if r.escaped then
      Reference(r.held + [if b == ESC_END then END else if b == ESC_ESC then ESC else b], false)
    else if b == ESC then Reference(r.held, true)
    else Reference(r.held + [b], false)
  }

  function ReferenceDecode(input: Packet): Reference {
    if input == [] then Reference([], false)
    else ReferenceFeed(ReferenceDecode(input[..|input| - 1]), input[|input| - 1])
  }

  lemma {:induction false} ReferenceStep(e: Packet, b: Byte)
    ensures ReferenceDecode(e + [b]) == ReferenceFeed(ReferenceDecode(e), b)
  {
    assert (e + [b])[..|e|] == e;
  }

  lemma {:induction false} ReferenceByte(e: Packet, b: Byte)
    requires !ReferenceDecode(e).escaped
    ensures ReferenceDecode(e + EncodeByte(b)) == Reference(ReferenceDecode(e).held + [b], false)
  {
    if b == END || b == ESC {
      var last := EncodeByte(b)[1];
      ReferenceStep(e, ESC);
      ReferenceStep(e + [ESC], last);
      assert e + EncodeByte(b) == e + [ESC] + [last];
    } else {
      ReferenceStep(e, b);
    }
  }

  lemma {:induction false} ReferenceRoundTrip(p: Packet)
    ensures ReferenceDecode(EncodeBody(p)) == Reference(p, false)
    decreases |p|
  {
    if p != [] {
      var q, b := p[..|p| - 1], p[|p| - 1];
      ReferenceRoundTrip(q);
      ReferenceByte(EncodeBody(q), b);
      assert q + [b] == p;
    }
  }

  /** The encoder never puts an END inside a packet, so packets are delimited as the RFC asks. */
  lemma {:induction false} BodyHasNoEnd(p: Packet)
    ensures END !in EncodeBody(p)
    decreases |p|
  {
    if p != [] {
      BodyHasNoEnd(p[..|p| - 1]);
    }
  }

  /** The device's decoder and the RFC's decoder agree on the encoding of a packet if and only if the packet is clean. */
  lemma {:induction false} AgreesWithReferenceIffClean(p: Packet)
    ensures FeedAll(Decoder([], []), EncodeBody(p)).held == ReferenceDecode(EncodeBody(p)).held <==> Clean(p)
  {
    ReferenceRoundTrip(p);
    FeedEncodedBody(Decoder([], []), p);
    CollapseIsIdentityIffClean(p);
  }

  /** The codes of RFC 1055: 192 ends a packet and travels as 219 220, and 219 as 219 221. */
  lemma {:induction false} CodesOfTheRfc(b: Byte)
    ensures Encode([192]) == [219, 220, 192] && Encode([219]) == [219, 221, 192]
    ensures b != 192 && b != 219 ==> Encode([b]) == [b, 192]
  {
    assert [192][..0] == [] && [219][..0] == [] && [b][..0] == [];
  }

  // ---------------------------------------------------------------- the device

  class SlipDevice {
    var sndbuf: array<Byte>
    var sndsiz: nat
    var network: seq<Packet>

    /** The buffer is a whole number of steps and just large enough. */
    ghost predicate Valid()
      reads this
    {
      && sndsiz <= sndbuf.Length && sndbuf.Length % BUF_STEP == 0
      && BUF_STEP <= sndbuf.Length && (sndbuf.Length == BUF_STEP || sndbuf.Length < sndsiz + BUF_STEP)
    }

    ghost function Abstract(): Decoder
      requires Valid()
      reads this, sndbuf
    {
      Decoder(sndbuf[..sndsiz], network)
    }

    constructor ()
      ensures Valid() && Abstract() == Decoder([], []) && fresh(sndbuf)
    {
      sndbuf := new Byte[BUF_STEP];
      sndsiz, network := 0, [];
    }

    /** realloc: a new block whose common prefix is kept. */
    method Reallocate(size: nat)
      modifies this`sndbuf
      ensures fresh(sndbuf) && sndbuf.Length == size
      ensures forall i :: 0 <= i < size && i < old(sndbuf.Length) ==> sndbuf[i] == old(sndbuf[i])
    {
      var was := sndbuf;
      var next := new Byte[size];
      for i := 0 to if size < was.Length then size else was.Length
        invariant forall j :: 0 <= j < i ==> next[j] == was[j]
      {
        next[i] := was[i];
      }
      sndbuf := next;
    }

    method SendPacket()
      requires Valid()
      modifies this
      ensures Valid() && Abstract() == Decoder([], old(network) + [old(Abstract()).held])
      ensures sndbuf == old(sndbuf) || fresh(sndbuf)
    {
      network := network + [sndbuf[..sndsiz]];
      if sndsiz > BUF_STEP {
        Reallocate(BUF_STEP);
      }
      sndsiz := 0;
    }

    /** One transmitted byte. Every access stays inside the block allocated at that moment. */
    method WriteData(data: Byte)
      requires Valid()
      modifies this, sndbuf
      ensures Valid() && Abstract() == Feed(old(Abstract()), data)
      ensures sndbuf == old(sndbuf) || fresh(sndbuf)
    {
      if data == END {
        if sndsiz > 0 {
          SendPacket();
        }
        return;
      }
      if sndsiz > 0 && sndbuf[sndsiz - 1] == ESC {
        if data == ESC_END {
          sndbuf[sndsiz - 1] := END;
          return;
        } else if data == ESC_ESC {
          sndbuf[sndsiz - 1] := ESC;
          return;
        }
      }
      if sndsiz != 0 && sndsiz % BUF_STEP == 0 {
        Reallocate(sndsiz + BUF_STEP);
      }
      sndbuf[sndsiz] := data;
      sndsiz := sndsiz + 1;
    }

    /** The transmit thread's loop over any byte stream. */
    method Transmit(bytes: Packet)
      requires Valid()
      modifies this, sndbuf
      ensures Valid() && Abstract() == FeedAll(old(Abstract()), bytes)
    {
      ghost var start := Abstract();
      assert bytes[..0] == [];
      for i := 0 to |bytes|
        invariant Valid() && Abstract() == FeedAll(start, bytes[..i])
        invariant sndbuf == old(sndbuf) || fresh(sndbuf)
      {
        assert bytes[..i + 1][..i] == bytes[..i];
        WriteData(bytes[i]);
      }
      assert bytes[..|bytes|] == bytes;
    }
  }

  /** The encoder loop over the ret bytes read from the network; pushed is what the guest receives. */
  method HandleInput(rcvbuf: array<Byte>, ret: nat) returns (pushed: Packet)
    requires ret <= rcvbuf.Length
    ensures pushed == Encode(rcvbuf[..ret])
  {
    pushed := [];
    for i := 0 to ret
      invariant pushed == EncodeBody(rcvbuf[..i])
    {
      assert rcvbuf[..i + 1][..i] == rcvbuf[..i];
      if rcvbuf[i] == END {
        pushed := pushed + [ESC];
        pushed := pushed + [ESC_END];
      } else if rcvbuf[i] == ESC {
        pushed := pushed + [ESC];
        pushed := pushed + [ESC_ESC];
      } else {
        pushed := pushed + [rcvbuf[i]];
      }
    }
    pushed := pushed + [END];
  }
}
