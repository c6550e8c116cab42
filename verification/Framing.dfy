// Length-prefixed frames on a byte stream, and the meaning of a receiver's partial state.
module Framing {
  import opened Types
  import opened Codec

  type Packet = p: Bytes | |p| < WORDS

  /** What basesend writes for one packet. */
  function Frame(p: Packet): (b: Bytes)
    ensures |b| == 4 + |p|
  {
    WordBytes(|p|) + p
  }

  /** The length is in network order before the packet. */
  lemma FrameBytes()
    ensures Frame([0 as char, 0 as char, 0 as char, 30 as char]) ==
            [0 as char, 0 as char, 0 as char, 4 as char, 0 as char, 0 as char, 0 as char, 30 as char]
  {}

  function Stream(ps: seq<Packet>): Bytes {
    if ps == [] then [] else Frame(ps[0]) + Stream(ps[1..])
  }

  /** Where a receiver stands: part of a size word, or part of a packet of known size. */
  datatype Rx = Header(got: Bytes) | Body(size: Word, got: Bytes)

  predicate RxOk(r: Rx) {
    match r
    case Header(got) => |got| < 4
    case Body(size, got) => |got| < size || (size == 0 && got == [])
  }

  /** A frame of no bytes leaves the receiver asking for zero bytes for ever. */
  predicate Stuck(r: Rx) {
    r == Body(0, [])
  }

  /** The bytes of the stream that a partial state stands for. */
  function Residue(r: Rx): Bytes {
    match r
    case Header(got) => got
    case Body(size, got) => WordBytes(size) + got
  }

  predicate NonEmpty(ps: seq<Packet>) {
    forall i :: 0 <= i < |ps| ==> ps[i] != []
  }

  /** The bytes `c` received so far decode as the packets `ps` followed by the state `r`. */
  predicate Explains(c: Bytes, ps: seq<Packet>, r: Rx) {
    c == Stream(ps) + Residue(r) && RxOk(r) && NonEmpty(ps)
  }

  lemma StreamCons(p: Packet, ps: seq<Packet>)
    ensures Stream([p] + ps) == Frame(p) + Stream(ps)
  {
    assert ([p] + ps)[1..] == ps;
  }

  lemma {:induction false} StreamAppend(ps: seq<Packet>, qs: seq<Packet>)
    ensures Stream(ps + qs) == Stream(ps) + Stream(qs)
  {
    hide Frame;
    if ps == [] {
      assert ps + qs == qs;
    } else {
      StreamAppend(ps[1..], qs);
      ConcatAssoc(Frame(ps[0]), Stream(ps[1..]), Stream(qs));
      assert ps + qs == [ps[0]] + (ps[1..] + qs);
      StreamCons(ps[0], ps[1..] + qs);
    }
  }

  lemma HandedNothing(all: Bytes)
    ensures Stream([]) + all == all
  {}

  /** One more packet handed over accounts for one more frame. */
  lemma HandedOver(packets: seq<Packet>, k: nat, rest: Bytes)
    requires k < |packets|
    ensures Stream(packets[..k + 1]) + rest == Stream(packets[..k]) + (Frame(packets[k]) + rest)
  {
    hide Frame;
    assert packets[..k + 1] == packets[..k] + [packets[k]];
    StreamAppend(packets[..k], [packets[k]]);
    StreamCons(packets[k], []);
    assert [packets[k]] + [] == [packets[k]];
    ConcatAssoc(Stream(packets[..k]), Frame(packets[k]), rest);
  }

  /** Equal streams that start with two whole frames start with the same frame. */
  lemma SameFrame(p: Packet, x: Bytes, q: Packet, y: Bytes)
    requires Frame(p) + x <= Frame(q) + y || Frame(q) + y <= Frame(p) + x
    ensures p == q
    ensures Frame(p) + x <= Frame(q) + y ==> x <= y
    ensures Frame(p) + x == Frame(q) + y ==> x == y
  {
    hide WordBytes, WordAt;
    var a, b := Frame(p) + x, Frame(q) + y;
    assert a[0..4] == WordBytes(|p|) && b[0..4] == WordBytes(|q|);
    assert a[0..4] == b[0..4];
    WordRoundTrip(|p|, a, 0);
    WordRoundTrip(|q|, b, 0);
    WordRoundTrip(|q|, a, 0);
    assert |p| == |q|;
    assert a[4..4 + |p|] == p && b[4..4 + |p|] == q;
    assert a[4..4 + |p|] == b[4..4 + |p|];
    assert a[4 + |p|..] == x && b[4 + |p|..] == y;
  }

  /** A partial state is no prefix of a stream that goes on with a whole nonempty frame. */
  lemma ResidueNotFrame(r: Rx, q: Packet, y: Bytes)
    requires RxOk(r) && q != []
    ensures Residue(r) != Frame(q) + y
  {
    hide WordBytes, WordAt;
    if r.Body? && Residue(r) == Frame(q) + y {
      var a := Residue(r);
      assert a[0..4] == WordBytes(r.size) && a[0..4] == WordBytes(|q|);
      WordRoundTrip(r.size, a, 0);
      WordRoundTrip(|q|, a, 0);
    }
  }

  /** Part of a stream that goes on with a whole nonempty frame is less than the frame, if
      a partial state stands for it; and such a state is not stuck. */
  lemma ResidueShort(r: Rx, q: Packet, y: Bytes)
    requires RxOk(r) && q != [] && Residue(r) <= Frame(q) + y
    ensures |Residue(r)| < |Frame(q)| && !Stuck(r)
  {
    hide WordBytes, WordAt;
    if r.Body? {
      var a, b := Residue(r), Frame(q) + y;
      assert a[0..4] == WordBytes(r.size) && b[0..4] == WordBytes(|q|) && a[0..4] == b[0..4];
      WordRoundTrip(r.size, a, 0);
      WordRoundTrip(|q|, a, 0);
    }
  }

  lemma ResidueInjective(r: Rx, s: Rx)
    requires RxOk(r) && RxOk(s) && Residue(r) == Residue(s)
    ensures r == s
  {
    hide WordBytes, WordAt;
    var a := Residue(r);
    if r.Body? && s.Body? {
      assert a[0..4] == WordBytes(r.size) && a[0..4] == WordBytes(s.size);
      WordRoundTrip(r.size, a, 0);
      WordRoundTrip(s.size, a, 0);
      assert a[4..] == r.got && a[4..] == s.got;
    }
  }

  /** After its first packet, a stream is explained by the other packets. */
  lemma ExplainsCons(c: Bytes, ps: seq<Packet>, r: Rx) returns (x: Bytes)
    requires Explains(c, ps, r) && ps != []
    ensures ps[0] != [] && c == Frame(ps[0]) + x && Explains(x, ps[1..], r)
  {
    hide Frame, Residue, RxOk;
    x := Stream(ps[1..]) + Residue(r);
    assert c == Frame(ps[0]) + Stream(ps[1..]) + Residue(r);
    assert NonEmpty(ps[1..]);
  }

  /** The bytes received determine the packets delivered and the state: whatever the
      reads were, two receivers that got the same bytes delivered the same packets and
      stand at the same place. */
  lemma {:induction false} ExplainsUnique(c: Bytes, ps: seq<Packet>, r: Rx, qs: seq<Packet>, s: Rx)
    requires Explains(c, ps, r) && Explains(c, qs, s)
    ensures ps == qs && r == s
    decreases |ps|
  {
    hide Frame, Residue, RxOk;
    if ps == [] && qs == [] {
      assert c == Residue(r) && c == Residue(s);
      ResidueInjective(r, s);
    } else if ps == [] {
      var y := ExplainsCons(c, qs, s);
      ResidueNotFrame(r, qs[0], y);
    } else if qs == [] {
      var x := ExplainsCons(c, ps, r);
      ResidueNotFrame(s, ps[0], x);
    } else {
      var x := ExplainsCons(c, ps, r);
      var y := ExplainsCons(c, qs, s);
      SameFrame(ps[0], x, qs[0], y);
      ExplainsUnique(x, ps[1..], r, qs[1..], s);
      assert ps == [ps[0]] + ps[1..] && qs == [qs[0]] + qs[1..];
    }
  }

  /** Packets delivered from part of a sent stream are the first packets sent. */
  lemma {:induction false} DeliveredArePrefix(c: Bytes, ps: seq<Packet>, r: Rx, sent: seq<Packet>)
    requires Explains(c, ps, r) && c <= Stream(sent)
    ensures ps <= sent
    decreases |ps|
  {
    hide Frame, Residue, RxOk;
    if ps != [] {
      var x := ExplainsCons(c, ps, r);
      assert sent != [];
      SameFrame(ps[0], x, sent[0], Stream(sent[1..]));
      DeliveredArePrefix(x, ps[1..], r, sent[1..]);
    }
  }

  /** Once a receiver has taken all it can, the whole stream or everything up to a frame
      that blocks it, it has delivered every packet sent if and only if none was empty;
      otherwise it has delivered those before the first empty one. */
  lemma {:induction false} AllDeliveredIff(c: Bytes, ps: seq<Packet>, r: Rx, sent: seq<Packet>)
    requires Explains(c, ps, r) && c <= Stream(sent)
    requires c == Stream(sent) || Stuck(r)
    ensures ps == sent <==> NonEmpty(sent)
    ensures ps <= sent && (ps != sent ==> sent[|ps|] == [])
    decreases |ps|
  {
    hide Frame, RxOk;
    if ps == [] {
      assert c == Residue(r);
      if sent != [] {
        var y := Stream(sent[1..]);
        if c == Stream(sent) && sent[0] != [] {
          ResidueNotFrame(r, sent[0], y);
        } else if sent[0] != [] {
          StuckIsEmptyFrame(sent[0], y);
        }
      }
    } else {
      var x := ExplainsCons(c, ps, r);
      assert sent != [];
      SameFrame(ps[0], x, sent[0], Stream(sent[1..]));
      AllDeliveredIff(x, ps[1..], r, sent[1..]);
      assert sent == [sent[0]] + sent[1..] && ps == [ps[0]] + ps[1..];
      assert NonEmpty(sent[1..]) && sent[0] != [] ==> NonEmpty(sent);
      assert NonEmpty(sent) ==> NonEmpty(sent[1..]);
    }
  }

  lemma StuckIsEmptyFrame(q: Packet, y: Bytes)
    requires Residue(Body(0, [])) <= Frame(q) + y
    ensures q == []
  {
    hide WordBytes, WordAt;
    var a, b := Residue(Body(0, [])), Frame(q) + y;
    assert a == WordBytes(0);
    assert b[0..4] == WordBytes(|q|) && b[0..4] == a;
    WordRoundTrip(0, b, 0);
    WordRoundTrip(|q|, b, 0);
  }
}
