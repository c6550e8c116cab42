// Topic::toMessage and Topic::fromMessage: the two loops over a buffer, proved against
// the layout of module Codec.
module Messages {
  import opened Types
  import opened Codec

  /** memcpy, strcpy, or a store of a word that htonl has put in network order. */
  method Put(buf: array<Octet>, p: nat, b: Bytes)
    requires p + |b| <= buf.Length
    modifies buf
    ensures buf[..p + |b|] == old(buf[..p]) + b
    ensures buf[p + |b|..] == old(buf[p + |b|..])
  {
    forall j | 0 <= j < |b| {
      buf[p + j] := b[j];
    }
  }

  lemma EncodeDataStep(ds: Data, i: nat)
    requires i < |ds|
    ensures EncodeData(ds[i..]) == EncodeDatum(ds[i]) + EncodeData(ds[i + 1..])
  {
    hide EncodeDatum;
    assert ds[i..][1..] == ds[i + 1..];
  }

  /** The first loop of `ToMessage`: how many bytes the packet will take. */
  method MessageSize(d: Data, namelen: nat) returns (size: nat)
    ensures size == 9 + namelen + |EncodeData(d)|
  {
    hide EncodeData;
    size := 8;
    size := size + namelen + 1;
    assert d[0..] == d;
    for i := 0 to |d|
      invariant size + |EncodeData(d[i..])| == 9 + namelen + |EncodeData(d)|
    {
      EncodeDataStep(d, i);
      size := size + 1;
      match d[i]
      case Float(_) => size := size + 4;
      case Str(s) =>
        size := size + 4;
        size := size + |s|;
    }
    assert EncodeData(d[|d|..]) == [] by { assert d[|d|..] == []; EncodeNothing(); }
  }

  lemma EncodeNothing()
    ensures EncodeData([]) == []
  {}

  /** The buffer is allocated by the size the first loop computes; the second loop fills
      it. Every store is inside it, and together they write exactly the packet. The name
      is counted up to the limit but copied whole, so a longer one must not reach beyond
      the place of the data. */
  method ToMessage(d: Data, msgtype: Word, name: Name) returns (buf: array<Octet>, size: nat)
    requires |name| <= 128 + |EncodeData(d)|
    ensures fresh(buf)
    ensures size == buf.Length
    ensures buf[..] == Encode(msgtype, name, d)
  {
    hide EncodeData, EncodeDatum, WordBytes, Kept;
    var nll := |name|;
    if nll > 128 {
      nll := 128;
    }
    var namelen := nll + 1;
    size := MessageSize(d, namelen);
    buf := new Octet[size];
    var p: nat := PutHeader(buf, msgtype, |d|, namelen, name);
    assert d[0..] == d;
    for i := 0 to |d|
      invariant p <= buf.Length
      invariant p + |EncodeData(d[i..])| == size == buf.Length
      invariant buf[..p] + EncodeData(d[i..]) == Encode(msgtype, name, d)
    {
      p := PutDatum(buf, p, d, i, Encode(msgtype, name, d));
    }
    EncodeNothing();
    assert d[|d|..] == [];
    assert buf[..p] == buf[..];
  }

  method PutHeader(buf: array<Octet>, msgtype: Word, count: nat, namelen: nat, name: Name) returns (p: nat)
    requires namelen == |Kept(name)| && |name| + 10 <= buf.Length
    modifies buf
    ensures p == 9 + namelen <= buf.Length && buf[..p] == Header(msgtype, count, name)
  {
    hide WordBytes, Kept;
    p := 0;
    Put(buf, p, WordBytes(msgtype)); p := p + 4;
    Put(buf, p, WordBytes(count % WORDS)); p := p + 4;
    Put(buf, p, [namelen as char]); p := p + 1;
    KeptName(name);
    Put(buf, p, name + [NUL]);
    assert buf[..p + namelen] == buf[..p + |name| + 1][..p + namelen];
    p := p + namelen;
  }

  lemma KeptName(name: Name)
    ensures |Kept(name)| <= |name| + 1 && Kept(name) == (name + [NUL])[..|Kept(name)|]
  {}

  method PutTagged(buf: array<Octet>, p0: nat, tag: Octet, w: Word) returns (p: nat)
    requires p0 + 5 <= buf.Length
    modifies buf
    ensures p == p0 + 5 && buf[..p] == old(buf[..p0]) + ([tag] + WordBytes(w))
  {
    hide WordBytes;
    p := p0;
    Put(buf, p, [tag]); p := p + 1;
    Put(buf, p, WordBytes(w)); p := p + 4;
  }

  method PutItem(buf: array<Octet>, p0: nat, d: Datum) returns (p: nat)
    requires p0 + |EncodeDatum(d)| <= buf.Length
    modifies buf
    ensures p == p0 + |EncodeDatum(d)| && buf[..p] == old(buf[..p0]) + EncodeDatum(d)
  {
    hide WordBytes;
    match d {
      case Float(bits) =>
        p := PutTagged(buf, p0, DT_FLOAT, bits);
      case Str(s) =>
        var len := |s|;
        p := PutTagged(buf, p0, DT_STRING, len % WORDS);
        ghost var before := old(buf[..p0]);
        ConcatAssoc(before, [DT_STRING] + WordBytes(len % WORDS), s);
        Put(buf, p, s); p := p + len;
    }
  }

  /** One turn of the fill loop. */
  method PutDatum(buf: array<Octet>, p0: nat, d: Data, i: nat, ghost whole: Bytes) returns (p: nat)
    requires i < |d| && p0 + |EncodeData(d[i..])| == buf.Length
    requires buf[..p0] + EncodeData(d[i..]) == whole
    modifies buf
    ensures p + |EncodeData(d[i + 1..])| == buf.Length
    ensures buf[..p] + EncodeData(d[i + 1..]) == whole
  {
    hide EncodeData, WordBytes;
    EncodeDataStep(d, i);
    ghost var before := buf[..p0];
    p := PutItem(buf, p0, d[i]);
    ConcatAssoc(before, EncodeDatum(d[i]), EncodeData(d[i + 1..]));
  }

  /** Reads back what a packet holds. The source trusts the packet's own lengths, so
      its callers must pass one whose lengths stay inside it. */
  method FromMessage(p: array<Octet>) returns (r: Result<Data, DecodeError>)
    requires Decode(p[..]) != Err(Overrun)
    ensures r == match Decode(p[..]) case Ok((ds, _)) => Ok(ds) case Err(e) => Err(e)
  {
    hide DecodeData, DecodeDatum, WordAt;
    ghost var b := p[..];
    var d: Data := [];
    var q: nat := 4;
    var count := WordAt(p[..], q); q := q + 4;
    var namelen := p[q] as int; q := q + 1;
    q := q + namelen;
    ghost var start := q;
    PrependNothing(DecodeData(b, start, count));
    for i := 0 to count
      invariant q <= |b|
      invariant DecodeData(b, start, count) == Prepend(d, DecodeData(b, q, count - i))
    {
      DecodeDataStep(b, q, count - i, d);
      var item := ReadDatum(p, q);
      match item {
        case Err(e) =>
          return Err(e);
        case Ok((t, next)) =>
          d := d + [t];
          q := next;
      }
    }
    DecodeNothing(b, q);
    assert d + [] == d;
    return Ok(d);
  }

  lemma PrependNothing(r: Decoded)
    ensures Prepend([], r) == r
  {
    match r
    case Ok((ds, _)) => assert [] + ds == ds;
    case Err(_) =>
  }

  lemma DecodeNothing(b: Bytes, p: nat)
    requires p <= |b|
    ensures DecodeData(b, p, 0) == Ok(([], p))
  {}

  lemma DecodeDataStep(b: Bytes, p: nat, count: nat, done: Data)
    requires p <= |b| && count > 0
    ensures Prepend(done, DecodeData(b, p, count)) ==
            match DecodeDatum(b, p)
            case Err(e) => Err(e)
            case Ok((d, q)) => Prepend(done + [d], DecodeData(b, q, count - 1))
  {
    hide DecodeDatum;
    match DecodeDatum(b, p)
    case Err(_) =>
    case Ok((d, q)) =>
      match DecodeData(b, q, count - 1)
      case Err(_) =>
      case Ok((rest, _)) => assert done + ([d] + rest) == done + [d] + rest;
  }

  /** One turn of the reading loop. */
  method ReadDatum(p: array<Octet>, at: nat) returns (r: Result<(Datum, nat), DecodeError>)
    requires at <= p.Length && DecodeDatum(p[..], at) != Err(Overrun)
    ensures r == DecodeDatum(p[..], at)
  {
    hide WordAt, UpToNul;
    var q := at;
    var tag := p[q]; q := q + 1;
    if tag == DT_FLOAT {
      var bits := WordAt(p[..], q); q := q + 4;
      r := Ok((Float(bits), q));
    } else if tag == DT_STRING {
      var len := WordAt(p[..], q); q := q + 4;
      assert p[..][q..q + len] == p[q..q + len];
      r := Ok((Str(UpToNul(p[q..q + len])), q + len));
    } else {
      r := Err(BadTag);
    }
  }
}
