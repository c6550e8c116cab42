// Which bytes carry which request or reply.
module Wire {
  import opened Types
  import opened Codec

  /** `b` is a packet by which a client asks for `r`: whatever the broker reads as that,
      laid out as a client's own calls do or otherwise, and whatever follows what it
      reads. */
  predicate Asks(b: Bytes, r: Request) {
    match r
    case Publish(name, data) => Reads(b, CS_PUBLISH, name, data)
    case Subscribe(name) =>
      && |b| >= 4 && WordAt(b, 0) == CS_SUBSCRIBE
      && NUL in b[4..] && UpToNul(b[4..]) == name
    case KillServer => |b| >= 4 && WordAt(b, 0) == CS_KILLSERVER
    case ClearServer => |b| >= 4 && WordAt(b, 0) == CS_CLEARSERVER
    case Other(kind) =>
      && |b| >= 4 && WordAt(b, 0) == kind
      && kind !in {CS_PUBLISH, CS_SUBSCRIBE, CS_KILLSERVER, CS_CLEARSERVER}
  }

  /** `b` is a packet the broker writes for `r`: a stored topic encoded, or a publication
      with its type overwritten. */
  predicate Tells(b: Bytes, r: Reply) {
    match r
    case Notify(name, data) =>
      (|name| <= 128 && b == Encode(SC_NOTIFY, name, data)) || Reads(b, SC_NOTIFY, name, data)
    case KillClient => b == WordBytes(SC_KILLCLIENT)
  }

  /** A reply whose lengths the 32-bit fields can hold. */
  predicate Readable(r: Reply) {
    r.Notify? ==> Fits(r.data)
  }

  lemma WordPacket(w: Word)
    ensures WordAt(WordBytes(w), 0) == w
  {
    assert WordBytes(w)[0..4] == WordBytes(w);
    WordRoundTrip(w, WordBytes(w), 0);
  }

  /** The type word by which `process` tells the packets apart. */
  function Kind(r: Request): Word {
    match r
    case Publish(_, _) => CS_PUBLISH
    case Subscribe(_) => CS_SUBSCRIBE
    case KillServer => CS_KILLSERVER
    case ClearServer => CS_CLEARSERVER
    case Other(kind) => kind
  }

  lemma AsksKind(b: Bytes, r: Request)
    requires Asks(b, r)
    ensures |b| >= 4 && WordAt(b, 0) == Kind(r)
    ensures r.Other? ==> r.kind !in {CS_PUBLISH, CS_SUBSCRIBE, CS_KILLSERVER, CS_CLEARSERVER}
  {
    hide WordAt, WordBytes, Encode, UpToNul;
  }

  /** No packet carries two different requests. */
  lemma AsksUnique(b: Bytes, r: Request, q: Request)
    requires Asks(b, r) && Asks(b, q)
    ensures r == q
  {
    hide WordAt, WordBytes, Encode, UpToNul;
    AsksKind(b, r);
    AsksKind(b, q);
  }

  /** Either way a client reads the topic's name and value in it. */
  lemma TellsReads(b: Bytes, name: Name, data: Data)
    requires Tells(b, Notify(name, data)) && Fits(data)
    ensures Reads(b, SC_NOTIFY, name, data)
  {
    hide Encode, Reads;
    if |name| <= 128 && b == Encode(SC_NOTIFY, name, data) {
      EncodeReads(SC_NOTIFY, name, data);
    }
  }

  lemma TellsKind(b: Bytes, r: Reply)
    requires Tells(b, r) && Readable(r)
    ensures |b| >= 4 && WordAt(b, 0) == if r.Notify? then SC_NOTIFY else SC_KILLCLIENT
  {
    hide WordAt, WordBytes, Encode, NameOf, Decode;
    match r
    case Notify(name, data) => TellsReads(b, name, data);
    case KillClient => WordPacket(SC_KILLCLIENT);
  }

  /** No packet carries two different replies. */
  lemma TellsUnique(b: Bytes, r: Reply, q: Reply)
    requires Tells(b, r) && Tells(b, q) && Readable(r) && Readable(q)
    ensures r == q
  {
    hide WordAt, WordBytes, Encode, NameOf, Decode;
    TellsKind(b, r);
    TellsKind(b, q);
    if r.Notify? {
      TellsReads(b, r.name, r.data);
      TellsReads(b, q.name, q.data);
    }
  }

  /** The bytes of one packet of each kind. */
  lemma WireBytes()
    ensures Asks(Sample(1 as char), Publish("ab", SAMPLE_DATA))
    ensures Asks([0 as char, 0 as char, 0 as char, 2 as char, 'a', 'b', 0 as char], Subscribe("ab"))
    ensures Asks([0 as char, 0 as char, 0 as char, 3 as char], KillServer)
    ensures Asks([0 as char, 0 as char, 0 as char, 4 as char], ClearServer)
    ensures Tells(Sample(20 as char), Notify("ab", SAMPLE_DATA))
    ensures Tells([0 as char, 0 as char, 0 as char, 30 as char], KillClient)
  {
    hide Encode, Sample, Reads, WordAt, UpToNul;
    SampleBytes(1 as char);
    SampleBytes(20 as char);
    EncodeReads(CS_PUBLISH, "ab", SAMPLE_DATA);
    var s: Bytes := [0 as char, 0 as char, 0 as char, 2 as char, 'a', 'b', 0 as char];
    WordOf(s, 2 as char);
    assert s[4..][2] == NUL && s[4..][..2] == "ab";
    UpToNulUnique("ab", s[4..]);
    WordOf([0 as char, 0 as char, 0 as char, 3 as char], 3 as char);
    WordOf([0 as char, 0 as char, 0 as char, 4 as char], 4 as char);
    var k: Bytes := [0 as char, 0 as char, 0 as char, 30 as char];
    WordOf(k, 30 as char);
    BytesRoundTrip(k, 0);
    assert k[0..4] == k;
  }

  lemma WordOf(b: Bytes, low: Octet)
    requires |b| >= 4 && b[0] == b[1] == b[2] == 0 as char && b[3] == low
    ensures WordAt(b, 0) == low as int
  {
    var w: Bytes := b[0..4];
    var x, y, z := w[..3], w[..2], w[..1];
    assert x[..2] == y && y[..1] == z && z[..0] == [];
    assert Value(z) == 0 && Value(y) == 0 && Value(x) == 0;
  }
}
