// The Data message layout of data.cpp, as functions on byte sequences, and its laws.
module Codec {
  import opened Types

  // ---- words in network byte order ----

  /** A number in `k` bytes, the most significant first. */
  function BigEndian(w: nat, k: nat): (b: Bytes)
    ensures |b| == k
  {
    if k == 0 then [] else BigEndian(w / 256, k - 1) + [(w % 256) as char]
  }

  function Power(k: nat): nat {
    if k == 0 then 1 else 256 * Power(k - 1)
  }

  /** The number that bytes stand for, the most significant first. */
  function Value(b: Bytes): (w: nat)
    ensures w < Power(|b|)
    decreases |b|
  {
    if b == [] then 0 else 256 * Value(b[..|b| - 1]) + b[|b| - 1] as int
  }

  function WordBytes(w: Word): (b: Bytes)
    ensures |b| == 4
  {
    BigEndian(w, 4)
  }

  function WordAt(b: Bytes, p: nat): (w: Word)
    requires p + 4 <= |b|
  {
    assert Power(4) == WORDS;
    Value(b[p..p + 4])
  }

  lemma {:induction false} BigEndianRoundTrip(w: nat, k: nat)
    requires w < Power(k)
    ensures Value(BigEndian(w, k)) == w
  {
    if k > 0 {
      BigEndianRoundTrip(w / 256, k - 1);
      assert BigEndian(w, k)[..k - 1] == BigEndian(w / 256, k - 1);
    }
  }

  lemma {:induction false} ValueRoundTrip(b: Bytes)
    ensures BigEndian(Value(b), |b|) == b
    decreases |b|
  {
    if b != [] {
      ValueRoundTrip(b[..|b| - 1]);
    }
  }

  lemma WordRoundTrip(w: Word, b: Bytes, p: nat)
    requires p + 4 <= |b| && b[p..p + 4] == WordBytes(w)
    ensures WordAt(b, p) == w
  {
    assert Power(4) == WORDS;
    BigEndianRoundTrip(w, 4);
  }

  lemma BytesRoundTrip(b: Bytes, p: nat)
    requires p + 4 <= |b|
    ensures WordBytes(WordAt(b, p)) == b[p..p + 4]
  {
    ValueRoundTrip(b[p..p + 4]);
  }

  // ---- writing ----

  function EncodeDatum(d: Datum): (b: Bytes)
    ensures |b| >= 5
  {
    match d
    case Float(bits) => [DT_FLOAT] + WordBytes(bits)
    case Str(s) => [DT_STRING] + WordBytes(|s| % WORDS) + s
  }

  function EncodeData(ds: Data): Bytes {
    if ds == [] then [] else EncodeDatum(ds[0]) + EncodeData(ds[1..])
  }

  /** What a packet keeps of a name: all of it and its terminator, if it is no longer than
      the limit; else what fits, the terminator and the rest being overwritten. */
  function Kept(name: Name): (b: Bytes)
    ensures |b| == if |name| <= 128 then |name| + 1 else 129
  {
    if |name| <= 128 then name + [NUL] else name[..129]
  }

  /** The type word, the item count, then the name with its length byte. */
  function Header(kind: Word, count: nat, name: Name): (b: Bytes)
    ensures |b| == 9 + |Kept(name)|
  {
    WordBytes(kind) + WordBytes(count % WORDS) + [|Kept(name)| as char] + Kept(name)
  }

  function Encode(kind: Word, name: Name, ds: Data): Bytes {
    Header(kind, |ds|, name) + EncodeData(ds)
  }

  /** Lengths and counts survive the 32-bit length fields, read back as signed ints. */
  predicate Fits(ds: Data) {
    |ds| < 0x8000_0000 && forall d <- ds :: d.Str? ==> |d.s| < 0x8000_0000
  }

  // ---- reading ----

  /** `BadTag` is the exception the source throws; `Overrun` is a packet whose own
      lengths point past its end, which the source does not check for. */
  datatype DecodeError = BadTag | Overrun

  type Decoded = Result<(Data, nat), DecodeError>

  function Prepend(ds: Data, r: Decoded): Decoded {
    match r
    case Ok((rest, end)) => Ok((ds + rest, end))
    case Err(e) => Err(e)
  }

  /** The datum at `p` and the position after it. A string is cut at its first
      terminator when it is copied into the topic. */
  function DecodeDatum(b: Bytes, p: nat): (r: Result<(Datum, nat), DecodeError>)
    requires p <= |b|
    ensures r.Ok? ==> p + 5 <= r.value.1 <= |b|
  {
    if p == |b| then Err(Overrun)
    else if b[p] == DT_FLOAT then
      if p + 5 > |b| then Err(Overrun) else Ok((Float(WordAt(b, p + 1)), p + 5))
    else if b[p] == DT_STRING then
      if p + 5 > |b| then Err(Overrun)
      else
        var len := WordAt(b, p + 1);
        if len >= 0x8000_0000 || p + 5 + len > |b| then Err(Overrun)
        else Ok((Str(UpToNul(b[p + 5..p + 5 + len])), p + 5 + len))
    else Err(BadTag)
  }

  /** The `count` items from position `p` and the position after the last. */
  function DecodeData(b: Bytes, p: nat, count: nat): (r: Decoded)
    requires p <= |b|
    ensures r.Ok? ==> p <= r.value.1 <= |b| && |r.value.0| == count
    decreases count
  {
    if count == 0 then Ok(([], p))
    else
      match DecodeDatum(b, p)
      case Err(e) => Err(e)
      case Ok((d, q)) => Prepend([d], DecodeData(b, q, count - 1))
  }

  /** The items of a whole packet, and where the last one ends. */
  function Decode(b: Bytes): (r: Decoded)
    ensures r.Ok? ==> |b| >= 9 && 9 + b[8] as int <= r.value.1 <= |b|
  {
    if |b| < 9 || 9 + b[8] as int > |b| then Err(Overrun)
    else DecodeData(b, 9 + b[8] as int, WordAt(b, 4))
  }

  /** The name starts at a fixed offset and runs to the first terminator. */
  function NameOf(b: Bytes): Name
    requires |b| >= 9
  {
    UpToNul(b[9..])
  }

  /** Overwriting the type word in place. */
  function Retyped(b: Bytes, kind: Word): (r: Bytes)
    requires |b| >= 4
  {
    WordBytes(kind) + b[4..]
  }

  /** What a packet can hold fits its 32-bit fields: an item takes five bytes at least. */
  lemma {:induction false} DecodedFits(b: Bytes, p: nat, count: nat)
    requires p <= |b| && DecodeData(b, p, count).Ok?
    ensures var (ds, end) := DecodeData(b, p, count).value;
            && p + 5 * count <= end
            && forall i :: 0 <= i < |ds| && ds[i].Str? ==> |ds[i].s| < 0x8000_0000
    decreases count
  {
    hide WordAt, UpToNul;
    if count > 0 {
      DecodedFits(b, DecodeDatum(b, p).value.1, count - 1);
    }
  }

  /** Reading throws exactly if, after some items that can be read, there is a tag that is
      neither of the two. */
  lemma {:induction false} ThrowsIff(b: Bytes, p: nat, count: nat)
    requires p <= |b|
    ensures DecodeData(b, p, count) == Err(BadTag) <==> exists i: nat :: i < count && BadTagAfter(b, p, i)
    decreases count
  {
    hide WordAt, UpToNul, Prepend;
    if count > 0 {
      match DecodeDatum(b, p)
      case Err(e) =>
        forall i: nat ensures BadTagAfter(b, p, i) ==> e == BadTag {
          FirstBad(b, p, i);
        }
        if e == BadTag {
          assert BadTagAfter(b, p, 0);
        }
      case Ok((d, q)) =>
        ThrowsIff(b, q, count - 1);
        PrependErr([d], DecodeData(b, q, count - 1));
        if i: nat :| i < count - 1 && BadTagAfter(b, q, i) {
          BadTagLater(b, p, q, i);
          assert BadTagAfter(b, p, i + 1);
        }
        if i: nat :| i < count && BadTagAfter(b, p, i) {
          assert i > 0;
          BadTagLater(b, p, q, i - 1);
          assert BadTagAfter(b, q, i - 1);
        }
    }
  }

  lemma FirstBad(b: Bytes, p: nat, i: nat)
    requires p <= |b| && DecodeDatum(b, p).Err?
    ensures BadTagAfter(b, p, i) ==> DecodeDatum(b, p) == Err(BadTag)
  {}

  predicate BadTagAfter(b: Bytes, p: nat, i: nat)
    requires p <= |b|
  {
    && DecodeData(b, p, i).Ok?
    && var q := DecodeData(b, p, i).value.1;
       q < |b| && b[q] != DT_FLOAT && b[q] != DT_STRING
  }

  lemma PrependErr(ds: Data, r: Decoded)
    ensures Prepend(ds, r) == Err(BadTag) <==> r == Err(BadTag)
    ensures Prepend(ds, r).Ok? <==> r.Ok?
    ensures r.Ok? ==> Prepend(ds, r).value.1 == r.value.1
  {}

  lemma BadTagLater(b: Bytes, p: nat, q: nat, i: nat)
    requires p <= |b| && DecodeDatum(b, p).Ok? && DecodeDatum(b, p).value.1 == q
    ensures BadTagAfter(b, p, i + 1) <==> BadTagAfter(b, q, i)
  {
    hide DecodeDatum, Prepend;
    PrependErr([DecodeDatum(b, p).value.0], DecodeData(b, q, i));
  }

  // ---- the bytes themselves ----

  /** A packet about the topic "ab", with an item of each kind, the float 1.5 and "xyz". */
  function Sample(kind: Octet): Bytes {
    SampleHeader(kind) + SampleItems()
  }

  function SampleHeader(kind: Octet): Bytes {
    [0 as char, 0 as char, 0 as char, kind]
    + [0 as char, 0 as char, 0 as char, 2 as char]
    + [3 as char, 'a', 'b', 0 as char]
  }

  function SampleItems(): Bytes {
    [0 as char, 0x3F as char, 0xC0 as char, 0 as char, 0 as char]
    + [1 as char, 0 as char, 0 as char, 0 as char, 3 as char, 'x', 'y', 'z']
  }

  const SAMPLE_DATA: Data := [Float(0x3FC0_0000), Str("xyz")]

  lemma SampleBytes(kind: Octet)
    ensures Encode(kind as int, "ab", SAMPLE_DATA) == Sample(kind)
  {
    hide Header, EncodeData, SampleHeader, SampleItems;
    HeaderBytes(kind);
    ItemBytes();
  }

  lemma HeaderBytes(kind: Octet)
    ensures Header(kind as int, 2, "ab") == SampleHeader(kind)
  {
    SmallWord(kind as int);
    SmallWord(2);
    hide WordBytes, BigEndian;
    assert Kept("ab") == ['a', 'b', 0 as char];
  }

  lemma ItemBytes()
    ensures EncodeData(SAMPLE_DATA) == SampleItems()
  {
    SmallWord(3);
    FloatBytes();
    hide WordBytes, BigEndian;
    var x, y := SAMPLE_DATA[0], SAMPLE_DATA[1];
    assert SAMPLE_DATA[1..] == [y] && [y][1..] == [];
    assert EncodeData([y]) == EncodeDatum(y) + [];
    assert EncodeData(SAMPLE_DATA) == EncodeDatum(x) + (EncodeDatum(y) + []);
  }

  lemma SmallWord(w: Word)
    requires w < 256
    ensures WordBytes(w) == [0 as char, 0 as char, 0 as char, w as char]
  {
    assert BigEndian(0, 1) == BigEndian(0, 0) + [0 as char] == [0 as char];
    assert BigEndian(0, 2) == BigEndian(0, 1) + [0 as char];
    assert BigEndian(0, 3) == BigEndian(0, 2) + [0 as char];
    assert w / 256 == 0 && w % 256 == w;
    assert BigEndian(w, 4) == BigEndian(0, 3) + [w as char];
  }

  lemma FloatBytes()
    ensures WordBytes(0x3FC0_0000) == [0x3F as char, 0xC0 as char, 0 as char, 0 as char]
  {
    assert BigEndian(0x3F, 1) == BigEndian(0, 0) + [0x3F as char] == [0x3F as char];
    assert BigEndian(0x3FC0, 2) == BigEndian(0x3F, 1) + [0xC0 as char];
    assert BigEndian(0x3FC000, 3) == BigEndian(0x3FC0, 2) + [0 as char];
    assert BigEndian(0x3FC00000, 4) == BigEndian(0x3FC000, 3) + [0 as char];
  }

  // ---- round trip ----

  lemma FloatRoundTrip(b: Bytes, p: nat, bits: Word)
    requires p + 5 <= |b| && b[p..p + 5] == EncodeDatum(Float(bits))
    ensures DecodeDatum(b, p) == Ok((Float(bits), p + 5))
  {
    hide WordAt, WordBytes, UpToNul;
    var e := EncodeDatum(Float(bits));
    assert b[p] == b[p..p + 5][0] == e[0];
    SliceOfSlice(b, p, p + 5, 1, 5);
    assert e[1..5] == WordBytes(bits);
    WordRoundTrip(bits, b, p + 1);
  }

  lemma StrRoundTrip(b: Bytes, p: nat, s: CStr)
    requires |s| < 0x8000_0000
    requires p + 5 + |s| <= |b| && b[p..p + 5 + |s|] == EncodeDatum(Str(s))
    ensures DecodeDatum(b, p) == Ok((Str(s), p + 5 + |s|))
  {
    hide WordAt, WordBytes, UpToNul;
    var e := EncodeDatum(Str(s));
    assert b[p] == b[p..p + |e|][0] == e[0];
    SliceOfSlice(b, p, p + |e|, 1, 5);
    assert e[1..5] == WordBytes(|s|);
    WordRoundTrip(|s|, b, p + 1);
    SliceOfSlice(b, p, p + |e|, 5, |e|);
    assert e[5..|e|] == s;
    assert p + 5 + |s| == p + |e|;
  }

  lemma DatumRoundTrip(b: Bytes, p: nat, d: Datum)
    requires d.Str? ==> |d.s| < 0x8000_0000
    requires p + |EncodeDatum(d)| <= |b| && b[p..p + |EncodeDatum(d)|] == EncodeDatum(d)
    ensures DecodeDatum(b, p) == Ok((d, p + |EncodeDatum(d)|))
  {
    hide WordAt, WordBytes, UpToNul, DecodeDatum;
    match d
    case Float(bits) => FloatRoundTrip(b, p, bits);
    case Str(s) => StrRoundTrip(b, p, s);
  }

  lemma {:induction false} DataRoundTrip(b: Bytes, p: nat, ds: Data)
    requires Fits(ds)
    requires p + |EncodeData(ds)| <= |b| && b[p..p + |EncodeData(ds)|] == EncodeData(ds)
    ensures DecodeData(b, p, |ds|) == Ok((ds, p + |EncodeData(ds)|))
    decreases ds
  {
    hide DecodeDatum, EncodeDatum;
    if ds != [] {
      var e, tail, all := EncodeDatum(ds[0]), EncodeData(ds[1..]), b[p..p + |EncodeData(ds)|];
      var q := p + |e|;
      SliceOfSlice(b, p, p + |all|, 0, |e|);
      SliceOfSlice(b, p, p + |all|, |e|, |all|);
      assert all[0..|e|] == e && all[|e|..|all|] == tail;
      DatumRoundTrip(b, p, ds[0]);
      DataRoundTrip(b, q, ds[1..]);
      assert [ds[0]] + ds[1..] == ds;
    }
  }

  lemma HeaderFields(kind: Word, name: Name, ds: Data)
    requires |ds| < WORDS
    ensures var b := Encode(kind, name, ds);
            && |b| >= 9 + |Kept(name)|
            && WordAt(b, 0) == kind && WordAt(b, 4) == |ds|
            && b[8] as int == |Kept(name)|
            && b[9..] == Kept(name) + EncodeData(ds)
  {
    hide EncodeData, WordBytes, WordAt, Kept;
    var b := Encode(kind, name, ds);
    assert b[0..4] == WordBytes(kind);
    assert b[4..8] == WordBytes(|ds|);
    WordRoundTrip(kind, b, 0);
    WordRoundTrip(|ds|, b, 4);
    assert b[9..] == Kept(name) + EncodeData(ds);
  }

  /** The name of an encoded packet is read back if and only if it is no longer than the
      limit, or what follows the part kept of it, the encoded data, happens to continue
      it. */
  lemma NameRestoredIff(kind: Word, name: Name, ds: Data)
    requires |ds| < WORDS
    ensures var b := Encode(kind, name, ds);
            |b| >= 9 && (NameOf(b) == name <==> |name| <= 128 || UpToNul(EncodeData(ds)) == name[129..])
  {
    HeaderFields(kind, name, ds);
    hide EncodeData, Encode, UpToNul, WordAt;
    var b := Encode(kind, name, ds);
    if |name| <= 128 {
      assert name <= b[9..] && b[9..][|name|] == NUL;
      UpToNulUnique(name, b[9..]);
    } else {
      UpToNulAppend(name[..129], EncodeData(ds));
      assert name == name[..129] + name[129..];
    }
  }

  /** A name that is not: 130 bytes, with a float whose tag ends the part kept. */
  lemma LongNameLost(kind: Word, bits: Word)
    ensures var name: Name := seq(130, _ => 'a');
            var b := Encode(kind, name, [Float(bits)]);
            |name| <= 128 + |EncodeData([Float(bits)])| && |b| >= 9 && NameOf(b) == name[..129]
  {
    var name: Name := seq(130, _ => 'a');
    var data := EncodeData([Float(bits)]);
    HeaderFields(kind, name, [Float(bits)]);
    UpToNulAppend(name[..129], data);
    assert UpToNul(data) == [];
    assert name[..129] + [] == name[..129];
  }

  /** Decoding an encoded packet gives back its data, and uses every byte of it, however
      long its name. */
  lemma DecodeEncode(kind: Word, name: Name, ds: Data)
    requires Fits(ds)
    ensures Decode(Encode(kind, name, ds)) == Ok((ds, |Encode(kind, name, ds)|))
  {
    hide EncodeData, DecodeData, Header, WordAt, NameOf, Kept;
    var h := Header(kind, |ds|, name);
    HeaderFields(kind, name, ds);
    var b := Encode(kind, name, ds);
    assert b[|h|..|b|] == EncodeData(ds);
    DataRoundTrip(b, |h|, ds);
  }

  /** So type, name and data can all be read back from a packet. */
  lemma RoundTrip(kind: Word, name: Name, ds: Data)
    requires |name| <= 128 && Fits(ds)
    ensures var b := Encode(kind, name, ds);
            && |b| >= 9
            && NameOf(b) == name
            && WordAt(b, 0) == kind
            && Decode(b) == Ok((ds, |b|))
  {
    hide Encode, Decode, WordAt, NameOf, UpToNul;
    HeaderFields(kind, name, ds);
    NameRestoredIff(kind, name, ds);
    DecodeEncode(kind, name, ds);
  }

  lemma EncodeInjective(k1: Word, n1: Name, d1: Data, k2: Word, n2: Name, d2: Data)
    requires |n1| <= 128 && Fits(d1) && |n2| <= 128 && Fits(d2)
    requires Encode(k1, n1, d1) == Encode(k2, n2, d2)
    ensures k1 == k2 && n1 == n2 && d1 == d2
  {
    RoundTrip(k1, n1, d1);
    RoundTrip(k2, n2, d2);
  }

  // ---- re-encoding ----

  /** No string item between `p` and the end of `count` items holds a terminator. */
  predicate Untruncated(b: Bytes, p: nat, count: nat)
    requires p <= |b|
    decreases count
  {
    count == 0 ||
    match DecodeDatum(b, p)
    case Err(_) => true
    case Ok((d, q)) => (b[p] == DT_STRING ==> NUL !in b[p + 5..q]) && Untruncated(b, q, count - 1)
  }

  lemma DatumReencode(b: Bytes, p: nat)
    requires p <= |b| && DecodeDatum(b, p).Ok?
    ensures var (d, q) := DecodeDatum(b, p).value;
            && |EncodeDatum(d)| <= q - p
            && (EncodeDatum(d) == b[p..q] <==> |EncodeDatum(d)| == q - p)
            && (|EncodeDatum(d)| == q - p <==> (b[p] == DT_STRING ==> NUL !in b[p + 5..q]))
  {
    hide WordBytes, WordAt, UpToNul;
    var (d, q) := DecodeDatum(b, p).value;
    BytesRoundTrip(b, p + 1);
    if b[p] == DT_STRING {
      var raw := b[p + 5..q];
      assert WordAt(b, p + 1) == |raw|;
      if NUL !in raw {
        assert d == Str(raw);
        SliceOfSlice(b, p, q, 0, 5);
        assert b[p..p + 5] == [b[p]] + b[p + 1..p + 5];
        assert b[p..q] == b[p..p + 5] + raw;
      } else {
        assert |EncodeDatum(d)| < q - p;
      }
    } else {
      assert b[p..q] == [b[p]] + b[p + 1..q];
    }
  }

  lemma {:induction false} DataReencode(b: Bytes, p: nat, count: nat)
    requires p <= |b| && DecodeData(b, p, count).Ok?
    ensures var (ds, end) := DecodeData(b, p, count).value;
            && |EncodeData(ds)| <= end - p
            && (|EncodeData(ds)| == end - p <==> Untruncated(b, p, count))
            && (Untruncated(b, p, count) ==> EncodeData(ds) == b[p..end])
    decreases count
  {
    hide DecodeDatum, EncodeDatum;
    if count > 0 {
      var (d, q) := DecodeDatum(b, p).value;
      DatumReencode(b, p);
      DataReencode(b, q, count - 1);
      var (ds, end) := DecodeData(b, p, count).value;
      var (rest, _) := DecodeData(b, q, count - 1).value;
      assert ds == [d] + rest;
      assert ds[1..] == rest;
      if Untruncated(b, p, count) {
        assert b[p..q] + b[q..end] == b[p..end];
      }
    }
  }

  /** The packet is laid out the way `Encode` lays packets out. */
  predicate Canonical(b: Bytes)
    requires Decode(b).Ok?
  {
    && b[8] as int == |NameOf(b)| + 1
    && Decode(b).value.1 == |b|
    && Untruncated(b, 9 + b[8] as int, WordAt(b, 4))
  }

  lemma CanonicalReencodes(b: Bytes, kind: Word)
    requires Decode(b).Ok? && Canonical(b) && NUL in b[9..] && |NameOf(b)| <= 128
    ensures Encode(kind, NameOf(b), Decode(b).value.0) == Retyped(b, kind)
  {
    hide EncodeData, DecodeData, WordAt, WordBytes, UpToNul, Untruncated;
    var name := NameOf(b);
    var ds := Decode(b).value.0;
    var start := 9 + b[8] as int;
    DataReencode(b, start, WordAt(b, 4));
    BytesRoundTrip(b, 4);
    assert b[9..][|name|] == b[9 + |name|] == NUL;
    assert name == b[9..9 + |name|];
    assert Kept(name) == b[9..start];
    hide Kept, NameOf;
    assert b[4..] == b[4..8] + [b[8]] + b[9..start] + b[start..];
  }

  lemma ReencodedIsCanonical(b: Bytes, kind: Word)
    requires Decode(b).Ok? && |NameOf(b)| <= 128
    requires Encode(kind, NameOf(b), Decode(b).value.0) == Retyped(b, kind)
    ensures Canonical(b)
  {
    hide EncodeData, DecodeData, WordAt, WordBytes, UpToNul, Untruncated, NameOf;
    var name := NameOf(b);
    var ds := Decode(b).value.0;
    var h := Header(kind, |ds|, name);
    assert h[8] as int == |name| + 1;
    assert Retyped(b, kind)[8] == b[8];
    DataReencode(b, 9 + b[8] as int, WordAt(b, 4));
  }

  /** A decodable packet is re-encoded, as a notification, to the very bytes that
      overwriting its type word gives, if and only if its name-length byte counts the
      name and its terminator, nothing follows its last item, and no string in it holds
      a terminator. */
  lemma ReencodeIff(b: Bytes)
    requires Decode(b).Ok? && NUL in b[9..] && |NameOf(b)| <= 128
    ensures Canonical(b) <==> Retyped(b, SC_NOTIFY) == Encode(SC_NOTIFY, NameOf(b), Decode(b).value.0)
  {
    hide Encode, Retyped, Decode, Canonical;
    if Canonical(b) {
      CanonicalReencodes(b, SC_NOTIFY);
    }
    if Encode(SC_NOTIFY, NameOf(b), Decode(b).value.0) == Retyped(b, SC_NOTIFY) {
      ReencodedIsCanonical(b, SC_NOTIFY);
    }
  }

  lemma RetypedEncode(from: Word, to: Word, name: Name, ds: Data)
    ensures |Encode(from, name, ds)| >= 9
    ensures Retyped(Encode(from, name, ds), to) == Encode(to, name, ds)
  {
    hide EncodeData, WordBytes, Kept;
    var h := Header(from, |ds|, name);
    assert h[4..] == Header(to, |ds|, name)[4..];
    assert Encode(from, name, ds)[4..] == h[4..] + EncodeData(ds);
  }

  // ---- what a reader makes of a packet ----

  /** `b` is a packet of this type, however it is laid out, in which `getNameFromMsg` and
      `fromMessage` find this name and these items. */
  predicate Reads(b: Bytes, kind: Word, name: Name, ds: Data) {
    && |b| >= 9 && WordAt(b, 0) == kind
    && NUL in b[9..] && NameOf(b) == name
    && Decode(b).Ok? && Decode(b).value.0 == ds
  }

  lemma ReadsFits(b: Bytes, kind: Word, name: Name, ds: Data)
    requires Reads(b, kind, name, ds) && |b| < WORDS
    ensures Fits(ds)
  {
    hide WordAt, NameOf, DecodeData;
    DecodedFits(b, 9 + b[8] as int, WordAt(b, 4));
    forall d | d in ds ensures d.Str? ==> |d.s| < 0x8000_0000 {
      var i :| 0 <= i < |ds| && ds[i] == d;
    }
  }

  lemma EncodeReads(kind: Word, name: Name, ds: Data)
    requires |name| <= 128 && Fits(ds)
    ensures Reads(Encode(kind, name, ds), kind, name, ds)
  {
    hide Encode, Decode, WordAt, NameOf;
    RoundTrip(kind, name, ds);
    HeaderFields(kind, name, ds);
    var b := Encode(kind, name, ds);
    assert b[9..][|name|] == NUL;
  }

  lemma DatumSameTail(b: Bytes, c: Bytes, p: nat)
    requires |b| == |c| && 4 <= p <= |b| && b[4..] == c[4..]
    ensures DecodeDatum(b, p) == DecodeDatum(c, p)
  {
    hide Value, UpToNul;
    forall i, j | 4 <= i <= j <= |b| ensures b[i..j] == c[i..j] {
      SliceOfSlice(b, 4, |b|, i - 4, j - 4);
      SliceOfSlice(c, 4, |c|, i - 4, j - 4);
      assert b[4..|b|] == b[4..] && c[4..|c|] == c[4..];
    }
    if p < |b| {
      assert b[p] == b[4..][p - 4] == c[p];
    }
  }

  lemma {:induction false} DataSameTail(b: Bytes, c: Bytes, p: nat, count: nat)
    requires |b| == |c| && 4 <= p <= |b| && b[4..] == c[4..]
    ensures DecodeData(b, p, count) == DecodeData(c, p, count)
    decreases count
  {
    hide DecodeDatum;
    if count > 0 {
      DatumSameTail(b, c, p);
      if DecodeDatum(b, p).Ok? {
        DataSameTail(b, c, DecodeDatum(b, p).value.1, count - 1);
      }
    }
  }

  /** Overwriting the type word changes nothing else that a reader finds. */
  lemma RetypedReads(b: Bytes, from: Word, to: Word, name: Name, ds: Data)
    requires Reads(b, from, name, ds)
    ensures Reads(Retyped(b, to), to, name, ds)
  {
    hide WordBytes, Value, UpToNul, DecodeData;
    var c := Retyped(b, to);
    assert c[0..4] == WordBytes(to) && c[4..] == b[4..];
    hide Retyped;
    WordRoundTrip(to, c, 0);
    SliceOfSlice(b, 4, |b|, 0, 4);
    SliceOfSlice(c, 4, |c|, 0, 4);
    assert b[4..|b|] == b[4..] && c[4..|c|] == c[4..];
    assert b[4..8] == c[4..8];
    assert b[4..][4] == c[4..][4];
    assert b[4..][5..] == b[9..] && c[4..][5..] == c[9..];
    DataSameTail(b, c, 9 + b[8] as int, WordAt(b, 4));
  }

  /** What live subscribers are sent, the publisher's packet with its type overwritten,
      and what a later subscriber is sent, the stored topic encoded anew, are the same
      bytes. */
  lemma LiveEqualsRetained(name: Name, ds: Data)
    requires |name| <= 128 && Fits(ds)
    ensures var b := Encode(CS_PUBLISH, name, ds);
            && |b| >= 9 && Decode(b).Ok? && NameOf(b) == name
            && Retyped(b, SC_NOTIFY) == Encode(SC_NOTIFY, NameOf(b), Decode(b).value.0)
  {
    hide Encode, Retyped, Decode, NameOf;
    RoundTrip(CS_PUBLISH, name, ds);
    RetypedEncode(CS_PUBLISH, SC_NOTIFY, name, ds);
  }
}
