// Shared vocabulary: bytes, C strings, data items, the constants of the protocol.
module Types {

  const WORDS := 0x1_0000_0000

  /** An unsigned 32-bit word; a float is carried as its opaque bit pattern. */
  type Word = w: int | 0 <= w < 0x1_0000_0000

  /** A byte. */
  type Octet = c: char | c as int < 256

  type Bytes = seq<Octet>

  const NUL: Octet := '\0'

  /** What a `char *` to a terminated string denotes: bytes before the terminator. */
  type CStr = s: Bytes | NUL !in s

  type Name = CStr

  type Fd = int

  datatype Option<+T> = None | Some(value: T)

  datatype Result<+T, +E> = Ok(value: T) | Err(error: E)

  datatype Datum = Float(bits: Word) | Str(s: CStr)

  type Data = seq<Datum>

  // Message types of messages.h, and the datum tags of diamondapparatus.h.
  const CS_PUBLISH: Word := 1
  const CS_SUBSCRIBE: Word := 2
  const CS_KILLSERVER: Word := 3
  const CS_CLEARSERVER: Word := 4
  const SC_NOTIFY: Word := 20
  const SC_KILLCLIENT: Word := 30
  const DT_FLOAT: Octet := 0 as char
  const DT_STRING: Octet := 1 as char

  /** Bytes in a StrMsg's text field, and in the whole message. */
  const STR_FIELD := 256

  // Names of the topics the broker itself maintains.
  const STATS: Name := "stats"
  const TOPICS: Name := "topics"
  const VERSION_TOPIC: Name := "version"
  const VERSION: CStr := "1.1.2"
  const VERSION_NAME: CStr := "YELLOW ACKNOWLEDGEMENT"

  /** What a client asks of the broker; `Other` is a packet of a type the broker ignores. */
  datatype Request =
    | Publish(name: Name, data: Data)
    | Subscribe(name: Name)
    | KillServer
    | ClearServer
    | Other(kind: Word)

  /** What the broker sends to a client. */
  datatype Reply = Notify(name: Name, data: Data) | KillClient

  /** The bytes up to, and without, the first terminator. */
  function UpToNul(b: Bytes): (s: CStr)
    ensures s <= b
    ensures NUL !in b ==> s == b
    ensures NUL in b ==> |s| < |b| && b[|s|] == NUL
  {
    if b == [] || b[0] == NUL then []
    else
      var t := UpToNul(b[1..]);
      assert b == [b[0]] + b[1..];
      [b[0]] + t
  }

  lemma UpToNulUnique(s: CStr, b: Bytes)
    requires s <= b && |s| < |b| && b[|s|] == NUL
    ensures UpToNul(b) == s
  {
    assert b[|s|] in b;
  }

  lemma {:induction false} UpToNulAppend(s: CStr, b: Bytes)
    ensures UpToNul(s + b) == s + UpToNul(b)
  {
    if s == [] {
      assert s + b == b;
    } else {
      assert (s + b)[1..] == s[1..] + b && (s + b)[0] == s[0];
      UpToNulAppend(s[1..], b);
      assert s == [s[0]] + s[1..];
      ConcatAssoc([s[0]], s[1..], UpToNul(b));
    }
  }

  lemma SliceOfSlice<T>(b: seq<T>, p: nat, q: nat, i: nat, j: nat)
    requires p <= q <= |b| && i <= j <= q - p
    ensures b[p..q][i..j] == b[p + i..p + j]
  {
    var inner, left, right := b[p..q], b[p..q][i..j], b[p + i..p + j];
    forall k | 0 <= k < j - i ensures left[k] == right[k] {
      assert left[k] == inner[i + k] == b[p + i + k];
    }
  }

  lemma ConcatAssoc<T>(a: seq<T>, b: seq<T>, c: seq<T>)
    ensures a + (b + c) == a + b + c
  {}
}
