/** The length-prefixed encoding that pairing transcripts are built from
    (shared/security/src/pairing.cpp). */
module Encoding {

  newtype byte = x: int | 0 <= x < 256

  type Bytes = seq<byte>

  const LIMIT: nat := 0x1_0000_0000

  function Pow256(n: nat): (p: nat)
    ensures p > 0
  {
    if n == 0 then 1 else 256 * Pow256(n - 1)
  }

  /** The four low-order bytes of a length, least significant first. */
  function Prefix(n: nat): (p: Bytes)
    ensures |p| == 4
  {
    [(n % 256) as byte, (n / 256 % 256) as byte, (n / 65536 % 256) as byte, (n / 16777216 % 256) as byte]
  }

  function Field(data: Bytes): (f: Bytes)
    ensures |f| == 4 + |data|
  {
    Prefix(|data|) + data
  }

  /** The fields appended so far, the latest outermost. */
  datatype Fields = Start | And(front: Fields, last: Bytes) {
    predicate Encodable() {
      And? ==> |last| < 0x1_0000_0000 && front.Encodable()
    }

    function Count(): nat {
      if Start? then 0 else front.Count() + 1
    }
  }

  function Encode(fields: Fields): Bytes {
    match fields
    case Start => []
    case And(front, last) => Encode(front) + Field(last)
  }

  lemma PrefixValue(n: nat)
    requires n < LIMIT
    ensures var p := Prefix(n);
      n == p[0] as int + 256 * p[1] as int + 65536 * p[2] as int + 16777216 * p[3] as int
  {
  }

  // ---------------------------------------------------------------- injectivity

  /** The same fields read from the front, as they must be decoded. */
  function Listed(fields: Fields, rest: seq<Bytes>): seq<Bytes> {
    match fields
    case Start => rest
    case And(front, last) => Listed(front, [last] + rest)
  }

  function EncodeList(list: seq<Bytes>): Bytes {
    if list == [] then [] else Field(list[0]) + EncodeList(list[1..])
  }

  lemma {:induction false} EncodeListed(fields: Fields, rest: seq<Bytes>)
    ensures Encode(fields) + EncodeList(rest) == EncodeList(Listed(fields, rest))
  {
    if fields.And? {
      EncodeListed(fields.front, [fields.last] + rest);
      assert EncodeList([fields.last] + rest) == Field(fields.last) + EncodeList(rest) by {
        assert ([fields.last] + rest)[1..] == rest;
      }
    }
  }

  lemma {:induction false} ListedKeeps(fields: Fields, rest: seq<Bytes>)
    requires fields.Encodable() && forall i | 0 <= i < |rest| :: |rest[i]| < LIMIT
    ensures forall i | 0 <= i < |Listed(fields, rest)| :: |Listed(fields, rest)[i]| < LIMIT
    ensures |Listed(fields, rest)| == fields.Count() + |rest|
  {
    if fields.And? {
      ListedKeeps(fields.front, [fields.last] + rest);
    }
  }

  lemma {:induction false} ListedInjective(a: Fields, b: Fields, x: seq<Bytes>, y: seq<Bytes>)
    requires |x| == |y| && a.Count() == b.Count() && Listed(a, x) == Listed(b, y)
    ensures a == b && x == y
  {
    if a.And? {
      ListedInjective(a.front, b.front, [a.last] + x, [b.last] + y);
      assert ([a.last] + x)[0] == ([b.last] + y)[0];
      assert ([a.last] + x)[1..] == x && ([b.last] + y)[1..] == y;
    }
  }

  lemma EncodeHead(list: seq<Bytes>)
    requires list != [] && |list[0]| < LIMIT
    ensures |EncodeList(list)| >= 4 + |list[0]|
    ensures EncodeList(list)[..4] == Prefix(|list[0]|)
    ensures EncodeList(list)[4..4 + |list[0]|] == list[0]
    ensures EncodeList(list)[4 + |list[0]|..] == EncodeList(list[1..])
  {
  }

  lemma {:induction false} ListInjective(a: seq<Bytes>, b: seq<Bytes>)
    requires forall i | 0 <= i < |a| :: |a[i]| < LIMIT
    requires forall i | 0 <= i < |b| :: |b[i]| < LIMIT
    requires EncodeList(a) == EncodeList(b)
    ensures a == b
  {
    if a != [] && b != [] {
      EncodeHead(a);
      EncodeHead(b);
      PrefixValue(|a[0]|);
      PrefixValue(|b[0]|);
      assert |a[0]| == |b[0]|;
      ListInjective(a[1..], b[1..]);
      assert a == [a[0]] + a[1..] && b == [b[0]] + b[1..];
    } else if a != [] {
      EncodeHead(a);
    } else if b != [] {
      EncodeHead(b);
    }
  }

  /** No two lists of fields serialise to the same bytes. */
  lemma EncodeInjective(a: Fields, b: Fields)
    requires a.Encodable() && b.Encodable()
    requires Encode(a) == Encode(b)
    ensures a == b
  {
    EncodeListed(a, []);
    EncodeListed(b, []);
    ListedKeeps(a, []);
    ListedKeeps(b, []);
    ListInjective(Listed(a, []), Listed(b, []));
    ListedInjective(a, b, [], []);
  }

  /** The bound on field lengths is tight: one field of 2^32 bytes wraps its prefix to zero
      and reads as an empty field followed by another one. */
  lemma LimitIsTight(b: byte)
    ensures var inner := seq(0x1_0000_0000 - 4, _ => b);
      Encode(And(Start, Field(inner))) == Encode(And(And(Start, []), inner))
  {
    assert Prefix(LIMIT) == Prefix(0);
  }

  // ---------------------------------------------------------------- appending

  lemma PrefixShifts(n: nat)
    ensures Prefix(n) == seq(4, i requires 0 <= i < 4 => (n / Pow256(i) % 256) as byte)
  {
    assert Pow256(0) == 1 && Pow256(1) == 256 && Pow256(2) == 65536 && Pow256(3) == 16777216;
  }

  /** The appending helper, byte by byte: one more field. */
  method AppendLengthPrefixed(out: Bytes, data: Bytes) returns (extended: Bytes)
    ensures extended == out + Field(data)
    ensures forall f: Fields | Encode(f) == out :: Encode(And(f, data)) == extended
  {
    extended := out;
    for i := 0 to 4
      invariant extended == out + Prefix(|data|)[..i]
    {
      PrefixShifts(|data|);
      extended := extended + [(|data| / Pow256(i) % 256) as byte];
    }
    extended := extended + data;
  }
}
