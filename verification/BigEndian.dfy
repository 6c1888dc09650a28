/** Big-endian byte strings and the numbers they stand for. */
module BigEndian {

  datatype Nibble = D0 | D1 | D2 | D3 | D4 | D5 | D6 | D7 | D8 | D9 | DA | DB | DC | DD | DE | DF
  datatype Byte = Byte(high: Nibble, low: Nibble)

  function NibbleValue(d: Nibble): (x: int)
    ensures 0 <= x < 16
  {
    match d
    case D0 => 0
    case D1 => 1
    case D2 => 2
    case D3 => 3
    case D4 => 4
    case D5 => 5
    case D6 => 6
    case D7 => 7
    case D8 => 8
    case D9 => 9
    case DA => 10
    case DB => 11
    case DC => 12
    case DD => 13
    case DE => 14
    case DF => 15
  }

  function NibbleOf(x: int): (d: Nibble)
    requires 0 <= x < 16
    ensures NibbleValue(d) == x
  {
    if x == 0 then D0
    else if x == 1 then D1
    else if x == 2 then D2
    else if x == 3 then D3
    else if x == 4 then D4
    else if x == 5 then D5
    else if x == 6 then D6
    else if x == 7 then D7
    else if x == 8 then D8
    else if x == 9 then D9
    else if x == 10 then DA
    else if x == 11 then DB
    else if x == 12 then DC
    else if x == 13 then DD
    else if x == 14 then DE
    else DF
  }

  function ByteValue(b: Byte): (x: int)
    ensures 0 <= x < 256
  {
    16 * NibbleValue(b.high) + NibbleValue(b.low)
  }

  function ByteOf(x: int): (b: Byte)
    requires 0 <= x < 256
    ensures ByteValue(b) == x
  {
    Byte(NibbleOf(x / 16), NibbleOf(x % 16))
  }

  lemma NibbleRoundTrip(d: Nibble)
    ensures NibbleOf(NibbleValue(d)) == d
  {
  }

  lemma ByteRoundTrip(b: Byte)
    ensures ByteOf(ByteValue(b)) == b
  {
    NibbleRoundTrip(b.high);
    NibbleRoundTrip(b.low);
  }

  const ZERO_BYTE := Byte(D0, D0)

  /** The n lowest bytes of v, most significant first. */
  function ToBigEndian(v: nat, n: nat): (r: seq<Byte>)
    ensures |r| == n
  {
    if n == 0 then [] else ToBigEndian(v / 256, n - 1) + [ByteOf(v % 256)]
  }

  function FromBigEndian(bytes: seq<Byte>): nat
  {
    if bytes == [] then 0
    else 256 * FromBigEndian(bytes[..|bytes| - 1]) + ByteValue(bytes[|bytes| - 1])
  }

  function Pow256(n: nat): (r: nat)
    ensures r > 0
  {
    if n == 0 then 1 else 256 * Pow256(n - 1)
  }

  lemma {:induction false} BytesOfWord(v: nat, n: nat)
    requires v < Pow256(n)
    ensures FromBigEndian(ToBigEndian(v, n)) == v
  {
    if n != 0 {
      BytesOfWord(v / 256, n - 1);
      var bytes := ToBigEndian(v, n);
      assert bytes[..n - 1] == ToBigEndian(v / 256, n - 1);
    }
  }

  lemma SplitLowByte(high: nat, low: nat)
    requires low < 256
    ensures (256 * high + low) / 256 == high && (256 * high + low) % 256 == low
  {
  }

  lemma {:induction false} WordOfBytes(bytes: seq<Byte>)
    ensures FromBigEndian(bytes) < Pow256(|bytes|)
    ensures ToBigEndian(FromBigEndian(bytes), |bytes|) == bytes
  {
    if bytes != [] {
      var front, low := bytes[..|bytes| - 1], bytes[|bytes| - 1];
      WordOfBytes(front);
      ByteRoundTrip(low);
      SplitLowByte(FromBigEndian(front), ByteValue(low));
      assert bytes == front + [low];
    }
  }

  lemma {:induction false} Pow256Double(n: nat, p: nat)
    requires Pow256(n) == p
    ensures Pow256(2 * n) == p * p
  {
    Pow256Sum(n, n);
  }

  lemma {:induction false} Pow256Sum(m: nat, n: nat)
    ensures Pow256(m + n) == Pow256(m) * Pow256(n)
  {
    if m != 0 {
      Pow256Sum(m - 1, n);
      assert Pow256(m + n) == 256 * Pow256(m + n - 1);
      assert 256 * (Pow256(m - 1) * Pow256(n)) == (256 * Pow256(m - 1)) * Pow256(n);
    }
  }
}
