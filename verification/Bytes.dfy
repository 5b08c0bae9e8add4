/** Bytes, the integers and characters they encode, and readers of bytes. */
module Bytes {
  import opened Wrappers
  import RowMajor

  newtype byte = x: int | 0 <= x < 256

  datatype Endianness = LittleEndian | BigEndian

  function Pow256(k: nat): nat {
    if k == 0 then 1 else 256 * Pow256(k - 1)
  }

  /** The `k` low bytes of a number. */
  function ToBytes(e: Endianness, n: nat, k: nat): (r: seq<byte>)
    ensures |r| == k
  {
    if k == 0 then []
    else
      match e
      case LittleEndian => [(n % 256) as byte] + ToBytes(e, n / 256, k - 1)
      case BigEndian => ToBytes(e, n / 256, k - 1) + [(n % 256) as byte]
  }

  function FromBytes(e: Endianness, bytes: seq<byte>): nat {
    if bytes == [] then 0
    else
      match e
      case LittleEndian => bytes[0] as nat + 256 * FromBytes(e, bytes[1..])
      case BigEndian => bytes[|bytes| - 1] as nat + 256 * FromBytes(e, bytes[..|bytes| - 1])
  }

  lemma {:induction false} BytesRoundTrip(e: Endianness, n: nat, k: nat)
    requires n < Pow256(k)
    ensures FromBytes(e, ToBytes(e, n, k)) == n
  {
    if k > 0 {
      BytesRoundTrip(e, n / 256, k - 1);
      var low, high := (n % 256) as byte, ToBytes(e, n / 256, k - 1);
      assert ([low] + high)[1..] == high && (high + [low])[..k - 1] == high;
    }
  }

  lemma {:induction false} FromBytesIsBelow(e: Endianness, bytes: seq<byte>)
    ensures FromBytes(e, bytes) < Pow256(|bytes|)
  {
    if bytes != [] {
      match e
      case LittleEndian => FromBytesIsBelow(e, bytes[1..]);
      case BigEndian => FromBytesIsBelow(e, bytes[..|bytes| - 1]);
    }
  }

  /** A 32-bit signed integer, in two's complement. */
  predicate IsI32(v: int) {
    -0x8000_0000 <= v < 0x8000_0000
  }

  function I32ToBytes(e: Endianness, v: int): (r: seq<byte>)
    requires IsI32(v)
    ensures |r| == 4
  {
    ToBytes(e, if v < 0 then v + 0x1_0000_0000 else v, 4)
  }

  function I32FromBytes(e: Endianness, bytes: seq<byte>): int {
    var n := FromBytes(e, bytes);
    if n >= 0x8000_0000 then n - 0x1_0000_0000 else n
  }

  lemma PowersOf256()
    ensures Pow256(2) == 0x1_0000 && Pow256(4) == 0x1_0000_0000 && Pow256(8) == 0x1_0000_0000_0000_0000
  {
    assert Pow256(1) == 256;
    assert Pow256(3) == 0x100_0000;
    assert Pow256(5) == 0x100_0000_0000 && Pow256(6) == 0x1_0000_0000_0000 && Pow256(7) == 0x100_0000_0000_0000;
  }

  lemma I32RoundTrip(e: Endianness, v: int)
    requires IsI32(v)
    ensures I32FromBytes(e, I32ToBytes(e, v)) == v
  {
    PowersOf256();
    BytesRoundTrip(e, if v < 0 then v + 0x1_0000_0000 else v, 4);
  }

  /** Four bytes always hold such an integer. */
  lemma FourBytesAreI32(e: Endianness, bytes: seq<byte>)
    requires |bytes| == 4
    ensures IsI32(I32FromBytes(e, bytes))
  {
    PowersOf256();
    FromBytesIsBelow(e, bytes);
  }

  lemma DivideTwice(n: nat, p: nat)
    requires p > 0
    ensures n / 256 / p == n / (256 * p)
  {
    var q, r := n / 256 / p, n / 256 % p;
    assert n / 256 == q * p + r by {
      assert n / 256 == p * (n / 256 / p) + n / 256 % p;
    }
    assert n == q * (256 * p) + (256 * r + n % 256) by {
      assert n == 256 * (q * p + r) + n % 256;
      assert 256 * (q * p) == q * (256 * p);
    }
    assert 256 * r + n % 256 < 256 * p;
    RowMajor.DivMod(q, 256 * p, 256 * r + n % 256);
  }

  /** The lowest byte comes first in one order, and last in the other. */
  lemma {:induction false} ByteOfNumber(n: nat, k: nat, i: nat)
    requires i < k
    ensures Pow256(i) > 0 && ToBytes(LittleEndian, n, k)[i] as nat == n / Pow256(i) % 256
    ensures ToBytes(BigEndian, n, k)[k - 1 - i] as nat == n / Pow256(i) % 256
  {
    if i > 0 {
      ByteOfNumber(n / 256, k - 1, i - 1);
      DivideTwice(n, Pow256(i - 1));
    }
  }

  function Reversed(bytes: seq<byte>): (r: seq<byte>)
    ensures |r| == |bytes| && forall i :: 0 <= i < |r| ==> r[i] == bytes[|bytes| - 1 - i]
  {
    seq(|bytes|, i requires 0 <= i < |bytes| => bytes[|bytes| - 1 - i])
  }

  /** The bytes with their weights, up to the given one. */
  function WeightedSum(bytes: seq<byte>, k: nat): nat
    requires k <= |bytes|
  {
    if k == 0 then 0 else WeightedSum(bytes, k - 1) + bytes[k - 1] as nat * Pow256(k - 1)
  }

  lemma {:induction false} SumOfRest(bytes: seq<byte>, k: nat)
    requires 0 < k <= |bytes|
    ensures WeightedSum(bytes, k) == bytes[0] as nat + 256 * WeightedSum(bytes[1..], k - 1)
  {
    if k > 1 {
      SumOfRest(bytes, k - 1);
      var b, p := bytes[k - 1] as nat, Pow256(k - 2);
      assert bytes[1..][k - 2] == bytes[k - 1];
      assert b * (256 * p) == 256 * (b * p);
    } else {
      assert Pow256(0) == 1 && WeightedSum(bytes, 0) == 0 && WeightedSum(bytes[1..], 0) == 0;
    }
  }

  /** What bytes stand for: byte `i` weighs 256 to the power of `i`, counted from
      the front or from the back. */
  lemma {:induction false} NumberOfBytes(bytes: seq<byte>)
    ensures FromBytes(LittleEndian, bytes) == WeightedSum(bytes, |bytes|)
    ensures FromBytes(BigEndian, bytes) == WeightedSum(Reversed(bytes), |bytes|)
  {
    if bytes != [] {
      var n := |bytes| - 1;
      NumberOfBytes(bytes[1..]);
      NumberOfBytes(bytes[..n]);
      SumOfRest(bytes, |bytes|);
      SumOfRest(Reversed(bytes), |bytes|);
      assert Reversed(bytes)[1..] == Reversed(bytes[..n]);
    }
  }

  /** The number in four bytes, with the lowest one first. */
  function LowestFirst4(b: seq<byte>): nat
    requires |b| == 4
  {
    b[0] as nat + 0x100 * b[1] as nat + 0x1_0000 * b[2] as nat + 0x100_0000 * b[3] as nat
  }

  /** The number in eight bytes, with the lowest one first. */
  function LowestFirst8(b: seq<byte>): nat
    requires |b| == 8
  {
    LowestFirst4(b[..4]) + 0x1_0000_0000 * LowestFirst4(b[4..])
  }

  lemma TimesPower(x: nat, p: nat)
    ensures x * (0x1_0000_0000 * p) == 0x1_0000_0000 * (x * p)
  {}

  lemma {:induction false} SumAppend(a: seq<byte>, b: seq<byte>, k: nat)
    requires |a| == 4 && k <= |b|
    ensures WeightedSum(a + b, 4 + k) == WeightedSum(a, 4) + 0x1_0000_0000 * WeightedSum(b, k)
  {
    if k == 0 {
      SumsOf4(a + b);
      SumsOf4(a);
      assert WeightedSum(b, 0) == 0;
    } else {
      SumAppend(a, b, k - 1);
      PowerAppend(k - 1);
      assert (a + b)[3 + k] == b[k - 1];
      TimesPower(b[k - 1] as nat, Pow256(k - 1));
    }
  }

  lemma {:induction false} PowerAppend(k: nat)
    ensures Pow256(4 + k) == 0x1_0000_0000 * Pow256(k)
  {
    if k == 0 {
      PowersOf256();
    } else {
      PowerAppend(k - 1);
    }
  }

  lemma SumsOf4(b: seq<byte>)
    requires |b| >= 4
    ensures WeightedSum(b, 4) == LowestFirst4(b[..4])
  {
    PowersOf256();
    assert Pow256(0) == 1 && Pow256(1) == 0x100 && Pow256(3) == 0x100_0000;
    assert WeightedSum(b, 0) == 0;
    assert WeightedSum(b, 1) == b[0] as nat;
    assert WeightedSum(b, 2) == b[0] as nat + b[1] as nat * 0x100;
    assert WeightedSum(b, 3) == WeightedSum(b, 2) + b[2] as nat * 0x1_0000;
  }

  /** Four bytes in either order. */
  lemma FourBytes(b: seq<byte>)
    requires |b| == 4
    ensures FromBytes(LittleEndian, b) == LowestFirst4(b)
    ensures FromBytes(BigEndian, b) == LowestFirst4(Reversed(b))
  {
    NumberOfBytes(b);
    SumsOf4(b);
    SumsOf4(Reversed(b));
    assert b[..4] == b && Reversed(b)[..4] == Reversed(b);
  }

  /** Eight bytes in either order. */
  lemma EightBytes(b: seq<byte>)
    requires |b| == 8
    ensures FromBytes(LittleEndian, b) == LowestFirst8(b)
    ensures FromBytes(BigEndian, b) == LowestFirst8(Reversed(b))
  {
    NumberOfBytes(b);
    SumOf8(b);
    SumOf8(Reversed(b));
  }

  lemma SumOf8(b: seq<byte>)
    requires |b| == 8
    ensures WeightedSum(b, 8) == LowestFirst8(b)
  {
    hide WeightedSum;
    var low, high := b[..4], b[4..];
    assert b == low + high;
    SumAppend(low, high, 4);
    SumsOf4(low);
    SumsOf4(high);
    assert low[..4] == low && high[..4] == high;
  }

  /** A 32-bit two's complement integer from its four bytes. */
  function Signed32(n: nat): int {
    if n >= 0x8000_0000 then n - 0x1_0000_0000 else n
  }

  /** A signed integer in four bytes of either order. */
  lemma SignedFourBytes(b: seq<byte>)
    requires |b| == 4
    ensures I32FromBytes(LittleEndian, b) == Signed32(LowestFirst4(b))
    ensures I32FromBytes(BigEndian, b) == Signed32(LowestFirst4(Reversed(b)))
  {
    FourBytes(b);
  }

  /** Pieces of bytes, one after the other. */
  function Joined(pieces: seq<seq<byte>>): seq<byte> {
    if pieces == [] then [] else Joined(pieces[..|pieces| - 1]) + pieces[|pieces| - 1]
  }

  ghost predicate OfLength(pieces: seq<seq<byte>>, size: nat) {
    forall i :: 0 <= i < |pieces| ==> |pieces[i]| == size
  }

  lemma JoinedNothing()
    ensures Joined([]) == []
  {}

  lemma JoinedAppend(pieces: seq<seq<byte>>, piece: seq<byte>)
    ensures Joined(pieces + [piece]) == Joined(pieces) + piece
  {
    assert (pieces + [piece])[..|pieces|] == pieces;
  }

  lemma {:induction false} JoinedLength(pieces: seq<seq<byte>>, size: nat)
    requires OfLength(pieces, size)
    ensures |Joined(pieces)| == |pieces| * size
  {
    if pieces != [] {
      var n := |pieces| - 1;
      JoinedLength(pieces[..n], size);
      OneMoreTime(n, size);
    }
  }

  lemma OneMoreTime(n: nat, size: nat)
    ensures (n + 1) * size == n * size + size
  {}

  /** Piece `i` of equally long pieces. */
  function Slice(bytes: seq<byte>, size: nat, i: nat): seq<byte> {
    var start := i * size;
    if start + size <= |bytes| then bytes[start..start + size] else []
  }

  lemma {:induction false} SliceOfJoined(pieces: seq<seq<byte>>, size: nat, i: nat)
    requires OfLength(pieces, size) && i < |pieces|
    ensures Slice(Joined(pieces), size, i) == pieces[i]
  {
    var n := |pieces| - 1;
    JoinedLength(pieces, size);
    JoinedLength(pieces[..n], size);
    if i < n {
      SliceOfJoined(pieces[..n], size, i);
      SliceFits(i, n, size);
    }
  }

  lemma SliceFits(i: nat, n: nat, size: nat)
    requires i < n
    ensures i * size + size <= n * size
  {
    assert n * size == i * size + size + (n - i - 1) * size;
  }

  /** One character in UTF-8. */
  function EncodeChar(c: char): (r: seq<byte>)
    ensures c as int < 0x80 ==> r == [c as int as byte]
    ensures c as int >= 0x80 ==> r != [] && r[0] >= 0x80
  {
    var n := c as int;
    if n < 0x80 then [n as byte]
    else if n < 0x800 then [(0xC0 + n / 0x40) as byte, (0x80 + n % 0x40) as byte]
    else if n < 0x1_0000 then [(0xE0 + n / 0x1000) as byte, (0x80 + n / 0x40 % 0x40) as byte, (0x80 + n % 0x40) as byte]
    else [(0xF0 + n / 0x4_0000) as byte, (0x80 + n / 0x1000 % 0x40) as byte, (0x80 + n / 0x40 % 0x40) as byte, (0x80 + n % 0x40) as byte]
  }

  function EncodeUtf8(s: string): seq<byte> {
    if s == [] then [] else EncodeChar(s[0]) + EncodeUtf8(s[1..])
  }

  predicate IsAsciiText(s: string) {
    forall i :: 0 <= i < |s| ==> s[i] as int < 0x80
  }

  predicate IsAscii(bytes: seq<byte>) {
    forall i :: 0 <= i < |bytes| ==> bytes[i] < 0x80
  }

  function AsciiString(bytes: seq<byte>): (r: string)
    requires IsAscii(bytes)
    ensures |r| == |bytes| && forall i :: 0 <= i < |r| ==> r[i] as int == bytes[i] as int
  {
    seq(|bytes|, i requires 0 <= i < |bytes| => bytes[i] as int as char)
  }

  lemma AsciiAppended(a: seq<byte>, b: seq<byte>)
    ensures IsAscii(a + b) <==> IsAscii(a) && IsAscii(b)
  {
    if IsAscii(a + b) {
      assert forall i :: 0 <= i < |a| ==> a[i] == (a + b)[i];
      assert forall i :: 0 <= i < |b| ==> b[i] == (a + b)[|a| + i];
    }
  }

  /** ASCII text, and no other text, is encoded as ASCII bytes. */
  lemma {:induction false} AsciiIsKept(s: string)
    ensures IsAscii(EncodeUtf8(s)) <==> IsAsciiText(s)
    ensures IsAsciiText(s) ==> |EncodeUtf8(s)| == |s| && AsciiString(EncodeUtf8(s)) == s
  {
    if s != [] {
      var first, rest := EncodeChar(s[0]), EncodeUtf8(s[1..]);
      AsciiIsKept(s[1..]);
      AsciiAppended(first, rest);
      assert s == [s[0]] + s[1..];
      assert EncodeUtf8(s) == first + rest;
      assert IsAscii(first) <==> s[0] as int < 0x80;
      hide EncodeChar, EncodeUtf8;
      assert IsAsciiText(s) <==> s[0] as int < 0x80 && IsAsciiText(s[1..]);
      if IsAsciiText(s) {
        assert AsciiString(first + rest) == s;
      }
    }
  }

  /** How many bytes a character takes, from its first byte. */
  function SequenceLength(first: byte): nat {
    if first < 0x80 then 1
    else if 0xC0 <= first < 0xE0 then 2
    else if 0xE0 <= first < 0xF0 then 3
    else if 0xF0 <= first < 0xF8 then 4
    else 0
  }

  function CodePoint(bytes: seq<byte>): int {
    match |bytes|
    case 1 => bytes[0] as int
    case 2 => (bytes[0] as int - 0xC0) * 0x40 + bytes[1] as int - 0x80
    case 3 => (bytes[0] as int - 0xE0) * 0x1000 + (bytes[1] as int - 0x80) * 0x40 + bytes[2] as int - 0x80
    case 4 =>
      (bytes[0] as int - 0xF0) * 0x4_0000 + (bytes[1] as int - 0x80) * 0x1000 + (bytes[2] as int - 0x80) * 0x40 + bytes[3] as int - 0x80
    case _ => -1
  }

  predicate IsScalar(n: int) {
    0 <= n < 0xD800 || 0xE000 <= n < 0x11_0000
  }

  /** The character at the start of the bytes, if they start with one in its
      shortest form. */
  function DecodeChar(bytes: seq<byte>): (r: Option<char>)
    requires bytes != []
    ensures r.Some? ==> 0 < SequenceLength(bytes[0]) <= |bytes| && bytes[..SequenceLength(bytes[0])] == EncodeChar(r.value)
  {
    var n := SequenceLength(bytes[0]);
    if n == 0 || n > |bytes| || !IsScalar(CodePoint(bytes[..n])) then None
    else if EncodeChar(CodePoint(bytes[..n]) as char) == bytes[..n] then Some(CodePoint(bytes[..n]) as char)
    else None
  }

  function DecodeUtf8(bytes: seq<byte>): Option<string> {
    if bytes == [] then Some("")
    else
      match DecodeChar(bytes)
      case None => None
      case Some(c) =>
        match DecodeUtf8(bytes[SequenceLength(bytes[0])..])
        case None => None
        case Some(rest) => Some([c] + rest)
  }

  /** What decodes to a text is its encoding. */
  lemma {:induction false} DecodedIsEncoded(bytes: seq<byte>)
    requires DecodeUtf8(bytes).Some?
    ensures EncodeUtf8(DecodeUtf8(bytes).value) == bytes
    decreases |bytes|
  {
    hide EncodeChar, DecodeChar, SequenceLength;
    if bytes != [] {
      var n, c := SequenceLength(bytes[0]), DecodeChar(bytes).value;
      DecodedIsEncoded(bytes[n..]);
      var rest := DecodeUtf8(bytes[n..]).value;
      assert ([c] + rest)[1..] == rest;
      assert bytes == bytes[..n] + bytes[n..];
    }
  }

  /** The table of RFC 3629, section 3: how many bytes a character takes, in
      which ranges they are, and which number their low bits form. */
  lemma Utf8Table(c: char)
    ensures var n, b := c as int, EncodeChar(c);
      && (n < 0x80 ==> b == [n as byte])
      && (0x80 <= n < 0x800 ==> |b| == 2 && 0xC2 <= b[0] < 0xE0)
      && (0x800 <= n < 0x1_0000 ==> |b| == 3 && 0xE0 <= b[0] < 0xF0)
      && (0x1_0000 <= n ==> |b| == 4 && 0xF0 <= b[0] < 0xF5)
      && (forall i :: 0 < i < |b| ==> 0x80 <= b[i] < 0xC0)
      && (|b| == 2 ==> n == (b[0] as int - 0xC0) * 0x40 + b[1] as int - 0x80)
      && (|b| == 3 ==> n == ((b[0] as int - 0xE0) * 0x40 + b[1] as int - 0x80) * 0x40 + b[2] as int - 0x80)
      && (|b| == 4 ==> n == (((b[0] as int - 0xF0) * 0x40 + b[1] as int - 0x80) * 0x40 + b[2] as int - 0x80) * 0x40 + b[3] as int - 0x80)
  {
    var n := c as int;
    assert n < 0x11_0000;
    SplitSixBits(n);
    SplitSixBits(n / 0x40);
    SplitSixBits(n / 0x40 / 0x40);
    assert n / 0x1000 == n / 0x40 / 0x40 && n / 0x4_0000 == n / 0x40 / 0x40 / 0x40;
  }

  lemma SplitSixBits(n: nat)
    ensures n == n / 0x40 * 0x40 + n % 0x40
  {}

  /** Every encoded character is decoded again. */
  lemma CharIsDecoded(c: char, rest: seq<byte>)
    ensures EncodeChar(c) != [] && SequenceLength(EncodeChar(c)[0]) == |EncodeChar(c)|
    ensures DecodeChar(EncodeChar(c) + rest) == Some(c)
  {
    Utf8Table(c);
    var b := EncodeChar(c);
    hide EncodeChar;
    assert (b + rest)[..|b|] == b;
    assert CodePoint(b) == c as int;
  }

  /** A text is decoded exactly from its encoding. */
  lemma {:induction false} DecodedExactly(bytes: seq<byte>, s: string)
    ensures DecodeUtf8(bytes) == Some(s) <==> bytes == EncodeUtf8(s)
  {
    if DecodeUtf8(bytes) == Some(s) {
      DecodedIsEncoded(bytes);
    }
    EncodedIsDecoded(s);
  }

  lemma {:induction false} EncodedIsDecoded(s: string)
    ensures DecodeUtf8(EncodeUtf8(s)) == Some(s)
  {
    if s != [] {
      hide EncodeChar, DecodeChar, SequenceLength;
      EncodedIsDecoded(s[1..]);
      CharIsDecoded(s[0], EncodeUtf8(s[1..]));
      var first, rest := EncodeChar(s[0]), EncodeUtf8(s[1..]);
      assert (first + rest)[|first|..] == rest;
      assert s == [s[0]] + s[1..];
    }
  }

  class Reader {
    const data: seq<byte>
    var position: nat

    ghost predicate Valid()
      reads this
    {
      position <= |data|
    }

    ghost function Rest(): seq<byte>
      requires Valid()
      reads this
    {
      data[position..]
    }

    constructor (data: seq<byte>)
      ensures Valid() && Rest() == data
    {
      this.data, position := data, 0;
    }

    /** The next `n` bytes, if there are as many. */
    method ReadExact(n: nat) returns (r: Result<seq<byte>>)
      requires Valid()
      modifies this`position
      ensures Valid()
      ensures r.Ok? <==> n <= |old(Rest())|
      ensures r.Ok? ==> r.value == old(Rest())[..n] && Rest() == old(Rest())[n..]
      ensures r.Err? ==> r.error == Io
    {
      if n > |data| - position {
        return Err(Io);
      }
      r := Ok(data[position..position + n]);
      position := position + n;
    }

    /** Everything that is left. */
    method ReadToEnd() returns (bytes: seq<byte>)
      requires Valid()
      modifies this`position
      ensures Valid() && bytes == old(Rest()) && Rest() == []
    {
      bytes := data[position..];
      position := |data|;
    }
  }
}
