// Big-endian byte strings: encoding/binary's BigEndian, and addresses as bytes.
module Bytes {
  import Arithmetic

  type Byte = b: nat | b < 256

  function Power256(n: nat): (r: nat)
    ensures r > 0
  {
    if n == 0 then 1 else 256 * Power256(n - 1)
  }

  function BigEndian(bytes: seq<Byte>): nat {
    if bytes == [] then 0 else BigEndian(bytes[..|bytes| - 1]) * 256 + bytes[|bytes| - 1]
  }

  // The low `width` bytes of n, as PutUint32 and PutUint64 write them.
  function ToBigEndian(n: nat, width: nat): (bytes: seq<Byte>)
    ensures |bytes| == width
  {
    if width == 0 then [] else ToBigEndian(n / 256, width - 1) + [n % 256]
  }

  lemma {:induction false} BigEndianBound(bytes: seq<Byte>)
    ensures BigEndian(bytes) < Power256(|bytes|)
  {
    if bytes != [] {
      BigEndianBound(bytes[..|bytes| - 1]);
    }
  }

  lemma {:induction false} EncodeDecode(n: nat, width: nat)
    requires n < Power256(width)
    ensures BigEndian(ToBigEndian(n, width)) == n
  {
    if width > 0 {
      EncodeDecode(n / 256, width - 1);
      var bytes := ToBigEndian(n, width);
      assert bytes[..width - 1] == ToBigEndian(n / 256, width - 1);
    }
  }

  lemma {:induction false} DecodeEncode(bytes: seq<Byte>)
    ensures ToBigEndian(BigEndian(bytes), |bytes|) == bytes
  {
    if bytes != [] {
      var front, low := bytes[..|bytes| - 1], bytes[|bytes| - 1];
      DecodeEncode(front);
      Arithmetic.DivideProduct(BigEndian(front), low, 256);
      assert bytes == front + [low];
    }
  }

  lemma {:induction false} BigEndianSplit(hi: seq<Byte>, lo: seq<Byte>)
    ensures BigEndian(hi + lo) == BigEndian(hi) * Power256(|lo|) + BigEndian(lo)
  {
    if lo == [] {
      assert hi + lo == hi;
    } else {
      var front := lo[..|lo| - 1];
      assert (hi + lo)[..|hi + lo| - 1] == hi + front;
      BigEndianSplit(hi, front);
      assert BigEndian(hi) * Power256(|front|) * 256 == BigEndian(hi) * (256 * Power256(|front|));
    }
  }

  // Written out for the widths that occur: the first byte is the high one.
  lemma TwoBytes(bytes: seq<Byte>)
    requires |bytes| == 2
    ensures BigEndian(bytes) == 0x100 * (bytes[0] as int) + bytes[1]
  {
    var one := bytes[..1];
    assert one[..0] == [] && BigEndian(one) == one[0];
  }

  lemma FourBytes(bytes: seq<Byte>)
    requires |bytes| == 4
    ensures BigEndian(bytes) == 0x100_0000 * (bytes[0] as int) + 0x1_0000 * (bytes[1] as int)
                              + 0x100 * (bytes[2] as int) + bytes[3]
  {
    TwoBytes(bytes[..2]);
    assert bytes[..3][..2] == bytes[..2];
  }
}
