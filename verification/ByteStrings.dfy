/** Byte strings, and the object names under which assets are stored. */
module ByteStrings {

  type Byte = b: int | 0 <= b < 256

  type Bytes = seq<Byte>

  /** Stands for SHA-512, about which nothing is assumed. */
  type Digest = Bytes -> Bytes

  const HEX_DIGITS: string := "0123456789abcdef"

  function HexEncode(bs: Bytes): (s: string)
    ensures |s| == 2 * |bs|
  {
    if bs == [] then "" else [HEX_DIGITS[bs[0] / 16], HEX_DIGITS[bs[0] % 16]] + HexEncode(bs[1..])
  }

  function ObjectName(hash: Bytes): string {
    "SHA512:" + HexEncode(hash)
  }

  lemma HexDigitsDistinct(i: nat, j: nat)
    requires i < 16 && j < 16 && HEX_DIGITS[i] == HEX_DIGITS[j]
    ensures i == j
  {
  }

  lemma {:induction false} HexInjective(x: Bytes, y: Bytes)
    requires HexEncode(x) == HexEncode(y)
    ensures x == y
  {
    assert |x| == |y|;
    if x == [] {
    } else {
      var hx, hy := HexEncode(x), HexEncode(y);
      assert hx[0] == HEX_DIGITS[x[0] / 16] && hy[0] == HEX_DIGITS[y[0] / 16];
      assert hx[1] == HEX_DIGITS[x[0] % 16] && hy[1] == HEX_DIGITS[y[0] % 16];
      HexDigitsDistinct(x[0] / 16, y[0] / 16);
      HexDigitsDistinct(x[0] % 16, y[0] % 16);
      assert hx[2..] == HexEncode(x[1..]) && hy[2..] == HexEncode(y[1..]);
      HexInjective(x[1..], y[1..]);
      assert x == [x[0]] + x[1..] && y == [y[0]] + y[1..];
    }
  }

  /** Byte i is written as two lower-case digits, the higher one first. */
  lemma {:induction false} HexDigitsAt(bs: Bytes, i: nat)
    requires i < |bs|
    ensures HexEncode(bs)[2 * i] == "0123456789abcdef"[bs[i] / 16]
    ensures HexEncode(bs)[2 * i + 1] == "0123456789abcdef"[bs[i] % 16]
  {
    if i == 0 {
    } else {
      HexDigitsAt(bs[1..], i - 1);
    }
  }

  /** The name of an object is that of the algorithm, and the digits of the hash. */
  lemma ObjectNameIs(hash: Bytes, i: nat)
    requires i < |hash|
    ensures |ObjectName(hash)| == 7 + 2 * |hash| && ObjectName(hash)[..7] == "SHA512:"
    ensures ObjectName(hash)[7 + 2 * i] == "0123456789abcdef"[hash[i] / 16]
    ensures ObjectName(hash)[8 + 2 * i] == "0123456789abcdef"[hash[i] % 16]
  {
    HexDigitsAt(hash, i);
  }

  /** Two assets share an object only if they share a hash. */
  lemma {:induction false} ObjectNameInjective(x: Bytes, y: Bytes)
    requires ObjectName(x) == ObjectName(y)
    ensures x == y
  {
    var prefix := "SHA512:";
    assert (prefix + HexEncode(x))[|prefix|..] == HexEncode(x);
    assert (prefix + HexEncode(y))[|prefix|..] == HexEncode(y);
    HexInjective(x, y);
  }
}
