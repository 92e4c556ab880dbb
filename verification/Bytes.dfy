/** Bytes, options and results: the small value types every other module shares. */
module Bytes {

  /** One octet. */
  newtype byte = x: int | 0 <= x < 256

  /** A UTF-8 string or a byte buffer, as the bytes it holds. */
  type Str = seq<byte>

  datatype Option<+T> = None | Some(value: T)

  datatype Result<+T, +E> = Ok(value: T) | Err(error: E)

  const TWO_64: nat := 0x1_0000_0000_0000_0000

  /** The low `width` bytes of `n`, least significant first. */
  function LittleEndian(n: nat, width: nat): (s: Str)
    ensures |s| == width
  {
    if width == 0 then [] else [(n % 256) as byte] + LittleEndian(n / 256, width - 1)
  }

  /** The low `width` bytes of `n`, most significant first. */
  function BigEndian(n: nat, width: nat): (s: Str)
    ensures |s| == width
  {
    if width == 0 then [] else BigEndian(n / 256, width - 1) + [(n % 256) as byte]
  }

  /** 256 to the power `width`. */
  function Pow256(width: nat): (r: nat)
    ensures r >= 1
  {
    if width == 0 then 1 else 256 * Pow256(width - 1)
  }

  lemma {:induction false} LittleEndianInjective(a: nat, b: nat, width: nat)
    requires a < Pow256(width) && b < Pow256(width)
    requires LittleEndian(a, width) == LittleEndian(b, width)
    ensures a == b
  {
    if width > 0 {
      var s, t := LittleEndian(a, width), LittleEndian(b, width);
      assert s[0] == t[0] && s[1..] == t[1..];
      LittleEndianInjective(a / 256, b / 256, width - 1);
    }
  }

  lemma {:induction false} BigEndianInjective(a: nat, b: nat, width: nat)
    requires a < Pow256(width) && b < Pow256(width)
    requires BigEndian(a, width) == BigEndian(b, width)
    ensures a == b
  {
    if width > 0 {
      var s, t := BigEndian(a, width), BigEndian(b, width);
      assert s[width - 1] == t[width - 1] && s[..width - 1] == t[..width - 1];
      BigEndianInjective(a / 256, b / 256, width - 1);
    }
  }

  lemma Pow256Of8()
    ensures Pow256(8) == TWO_64
  {
    assert Pow256(2) == 0x1_0000;
    assert Pow256(4) == 0x1_0000 * 0x1_0000;
    assert Pow256(6) == 0x1_0000 * 0x1_0000 * 0x1_0000;
  }
}
