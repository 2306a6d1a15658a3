/** A stand-in for `hashlib.md5(text.encode("utf-8")).hexdigest()`: a
    deterministic function of the text rendered as 32 lowercase hexadecimal
    digits. Nothing in the model depends on which function it is, only on
    it being a function of its input and on the shape of its output. */
module Digest {

  predicate IsHexDigit(c: char) {
    ('0' <= c <= '9') || ('a' <= c <= 'f')
  }

  function HexChar(d: nat): (c: char)
    requires d < 16
    ensures IsHexDigit(c)
  {
    if d < 10 then ('0' as int + d) as char else ('a' as int + d - 10) as char
  }

  /** The `width` low hexadecimal digits of `n`, most significant first. */
  function Hex(n: nat, width: nat): (r: string)
    ensures |r| == width && forall k :: 0 <= k < width ==> IsHexDigit(r[k])
  {
    if width == 0 then [] else Hex(n / 16, width - 1) + [HexChar(n % 16)]
  }

  const Modulus: nat := 0x1_0000_0000_0000_0000_0000_0000_0000_0000

  /** A 128-bit polynomial fold over the text's code points. */
  function Fold(s: string): nat {
    if s == [] then 0 else (Fold(s[..|s| - 1]) * 257 + s[|s| - 1] as int + 1) % Modulus
  }

  /** The hash written into `transaction_hash`: always 32 lowercase hex digits,
      which is what the column (`String(32)`) holds. */
  function Md5(s: string): (r: string)
    ensures |r| == 32 && forall k :: 0 <= k < 32 ==> IsHexDigit(r[k])
  {
    Hex(Fold(s), 32)
  }
}
