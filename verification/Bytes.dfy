/** Bytes, optional values, and the zstd codec as the code uses it. */
module Bytes {

  newtype byte = x: int | 0 <= x < 256

  type pos = n: nat | 0 < n witness 1

  datatype Option<+T> = None | Some(value: T)
  {
    function GetOr(default: T): T {
      if Some? then value else default
    }
  }

  const TWO_64 := 0x1_0000_0000_0000_0000

  type u32 = n: nat | n < 0x1_0000_0000
  type u64 = n: nat | n < 0x1_0000_0000_0000_0000

  function Min(a: int, b: int): int { if a <= b then a else b }

  function Max(a: int, b: int): int { if a <= b then b else a }

  /** `erase` on a map. */
  function Without<K, V>(m: map<K, V>, k: K): map<K, V>
  {
    map x | x in m && x != k :: m[x]
  }

  function Zeros(n: nat): (s: seq<byte>)
  {
    seq(n, _ => 0 as byte)
  }

  /** `vector::resize(n, 0)`: a prefix when shrinking, zero-filled when growing. */
  function Resized(s: seq<byte>, n: nat): (r: seq<byte>)
  {
    if n <= |s| then s[..n] else s + Zeros(n - |s|)
  }

  /** The POSIX effect of writing `buf` at `off` on a flat file: a gap past the end reads as zeros. */
  function Spliced(s: seq<byte>, buf: seq<byte>, off: nat): (r: seq<byte>)
  {
    var base := Resized(s, Max(|s|, off + |buf|));
    base[..off] + buf + base[off + |buf|..]
  }

  /** What a read of `size` bytes at `off` yields on a flat file. */
  function Slice(s: seq<byte>, off: nat, size: nat): (r: seq<byte>)
  {
    if off >= |s| then [] else s[off..Min(off + size, |s|)]
  }

  /** The compressor is foreign code: two functions, of which the file system needs only what `Sound` says. */
  datatype Zstd = Zstd(compress: seq<byte> -> seq<byte>, decompress: seq<byte> -> Option<seq<byte>>)
  {
    ghost predicate Sound() {
      forall x: seq<byte> ::
        && decompress(compress(x)) == Some(x)
        && 0 < |compress(x)| <= |x| + |x| / 256 + 64
    }
  }

  /** The trivial sound codec: a frame is the content behind one marker byte. */
  function Stored(): (z: Zstd)
    ensures z.Sound()
  {
    var z := Zstd((x: seq<byte>) => [0 as byte] + x,
                  (y: seq<byte>) => if |y| == 0 then None else Some(y[1..]));
    assert forall x: seq<byte> {:trigger z.compress(x)} :: z.compress(x)[1..] == x;
    z
  }

  type Codec = z: Zstd | z.Sound() ghost witness Stored()
}
