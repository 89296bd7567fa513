/** File metadata records and the FNV-1a identifiers that name a file's metadata and chunk files on disk. */
module FileIds {
  import opened Bytes

  const DEFAULT_MODE := 420  // 0644

  datatype FileMeta = FileMeta(
    pathId: string, logicalPath: string, logicalSize: nat, compressedSize: nat, chunkSize: nat, nChunks: nat,
    atime: int, mtime: int, ctime: int, mode: nat)

  /** A default-constructed record, as a failed load leaves it. */
  const DEFAULT_META := FileMeta("", "", 0, 0, 0, 0, 0, 0, 0, DEFAULT_MODE)

  const FNV_OFFSET := 14695981039346656037
  const FNV_PRIME := 1099511628211

  /** Exclusive-or of the binary digits. */
  function Xor(a: nat, b: nat): nat
  {
    if b == 0 then a else 2 * Xor(a / 2, b / 2) + (a % 2 + b % 2) % 2
  }

  /** One step of the hash: `h ^= c`, and the product in 64 bits. */
  function HashStep(h: nat, c: nat): (r: nat)
    ensures r < TWO_64
  {
    Xor(h, c) * FNV_PRIME % TWO_64
  }

  function Fnv1a(p: string): nat
  {
    if p == "" then FNV_OFFSET else HashStep(Fnv1a(p[..|p| - 1]), p[|p| - 1] as int % 256)
  }

  const HEX := "0123456789abcdef"

  /** The low `k` hexadecimal digits of `h`, most significant first. */
  function Hex(h: nat, k: nat): (s: string)
    ensures |s| == k && forall c :: c in s ==> c in HEX
  {
    if k == 0 then "" else Hex(h / 16, k - 1) + [HEX[h % 16]]
  }

  /** The 16-digit identifier of a path. */
  function PathId(p: string): (id: string)
    ensures |id| == 16 && forall c :: c in id ==> c in HEX
  {
    Hex(Fnv1a(p), 16)
  }

  method HashPath(p: string) returns (id: string)
    ensures id == PathId(p)
  {
    var h := FNV_OFFSET;
    var i := 0;
    while i < |p|
      invariant 0 <= i <= |p| && h == Fnv1a(p[..i])
    {
      h := Xor(h, p[i] as int % 256) * FNV_PRIME % TWO_64;
      i := i + 1;
      assert p[..i][..|p[..i]| - 1] == p[..i - 1];
    }
    assert p[..|p|] == p;
    id := Hex(h, 16);
  }

  // ---------------------------------------------------------------- what tells two ids apart

  /** The inverse of the prime modulo 2^64; there is one because the prime is odd. */
  const PRIME_INVERSE := 14886173955864302971

  lemma XorStep(a: nat, b: nat)
    ensures b == 0 ==> Xor(a, b) == a
    ensures b != 0 ==> Xor(a, b) == 2 * Xor(a / 2, b / 2) + (a % 2 + b % 2) % 2
  {
  }

  lemma XorUnfolds(a: nat, b: nat)
    ensures Xor(a, b) == 2 * Xor(a / 2, b / 2) + (a % 2 + b % 2) % 2
    ensures Xor(a, b) / 2 == Xor(a / 2, b / 2) && Xor(a, b) % 2 == (a % 2 + b % 2) % 2
  {
    XorStep(a, b);
    XorStep(a / 2, b / 2);
    hide Xor;
  }

  lemma {:induction false} XorBack(a: nat, b: nat)
    ensures Xor(Xor(a, b), b) == a
  {
    hide Xor;
    if b != 0 {
      XorBack(a / 2, b / 2);
      XorUnfolds(a, b);
      XorUnfolds(Xor(a, b), b);
    } else {
      XorStep(a, 0);
    }
  }

  lemma {:induction false} XorOther(a: nat, b: nat, d: nat)
    requires Xor(a, b) == Xor(a, d)
    ensures b == d
    decreases b + d
  {
    hide Xor;
    if b + d != 0 {
      XorUnfolds(a, b);
      XorUnfolds(a, d);
      XorOther(a / 2, b / 2, d / 2);
    }
  }

  function Pow2(k: nat): nat
  {
    if k == 0 then 1 else 2 * Pow2(k - 1)
  }

  lemma {:induction false} XorInRange(a: nat, b: nat, k: nat)
    requires a < Pow2(k) && b < Pow2(k)
    ensures Xor(a, b) < Pow2(k)
  {
    hide Xor;
    if k == 0 {
      XorStep(a, b);
    } else {
      XorUnfolds(a, b);
      XorInRange(a / 2, b / 2, k - 1);
    }
  }

  lemma {:induction false} Pow2Adds(j: nat, k: nat)
    ensures Pow2(j + k) == Pow2(j) * Pow2(k)
  {
    if j != 0 {
      Pow2Adds(j - 1, k);
    }
  }

  lemma Pow2Is()
    ensures Pow2(8) == 256 && Pow2(64) == TWO_64
  {
    Pow2Adds(8, 8);
    Pow2Adds(16, 16);
    Pow2Adds(32, 32);
  }

  lemma ModAdd(a: nat, k: int, m: pos)
    requires a < m
    ensures (k * m + a) % m == a
  {
    ModIs(k * m + a, k, a, m);
  }

  lemma ModIs(x: int, k: int, a: nat, m: pos)
    requires a < m && x == k * m + a
    ensures x % m == a
  {
    SmallMultiple(x / m - k, m, a - x % m);
  }

  lemma SmallMultiple(d: int, m: int, e: int)
    requires d * m == e && -m < e < m && 0 < m
    ensures e == 0
  {
  }

  /** Multiplying by the prime can be undone. */
  lemma TimesPrimeBack(h: nat)
    requires h < TWO_64
    ensures (h * FNV_PRIME) % TWO_64 * PRIME_INVERSE % TWO_64 == h
  {
    var x := h * FNV_PRIME;
    var q := x / TWO_64;
    assert FNV_PRIME * PRIME_INVERSE == 887285111055 * TWO_64 + 1;
    assert x * PRIME_INVERSE == h * 887285111055 * TWO_64 + h;
    assert (x % TWO_64) * PRIME_INVERSE + q * PRIME_INVERSE * TWO_64 == h * 887285111055 * TWO_64 + h;
    var k := h * 887285111055 - q * PRIME_INVERSE;
    assert (x % TWO_64) * PRIME_INVERSE == k * TWO_64 + h;
    ModAdd(h, k, TWO_64);
  }

  lemma XorFits(h: nat, c: nat)
    requires h < TWO_64 && c < 256
    ensures Xor(h, c) < TWO_64
  {
    Pow2Is();
    XorInRange(h, c, 64);
  }

  /** One step of the hash loses neither the hash so far nor the character. */
  lemma StepInjective(h: nat, c: nat, g: nat, d: nat)
    requires h < TWO_64 && g < TWO_64 && c < 256 && d < 256 && HashStep(h, c) == HashStep(g, d)
    ensures h == g <==> c == d
  {
    XorFits(h, c);
    XorFits(g, d);
    TimesPrimeBack(Xor(h, c));
    TimesPrimeBack(Xor(g, d));
    hide Xor;
    if h == g {
      XorOther(h, c, d);
    } else if c == d {
      XorBack(h, c);
      XorBack(g, c);
    }
  }

  lemma HashInRange(p: string)
    ensures Fnv1a(p) < TWO_64
    ensures p != "" ==> Fnv1a(p) == HashStep(Fnv1a(p[..|p| - 1]), p[|p| - 1] as int % 256)
  {
    hide Xor;
  }

  /** Only the low bytes of the characters count. */
  lemma {:induction false} SameBytes(p: string, q: string)
    requires |p| == |q| && forall i :: 0 <= i < |p| ==> p[i] as int % 256 == q[i] as int % 256
    ensures Fnv1a(p) == Fnv1a(q)
  {
    if p != "" {
      SameBytes(p[..|p| - 1], q[..|q| - 1]);
    }
  }

  /** Two paths of one length that differ in one byte have different hashes. */
  lemma {:induction false} OneByteHashes(p: string, q: string, k: nat)
    requires k < |p| == |q| && p[k] as int % 256 != q[k] as int % 256
    requires forall i :: 0 <= i < |p| && i != k ==> p[i] as int % 256 == q[i] as int % 256
    ensures Fnv1a(p) != Fnv1a(q)
  {
    var p', q' := p[..|p| - 1], q[..|q| - 1];
    HashInRange(p);
    HashInRange(q);
    HashInRange(p');
    HashInRange(q');
    if k < |p| - 1 {
      OneByteHashes(p', q', k);
    } else {
      SameBytes(p', q');
    }
    hide HashStep, Fnv1a;
    if Fnv1a(p) == Fnv1a(q) {
      StepInjective(Fnv1a(p'), p[|p| - 1] as int % 256, Fnv1a(q'), q[|q| - 1] as int % 256);
    }
  }

  /** The value of a hexadecimal numeral. */
  function HexValue(s: string): nat
  {
    if s == "" then 0 else HexValue(s[..|s| - 1]) * 16 + HexDigit(s[|s| - 1])
  }

  function HexDigit(c: char): nat
  {
    if '0' <= c <= '9' then (c - '0') as nat else if 'a' <= c <= 'f' then (c - 'a') as nat + 10 else 0
  }

  lemma {:induction false} HexBack(h: nat, k: nat)
    requires h < Pow2(4 * k)
    ensures HexValue(Hex(h, k)) == h
  {
    if 0 < k {
      hide *;
      FourBits(h, 4 * (k - 1));
      HexBack(h / 16, k - 1);
      HexStep(h, k - 1);
      HexEnds(Hex(h / 16, k - 1), h % 16);
    }
  }

  lemma FourBits(h: nat, k: nat)
    requires h < Pow2(k + 4)
    ensures h / 16 < Pow2(k)
  {
    Pow2Adds(4, k);
    assert Pow2(4) == 16;
    hide Pow2;
  }

  lemma HexEnds(s: string, d: nat)
    requires d < 16
    ensures HexValue(s + [HEX[d]]) == HexValue(s) * 16 + d
  {
    assert (s + [HEX[d]])[..|s|] == s;
    assert HexDigit(HEX[d]) == d;
  }

  /** The id is the hash in hexadecimal. */
  lemma IdIsHash(p: string)
    ensures HexValue(PathId(p)) == Fnv1a(p)
  {
    HashInRange(p);
    Pow2Is();
    HexBack(Fnv1a(p), 16);
  }

  /** So ids tell apart what the hash tells apart, among it any two paths that differ in one byte alone. */
  lemma OneByteDiffers(p: string, q: string, k: nat)
    requires k < |p| == |q| && p[k] as int % 256 != q[k] as int % 256
    requires forall i :: 0 <= i < |p| && i != k ==> p[i] as int % 256 == q[i] as int % 256
    ensures PathId(p) != PathId(q)
  {
    OneByteHashes(p, q, k);
    IdIsHash(p);
    IdIsHash(q);
  }

  lemma HexStep(h: nat, k: nat)
    ensures Hex(h, 0) == "" && Hex(h, k + 1) == Hex(h / 16, k) + [HEX[h % 16]]
  {
  }

  lemma Digits16(g: nat, h: nat, d: nat)
    requires d < 16 && g == h * 16 + d
    ensures g / 16 == h && g % 16 == d
  {
  }

  lemma HexNext(g: nat, h: nat, k: nat, d: nat)
    requires d < 16 && g == h * 16 + d
    ensures Hex(g, k + 1) == Hex(h, k) + [HEX[d]]
  {
    hide *;
    HexStep(g, k);
    Digits16(g, h, d);
  }

  lemma HexQuad(h: nat, k: nat, a: nat, b: nat, c: nat, d: nat, rest: nat)
    requires a < 16 && b < 16 && c < 16 && d < 16
    requires h == rest * 0x10000 + a * 0x1000 + b * 0x100 + c * 0x10 + d
    ensures Hex(h, k + 4) == Hex(rest, k) + [HEX[a], HEX[b], HEX[c], HEX[d]]
  {
    hide *;
    var q := rest * 16 + a;
    HexNext(q, rest, k, a);
    HexNext(q * 16 + b, q, k + 1, b);
    HexNext(q * 0x100 + b * 16 + c, q * 16 + b, k + 2, c);
    HexNext(h, q * 0x100 + b * 16 + c, k + 3, d);
  }

  /** Published values of the hash. */
  lemma KnownIds()
    ensures PathId("") == "cbf29ce484222325"
    ensures PathId("a") == "af63dc4c8601ec8c"
  {
    KnownHashes();
    hide Fnv1a, Hex;
    HexStep(0, 0);
    HexQuad(0xcbf29ce484222325, 12, 2, 3, 2, 5, 0xcbf29ce48422);
    HexQuad(0xcbf29ce48422, 8, 8, 4, 2, 2, 0xcbf29ce4);
    HexQuad(0xcbf29ce4, 4, 9, 12, 14, 4, 0xcbf2);
    HexQuad(0xcbf2, 0, 12, 11, 15, 2, 0);
    HexQuad(0xaf63dc4c8601ec8c, 12, 14, 12, 8, 12, 0xaf63dc4c8601);
    HexQuad(0xaf63dc4c8601, 8, 8, 6, 0, 1, 0xaf63dc4c);
    HexQuad(0xaf63dc4c, 4, 13, 12, 4, 12, 0xaf63);
    HexQuad(0xaf63, 0, 10, 15, 6, 3, 0);
  }

  lemma XorOfA()
    ensures Xor(0xcbf29ce484222325, 97) == 0xcbf29ce484222344
  {
    hide Xor;
    XorStep(0xcbf29ce484222325, 97);
    XorStep(0x65f94e7242111192, 48);
    XorStep(0x32fca739210888c9, 24);
    XorStep(0x197e539c90844464, 12);
    XorStep(0xcbf29ce48422232, 6);
    XorStep(0x65f94e724211119, 3);
    XorStep(0x32fca739210888c, 1);
    XorStep(0x197e539c9084446, 0);
  }

  lemma KnownHashes()
    ensures Fnv1a("") == 0xcbf29ce484222325 && Fnv1a("a") == 0xaf63dc4c8601ec8c
  {
    XorOfA();
    hide Xor;
    assert "a"[..0] == "";
  }
}
