/**
 SHA-1 as a buffered stream, against the standard (FIPS 180-4, sections 4.1.1, 4.2.1,
 5.1.1, 5.3.1 and 6.1.2): pad the message, cut it into blocks, fold the compression.
 */
module Sha1 {
  import opened Arithmetic

  type Byte = bv8
  type Word = bv32

  const BLOCK: nat := 64
  const TWO64: nat := 0x1_0000_0000_0000_0000

  // ---------- the standard ----------

  function RotL(x: Word, n: nat): Word
    requires 0 < n < 32
  {
    (x << n) | (x >> (32 - n))
  }

  function Ch(x: Word, y: Word, z: Word): Word {
    (x & y) ^ (!x & z)
  }

  function Parity(x: Word, y: Word, z: Word): Word {
    x ^ y ^ z
  }

  function Maj(x: Word, y: Word, z: Word): Word {
    (x & y) ^ (x & z) ^ (y & z)
  }

  function F(t: nat, x: Word, y: Word, z: Word): Word {
    if t < 20 then Ch(x, y, z) else if t < 40 then Parity(x, y, z) else if t < 60 then Maj(x, y, z) else Parity(x, y, z)
  }

  function K(t: nat): Word {
    if t < 20 then 0x5a827999 else if t < 40 then 0x6ed9eba1 else if t < 60 then 0x8f1bbcdc else 0xca62c1d6
  }

  datatype Digest = Digest(h0: Word, h1: Word, h2: Word, h3: Word, h4: Word)

  const INITIAL := Digest(0x67452301, 0xefcdab89, 0x98badcfe, 0x10325476, 0xc3d2e1f0)

  /** Four bytes as a word, most significant first. */
  function WordAt(block: seq<Byte>, t: nat): Word
    requires 4 * t + 3 < |block|
  {
    WordOf(block[4 * t], block[4 * t + 1], block[4 * t + 2], block[4 * t + 3])
  }

  function WordOf(a: Byte, b: Byte, c: Byte, d: Byte): Word {
    ((a as Word) << 24) | ((b as Word) << 16) | ((c as Word) << 8) | (d as Word)
  }

  /** The first `n` words of the message schedule. */
  function Schedule(block: seq<Byte>, n: nat): (w: seq<Word>)
    requires |block| == BLOCK && n <= 80
    ensures |w| == n
  {
    if n == 0 then []
    else
      var before := Schedule(block, n - 1);
      before + [ScheduleWord(block, before)]
  }

  function ScheduleWord(block: seq<Byte>, before: seq<Word>): Word
    requires |block| == BLOCK
  {
    var t := |before|;
    if t < 16 then WordAt(block, t) else RotL(before[t - 3] ^ before[t - 8] ^ before[t - 14] ^ before[t - 16], 1)
  }

  function Round(v: Digest, t: nat, w: Word): Digest {
    Digest(Mix(v.h0, F(t, v.h1, v.h2, v.h3), v.h4, K(t), w), v.h0, RotL(v.h1, 30), v.h2, v.h3)
  }

  function Mix(a: Word, f: Word, e: Word, k: Word, w: Word): Word {
    RotL(a, 5) + f + e + k + w
  }

  function Rounds(h: Digest, w: seq<Word>, n: nat): Digest
    requires n <= |w|
  {
    if n == 0 then h else Round(Rounds(h, w, n - 1), n - 1, w[n - 1])
  }

  function Compress(h: Digest, block: seq<Byte>): Digest
    requires |block| == BLOCK
  {
    var v := Rounds(h, Schedule(block, 80), 80);
    Plus(h, v)
  }

  function Plus(h: Digest, v: Digest): Digest {
    Digest(h.h0 + v.h0, h.h1 + v.h1, h.h2 + v.h2, h.h3 + v.h3, h.h4 + v.h4)
  }

  /** Folds the compression over the blocks of a message of whole blocks. */
  function Fold(h: Digest, message: seq<Byte>): Digest
    requires |message| % BLOCK == 0
  {
    if message == [] then h
    else
      var n := |message| - BLOCK;
      Compress(Fold(h, message[..n]), message[n..])
  }

  function Zeros(n: nat): (r: seq<Byte>)
    ensures |r| == n && forall i | 0 <= i < n :: r[i] == 0
  {
    if n == 0 then [] else Zeros(n - 1) + [0]
  }

  /** The last `n` digits of `x` to the base 256, most significant first. */
  function Digits(x: nat, n: nat): (r: seq<nat>)
    ensures |r| == n && forall i | 0 <= i < n :: r[i] < 256
  {
    if n == 0 then [] else Digits(x / 256, n - 1) + [x % 256]
  }

  function Bytes(digits: seq<nat>): (r: seq<Byte>)
    requires forall i | 0 <= i < |digits| :: digits[i] < 256
    ensures |r| == |digits| && forall i | 0 <= i < |digits| :: r[i] == digits[i] as Byte
  {
    if digits == [] then [] else Bytes(digits[..|digits| - 1]) + [digits[|digits| - 1] as Byte]
  }

  /** With `z` zero bytes after the mark, eight bytes are left in the last block. */
  predicate LeavesRoom(length: nat, z: nat) {
    (length + 1 + z) % BLOCK == 56
  }

  /** How many zero bytes follow the mark: the fewest that leave room for the length. */
  function ZeroCount(length: nat): (z: nat)
    ensures z < BLOCK && LeavesRoom(length, z) && forall y | 0 <= y < z :: !LeavesRoom(length, y)
  {
    (119 - length % BLOCK) % BLOCK
  }

  lemma PaddedLength(length: nat)
    ensures (length + 1 + ZeroCount(length) + 8) % BLOCK == 0
  {
  }

  function Pad(message: seq<Byte>): (r: seq<Byte>)
    ensures |r| % BLOCK == 0
  {
    PaddedLength(|message|);
    var padding := [0x80] + Zeros(ZeroCount(|message|)) + Bytes(Digits(8 * |message|, 8));
    assert |padding| == 1 + ZeroCount(|message|) + 8;
    message + padding
  }

  function WordBytes(w: Word): seq<Byte> {
    [((w >> 24) & 0xff) as Byte, ((w >> 16) & 0xff) as Byte, ((w >> 8) & 0xff) as Byte, (w & 0xff) as Byte]
  }

  /** `d` is what folding over `m` gives; to be unfolded only where `Fold` is mentioned. */
  ghost predicate FoldsTo(m: seq<Byte>, d: Digest) {
    forall x {:trigger Fold(INITIAL, x)} | x == m && |x| % BLOCK == 0 :: d == Fold(INITIAL, x)
  }

  lemma FoldsNothing()
    ensures FoldsTo([], INITIAL)
  {
    assert Fold(INITIAL, []) == INITIAL;
  }

  lemma FoldStep(h: Digest, m: seq<Byte>, block: seq<Byte>)
    requires |m| % BLOCK == 0 && |block| == BLOCK
    ensures Fold(h, m + block) == Compress(Fold(h, m), block)
  {
    assert (m + block)[..|m|] == m && (m + block)[|m|..] == block;
  }

  lemma FoldsOneMore(m: seq<Byte>, block: seq<Byte>, d: Digest)
    requires |m| % BLOCK == 0 && |block| == BLOCK && FoldsTo(m, d)
    ensures FoldsTo(m + block, Compress(d, block))
  {
    FoldStep(INITIAL, m, block);
  }

  lemma FoldsToHash(m: seq<Byte>, d: Digest)
    requires FoldsTo(Pad(m), d)
    ensures Hash(m) == DigestBytes(d)
  {
    assert Fold(INITIAL, Pad(m)) == d;
  }

  function WordNumber(d: Digest, i: nat): Word {
    match i case 0 => d.h0 case 1 => d.h1 case 2 => d.h2 case 3 => d.h3 case _ => d.h4
  }

  function DigestPrefix(d: Digest, n: nat): seq<Byte> {
    if n == 0 then [] else DigestPrefix(d, n - 1) + WordBytes(WordNumber(d, n - 1))
  }

  function DigestBytes(d: Digest): seq<Byte> {
    DigestPrefix(d, 5)
  }

  function Hash(message: seq<Byte>): seq<Byte> {
    DigestBytes(Fold(INITIAL, Pad(message)))
  }

  // ---------- the forms the program uses ----------

  /** The program joins with "or" what the standard joins with "xor". */
  lemma ChForms(x: Word, y: Word, z: Word)
    ensures (x & y) | (!x & z) == Ch(x, y, z)
  {
  }

  lemma MajForms(x: Word, y: Word, z: Word)
    ensures (x & y) | (x & z) | (y & z) == Maj(x, y, z)
  {
  }

  method ChByOr(x: Word, y: Word, z: Word) returns (f: Word)
    ensures f == Ch(x, y, z)
  {
    ChForms(x, y, z);
    f := (x & y) | (!x & z);
  }

  method MajByOr(x: Word, y: Word, z: Word) returns (f: Word)
    ensures f == Maj(x, y, z)
  {
    MajForms(x, y, z);
    f := (x & y) | (x & z) | (y & z);
  }

  class SHA1 {
    const digest: array<Word>
    const block: array<Byte>
    var blockLen: nat
    var totalLen: nat
    /** The bytes taken in so far. */
    ghost var message: seq<Byte>

    ghost predicate Shape()
      reads this
    {
      digest.Length == 5 && block.Length == BLOCK && blockLen <= BLOCK && totalLen < TWO64
    }

    ghost function State(): Digest
      requires digest.Length == 5
      reads this, digest
    {
      Digest(digest[0], digest[1], digest[2], digest[3], digest[4])
    }

    /** The whole blocks of `m` are folded into the digest, and the rest waits in the buffer. */
    ghost predicate Holds(m: seq<Byte>)
      reads this, digest, block
    {
      && Shape() && blockLen <= |m| && (|m| - blockLen) % BLOCK == 0
      && FoldsTo(m[..|m| - blockLen], State())
      && block[..blockLen] == m[|m| - blockLen..]
    }

    /** `Holds` is to be unfolded only where it is mentioned. */
    ghost predicate Valid()
      reads this, digest, block
    {
      && blockLen < BLOCK && totalLen == |message| % TWO64
      && forall m {:trigger Holds(m)} | m == message :: Holds(m)
    }

    constructor ()
      ensures Valid() && message == [] && fresh(digest) && fresh(block)
    {
      digest := new Word[5];
      block := new Byte[BLOCK];
      blockLen, totalLen, message := 0, 0, [];
      new;
      FoldsNothing();
      digest[0], digest[1], digest[2], digest[3], digest[4] := 0x67452301, 0xefcdab89, 0x98badcfe, 0x10325476, 0xc3d2e1f0;
    }

    method ProcessBlock()
      requires Shape()
      modifies digest
      ensures State() == Compress(old(State()), block[..])
    {
      var w := MakeSchedule(block);
      var v := AllRounds(Digest(digest[0], digest[1], digest[2], digest[3], digest[4]), w);
      AddTo(digest, v);
    }

    /** Processes a full buffer and empties it. */
    method Flush(ghost m: seq<Byte>)
      requires Holds(m) && blockLen == BLOCK
      modifies `blockLen, digest
      ensures Holds(m) && blockLen == 0
    {
      ghost var n := |m| - BLOCK;
      assert block[..] == m[n..];
      FoldsOneMore(m[..n], m[n..], State());
      ProcessBlock();
      assert m[..n] + m[n..] == m && m[..|m|] == m;
      blockLen := 0;
    }

    method PutByte(b: Byte, ghost m: seq<Byte>)
      requires Holds(m) && blockLen < BLOCK
      modifies `blockLen, block
      ensures Holds(m + [b]) && blockLen == old(blockLen) + 1
    {
      ghost var n := |m| - blockLen;
      block[blockLen] := b;
      blockLen := blockLen + 1;
      assert block[..blockLen] == m[n..] + [b] == (m + [b])[n..];
      assert (m + [b])[..n] == m[..n];
    }

    /** Copies some bytes behind those in the buffer. */
    method Copy(data: seq<Byte>, pos: nat, n: nat, ghost m: seq<Byte>)
      requires Holds(m) && pos + n <= |data| && blockLen + n <= BLOCK
      modifies `blockLen, block
      ensures Holds(m + data[pos..pos + n]) && blockLen == old(blockLen) + n
    {
      ghost var k := |m| - blockLen;
      forall i | 0 <= i < n {
        block[blockLen + i] := data[pos + i];
      }
      ghost var m' := m + data[pos..pos + n];
      assert block[..blockLen] == m[k..];
      assert block[blockLen..blockLen + n] == data[pos..pos + n];
      blockLen := blockLen + n;
      assert block[..blockLen] == m[k..] + data[pos..pos + n] == m'[k..];
      assert m'[..k] == m[..k];
    }

    /** Takes in as many bytes as fit into the buffer. */
    method TakeIn(data: seq<Byte>, pos: nat, n: nat)
      requires Valid() && pos + n <= |data| && blockLen + n <= BLOCK
      modifies `blockLen, `totalLen, `message, digest, block
      ensures Valid() && message == old(message) + data[pos..pos + n]
    {
      assert Holds(message);
      Copy(data, pos, n, message);
      SumModulo(|message|, n);
      message := message + data[pos..pos + n];
      totalLen := (totalLen + n) % TWO64;
      if blockLen == BLOCK {
        Flush(message);
      }
    }

    /** Takes in more bytes. */
    method Update(data: seq<Byte>)
      requires Valid()
      modifies `blockLen, `totalLen, `message, digest, block
      ensures Valid() && message == old(message) + data
    {
      var pos, len := 0, |data|;
      ghost var before := message;
      Cut(before, data, 0, 0);
      while len != 0
        invariant 0 <= pos <= |data| && pos + len == |data|
        invariant Valid() && message == before + data[..pos]
        decreases len
      {
        var copyLen := if len < BLOCK - blockLen then len else BLOCK - blockLen;
        Cut(before, data, pos, copyLen);
        TakeIn(data, pos, copyLen);
        pos := pos + copyLen;
        len := len - copyLen;
      }
      assert data[..pos] == data;
    }

    /** Appends zero bytes until `upTo` bytes are in the buffer. */
    method FillZeros(upTo: nat, ghost m: seq<Byte>, ghost z: nat) returns (ghost z': nat)
      requires Holds(m + Zeros(z)) && blockLen <= upTo <= BLOCK
      modifies `blockLen, block
      ensures z' == z + (upTo - old(blockLen)) && Holds(m + Zeros(z')) && blockLen == upTo
    {
      z' := z;
      while blockLen < upTo
        invariant blockLen <= upTo && z' == z + (blockLen - old(blockLen)) && Holds(m + Zeros(z'))
      {
        PutByte(0, m + Zeros(z'));
        assert m + Zeros(z') + [0] == m + Zeros(z' + 1);
        z' := z' + 1;
      }
    }

    /** Appends the length in bits, most significant byte first. */
    method PutLength(totalBits: nat, ghost m: seq<Byte>)
      requires Holds(m) && blockLen == 56
      modifies `blockLen, block
      ensures Holds(m + Bytes(Digits(totalBits, 8))) && blockLen == BLOCK
    {
      ghost var bytes := Bytes(Digits(totalBits, 8));
      var i := 7;
      assert m + bytes[..0] == m;
      while 0 <= i
        invariant -1 <= i <= 7 && blockLen == BLOCK - 1 - i && Holds(m + bytes[..7 - i])
      {
        var b := LengthByte(totalBits, i);
        PutByte(b, m + bytes[..7 - i]);
        Cut(m, bytes, 7 - i, 1);
        assert bytes[7 - i..7 - i + 1] == [b];
        i := i - 1;
      }
      assert bytes[..8] == bytes;
    }

    /** Fills up the block if the length does not fit any more. */
    method CloseBlock(ghost m: seq<Byte>) returns (ghost z: nat)
      requires Holds(m)
      modifies `blockLen, digest, block
      ensures Holds(m + Zeros(z))
      ensures if old(blockLen) > 56 then z == BLOCK - old(blockLen) && blockLen == 0 else z == 0 && blockLen == old(blockLen)
    {
      z := 0;
      assert m + Zeros(0) == m;
      if blockLen > 56 {
        z := FillZeros(BLOCK, m, z);
        Flush(m + Zeros(z));
      }
    }

    /** Appends the mark and the zeros. */
    method PutMark(ghost m: seq<Byte>)
      requires Holds(m) && blockLen < BLOCK
      modifies `blockLen, digest, block
      ensures Holds(m + [0x80] + Zeros(ZeroCount(|m|))) && blockLen == 56
    {
      ghost var r := blockLen;
      PutByte(0x80, m);
      ghost var z := CloseBlock(m + [0x80]);
      z := FillZeros(56, m + [0x80], z);
      ZerosNeeded(|m|, r, z);
    }

    /** Processes the last block. */
    method FlushLast(ghost m: seq<Byte>)
      requires Holds(m) && blockLen == BLOCK
      modifies `blockLen, digest
      ensures digest.Length == 5 && FoldsTo(m, State())
    {
      Flush(m);
      assert m[..|m|] == m;
    }

    /** Appends the padding and processes the last block or blocks. */
    method PutPadding()
      requires Valid()
      modifies `blockLen, digest, block
      ensures digest.Length == 5 && FoldsTo(Pad(message), State())
    {
      var totalBits := totalLen * 8 % TWO64;
      assert Holds(message);
      PutMark(message);
      PutLength(totalBits, message + [0x80] + Zeros(ZeroCount(|message|)));
      LengthDigits(|message|, totalLen, totalBits);
      PadParts(message, ZeroCount(|message|));
      FlushLast(Pad(message));
    }

    /** Pads what was taken in and returns its hash. */
    method Final() returns (out: seq<Byte>)
      requires Valid()
      modifies `blockLen, digest, block
      ensures out == Hash(message)
    {
      PutPadding();
      FoldsToHash(message, State());
      out := Output(digest);
    }
  }

  lemma PadParts(m: seq<Byte>, z: nat)
    requires z == ZeroCount(|m|)
    ensures m + [0x80] + Zeros(z) + Bytes(Digits(8 * |m|, 8)) == Pad(m)
  {
  }

  /** One byte of the length, cut out by shifting. */
  method LengthByte(totalBits: nat, i: nat) returns (b: Byte)
    requires i < 8
    ensures b == Bytes(Digits(totalBits, 8))[7 - i]
  {
    var digit := totalBits / Pow256(i) % 256;
    DigitAt(totalBits, 8, 7 - i);
    b := digit as Byte;
  }

  /** The five words, byte by byte. */
  method Output(digest: array<Word>) returns (out: seq<Byte>)
    requires digest.Length == 5
    ensures out == DigestBytes(Digest(digest[0], digest[1], digest[2], digest[3], digest[4]))
  {
    out := [];
    var i := 0;
    while i < 5
      invariant 0 <= i <= 5
      invariant out == DigestPrefix(Digest(digest[0], digest[1], digest[2], digest[3], digest[4]), i)
    {
      out := out + WordBytes(digest[i]);
      i := i + 1;
    }
  }

  lemma SumModulo(x: nat, n: nat)
    ensures (x % TWO64 + n) % TWO64 == (x + n) % TWO64
  {
    RemainderOfShift(x / TWO64, x % TWO64 + n, TWO64);
  }

  lemma Cut(before: seq<Byte>, data: seq<Byte>, pos: nat, n: nat)
    requires pos + n <= |data|
    ensures before + data[..0] == before
    ensures before + data[..pos] + data[pos..pos + n] == before + data[..pos + n]
  {
    assert data[..pos] + data[pos..pos + n] == data[..pos + n];
  }


  /** The zeros written, first up to the end of a block if need be, are those that padding asks for. */
  lemma ZerosNeeded(length: nat, r: nat, z: nat)
    requires r < BLOCK && r <= length && (length - r) % BLOCK == 0
    requires z == if r + 1 > 56 then BLOCK - (r + 1) + 56 else 56 - (r + 1)
    ensures z == ZeroCount(length)
  {
  }

  // ---------- the length field ----------

  function Pow256(n: nat): (p: nat)
    ensures 0 < p
  {
    if n == 0 then 1 else 256 * Pow256(n - 1)
  }

  lemma {:induction false} PowSplit(i: nat, j: nat)
    ensures Pow256(i + j) == Pow256(i) * Pow256(j)
  {
    if 0 < i {
      PowSplit(i - 1, j);
      MulAssociates(256, Pow256(i - 1), Pow256(j));
    }
  }

  lemma DivTwice(x: nat, w: nat)
    requires 0 < w
    ensures x / 256 / w == x / (256 * w)
  {
    var a, r := x / 256, x % 256;
    var b, s := a / w, a % w;
    assert a == b * w + s;
    HornerExpand(a, b, s, r, w, 256);
    MulAddLess(s, r, w, 256);
    DivModUnique(x, w * 256, b, s * 256 + r);
  }

  lemma {:induction false} DigitAt(x: nat, n: nat, j: nat)
    requires j < n
    ensures Digits(x, n)[j] == x / Pow256(n - 1 - j) % 256
  {
    if j < n - 1 {
      DigitAt(x / 256, n - 1, j);
      DivTwice(x, Pow256(n - 2 - j));
    }
  }

  lemma DigitOfRemainder(x: nat, k: nat, w: nat, p: nat)
    requires 0 < w && 0 < p && p == 256 * k * w
    ensures x / w % 256 == x % p / w % 256
  {
    DivModParts(x, p);
    var q: nat, r: nat := x / p, x % p;
    assert q * p == q * (256 * k) * w by { MulAssociates(q, 256 * k, w); }
    assert x == q * (256 * k) * w + r;
    QuotientOfShift(q * (256 * k), r, w);
    DivModParts(r, w);
    var d: nat := r / w;
    assert q * (256 * k) == q * k * 256 by { MulAssociates(q, k, 256); }
    RemainderOfShift(q * k, d, 256);
  }

  /** Counting modulo 2^64 does not change the last eight digits. */
  lemma LengthDigitSame(bits: nat, i: nat)
    requires i < 8
    ensures bits / Pow256(i) % 256 == bits % TWO64 / Pow256(i) % 256
  {
    PowSplit(8 - i, i);
    assert Pow256(8) == TWO64;
    DigitOfRemainder(bits, Pow256(7 - i), Pow256(i), TWO64);
  }

  lemma BitsModulo(length: nat)
    ensures length % TWO64 * 8 % TWO64 == 8 * length % TWO64
  {
    var q, r := length / TWO64, length % TWO64;
    assert 8 * length == 8 * q * TWO64 + r * 8;
    RemainderOfShift(8 * q, r * 8, TWO64);
  }

  lemma LengthDigits(length: nat, totalLen: nat, totalBits: nat)
    requires totalLen == length % TWO64 && totalBits == totalLen * 8 % TWO64
    ensures Digits(totalBits, 8) == Digits(8 * length, 8)
  {
    BitsModulo(length);
    var a, b := Digits(totalBits, 8), Digits(8 * length, 8);
    forall j | 0 <= j < 8 ensures a[j] == b[j] {
      DigitAt(totalBits, 8, j);
      DigitAt(8 * length, 8, j);
      LengthDigitSame(8 * length, 7 - j);
    }
  }

  method UpdateAll(sha1: SHA1, pieces: seq<seq<Byte>>)
    requires sha1.Valid()
    modifies sha1`blockLen, sha1`totalLen, sha1`message, sha1.digest, sha1.block
    ensures sha1.Valid() && sha1.message == old(sha1.message) + Flatten(pieces, |pieces|)
  {
    ghost var before := sha1.message;
    var i := 0;
    assert before + Flatten(pieces, 0) == before;
    while i < |pieces|
      invariant 0 <= i <= |pieces| && sha1.Valid() && sha1.message == before + Flatten(pieces, i)
    {
      sha1.Update(pieces[i]);
      assert before + Flatten(pieces, i) + pieces[i] == before + Flatten(pieces, i + 1);
      i := i + 1;
    }
  }

  /** However a message is cut into pieces, the pieces hash like the whole. */
  method HashPieces(pieces: seq<seq<Byte>>) returns (out: seq<Byte>)
    ensures out == Hash(Flatten(pieces, |pieces|))
  {
    var sha1 := new SHA1();
    UpdateAll(sha1, pieces);
    assert [] + Flatten(pieces, |pieces|) == Flatten(pieces, |pieces|);
    out := sha1.Final();
  }

  function Flatten(pieces: seq<seq<Byte>>, n: nat): seq<Byte>
    requires n <= |pieces|
  {
    if n == 0 then [] else Flatten(pieces, n - 1) + pieces[n - 1]
  }

  method AddTo(digest: array<Word>, v: Digest)
    requires digest.Length == 5
    modifies digest
    ensures Digest(digest[0], digest[1], digest[2], digest[3], digest[4])
         == Plus(old(Digest(digest[0], digest[1], digest[2], digest[3], digest[4])), v)
  {
    var sum := Plus(Digest(digest[0], digest[1], digest[2], digest[3], digest[4]), v);
    digest[0] := sum.h0;
    digest[1] := sum.h1;
    digest[2] := sum.h2;
    digest[3] := sum.h3;
    digest[4] := sum.h4;
  }

  method MakeSchedule(block: array<Byte>) returns (words: seq<Word>)
    requires block.Length == BLOCK
    ensures words == Schedule(block[..], 80)
  {
    ghost var bytes := block[..];
    var w := new Word[80];
    var i := 0;
    while i < 80
      invariant 0 <= i <= 80 && block[..] == bytes && w[..i] == Schedule(bytes, i)
    {
      var word := NextWord(block, w, i);
      w[i] := word;
      assert w[..i + 1] == w[..i] + [word];
      i := i + 1;
    }
    words := w[..];
    assert words == w[..i];
  }

  method NextWord(block: array<Byte>, w: array<Word>, i: nat) returns (word: Word)
    requires block.Length == BLOCK && w.Length == 80 && i < 80
    ensures word == ScheduleWord(block[..], w[..i])
  {
    if i < 16 {
      word := WordOf(block[4 * i], block[4 * i + 1], block[4 * i + 2], block[4 * i + 3]);
    } else {
      var temp := w[i - 3] ^ w[i - 8] ^ w[i - 14] ^ w[i - 16];
      word := RotL(temp, 1);
    }
  }

  method AllRounds(h: Digest, w: seq<Word>) returns (v: Digest)
    requires |w| == 80
    ensures v == Rounds(h, w, 80)
  {
    var a, b, c, d, e := h.h0, h.h1, h.h2, h.h3, h.h4;
    var i := 0;
    while i < 80
      invariant 0 <= i <= 80 && Digest(a, b, c, d, e) == Rounds(h, w, i)
    {
      var f, k := RoundFunction(i, b, c, d);
      var temp := Mix(a, f, e, k, w[i]);
      e := d;
      d := c;
      c := RotL(b, 30);
      b := a;
      a := temp;
      i := i + 1;
    }
    v := Digest(a, b, c, d, e);
  }

  /** Round function and constant, in the program's own forms. */
  method RoundFunction(i: nat, b: Word, c: Word, d: Word) returns (f: Word, k: Word)
    ensures f == F(i, b, c, d) && k == K(i)
  {
    if i < 20 {
      f := ChByOr(b, c, d);
      k := 0x5a827999;
    } else if i < 40 {
      f, k := Parity(b, c, d), 0x6ed9eba1;
    } else if i < 60 {
      f := MajByOr(b, c, d);
      k := 0x8f1bbcdc;
    } else {
      f, k := Parity(b, c, d), 0xca62c1d6;
    }
  }
}
