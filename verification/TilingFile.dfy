/**
 The file of a tuned tiling: the bytes of the tiling data as 32-bit words in decimal, then a
 mark and the performance. Reading the line restores the bytes, whatever their number.
 */
module TilingFile {
  import opened Options
  import opened Arithmetic
  import opened Text

  type Byte = x: int | 0 <= x < 256

  const WORDS: int := 0x1_0000_0000

  /** The number with 32 bits that a cast to `int32_t` gives. */
  function ToInt32(x: int): (w: int)
    ensures -0x8000_0000 <= w < 0x8000_0000
  {
    (x + 0x8000_0000) % WORDS - 0x8000_0000
  }

  // ---------- bytes and words ----------

  /** A byte of the data, or 0 behind its end. */
  function ByteAt(bytes: seq<Byte>, k: nat): Byte {
    if k < |bytes| then bytes[k] else 0
  }

  /** Four bytes in memory order, least significant first, as an unsigned and as a signed number. */
  function Unsigned(bytes: seq<Byte>, i: nat): (u: nat)
    ensures u < WORDS
  {
    ByteAt(bytes, 4 * i) + 0x100 * ByteAt(bytes, 4 * i + 1)
    + 0x1_0000 * ByteAt(bytes, 4 * i + 2) + 0x100_0000 * ByteAt(bytes, 4 * i + 3)
  }

  function WordCount(size: nat): nat {
    (size + 3) / 4
  }

  /** The first `n` words of the data, the last one filled up with zeros. */
  function Pack(bytes: seq<Byte>, n: nat): (words: seq<int>)
    ensures |words| == n
  {
    if n == 0 then [] else Pack(bytes, n - 1) + [ToInt32(Unsigned(bytes, n - 1))]
  }

  /** Byte `j` of a word in memory. */
  function ByteOfWord(w: int, j: nat): Byte
    requires j < 4
  {
    var u := w % WORDS;
    if j == 0 then u % 256 else if j == 1 then u / 0x100 % 256 else if j == 2 then u / 0x1_0000 % 256 else u / 0x100_0000
  }

  /** The first `n` bytes of the words in memory. */
  function Unpack(words: seq<int>, n: nat): (bytes: seq<Byte>)
    requires n <= 4 * |words|
    ensures |bytes| == n
  {
    if n == 0 then [] else Unpack(words, n - 1) + [ByteOfWord(words[(n - 1) / 4], (n - 1) % 4)]
  }

  lemma FourBytes(a: Byte, b: Byte, c: Byte, d: Byte)
    ensures var u := a + 0x100 * b + 0x1_0000 * c + 0x100_0000 * d;
            && u % 256 == a && u / 0x100 % 256 == b && u / 0x1_0000 % 256 == c && u / 0x100_0000 == d
  {
    var u := a + 0x100 * b + 0x1_0000 * c + 0x100_0000 * d;
    DivModUnique(u, 0x100, b + 0x100 * c + 0x1_0000 * d, a);
    DivModUnique(b + 0x100 * c + 0x1_0000 * d, 0x100, c + 0x100 * d, b);
    DivModUnique(u, 0x1_0000, c + 0x100 * d, a + 0x100 * b);
    DivModUnique(c + 0x100 * d, 0x100, d, c);
    DivModUnique(u, 0x100_0000, d, a + 0x100 * b + 0x1_0000 * c);
  }

  lemma Int32Bits(u: nat)
    requires u < WORDS
    ensures ToInt32(u) % WORDS == u
  {
  }

  lemma PackedByte(bytes: seq<Byte>, i: nat, j: nat)
    requires j < 4
    ensures ByteOfWord(ToInt32(Unsigned(bytes, i)), j) == ByteAt(bytes, 4 * i + j)
  {
    Int32Bits(Unsigned(bytes, i));
    FourBytes(ByteAt(bytes, 4 * i), ByteAt(bytes, 4 * i + 1), ByteAt(bytes, 4 * i + 2), ByteAt(bytes, 4 * i + 3));
  }

  lemma {:induction false} PackAt(bytes: seq<Byte>, n: nat, i: nat)
    requires i < n
    ensures Pack(bytes, n)[i] == ToInt32(Unsigned(bytes, i))
  {
    if i < n - 1 { PackAt(bytes, n - 1, i); }
  }

  lemma {:induction false} UnpackAt(words: seq<int>, n: nat, i: nat, j: nat)
    requires j < 4 && 4 * i + j < n <= 4 * |words|
    ensures Unpack(words, n)[4 * i + j] == ByteOfWord(words[i], j)
  {
    if 4 * i + j < n - 1 {
      UnpackAt(words, n - 1, i, j);
    } else {
      assert (n - 1) / 4 == i && (n - 1) % 4 == j;
    }
  }

  lemma PackedAt(bytes: seq<Byte>, n: nat, i: nat, j: nat)
    requires j < 4 && 4 * i + j < |bytes| <= 4 * n
    ensures Unpack(Pack(bytes, n), |bytes|)[4 * i + j] == bytes[4 * i + j]
  {
    UnpackAt(Pack(bytes, n), |bytes|, i, j);
    PackAt(bytes, n, i);
    PackedByte(bytes, i, j);
  }

  lemma FourParts(k: nat) returns (i: nat, j: nat)
    ensures j < 4 && k == 4 * i + j
  {
    i, j := k / 4, k % 4;
  }

  lemma EnoughWords(size: nat)
    ensures size <= 4 * WordCount(size)
  {
  }

  lemma PackRoundTrip(bytes: seq<Byte>)
    ensures |bytes| <= 4 * WordCount(|bytes|)
    ensures Unpack(Pack(bytes, WordCount(|bytes|)), |bytes|) == bytes
  {
    EnoughWords(|bytes|);
    PackedAll(bytes, WordCount(|bytes|));
  }

  lemma PackedAll(bytes: seq<Byte>, n: nat)
    requires |bytes| <= 4 * n
    ensures Unpack(Pack(bytes, n), |bytes|) == bytes
  {
    forall k | 0 <= k < |bytes| ensures Unpack(Pack(bytes, n), |bytes|)[k] == bytes[k] {
      var i, j := FourParts(k);
      PackedAt(bytes, n, i, j);
    }
  }

  // ---------- words and text ----------

  function WordsText(words: seq<int>): Text {
    if words == [] then [] else IntText(words[0]) + ([' '] + WordsText(words[1..]))
  }

  /** What saving writes into the line. */
  function SavedLine(bytes: seq<Byte>, perf: Text): Text {
    WordsText(Pack(bytes, WordCount(|bytes|))) + ("# " + perf)
  }

  datatype Scanned = Nothing | Value(n: int, rest: Text)

  /** The digits at the start of a text, as a 64-bit number. */
  function ScanDigits(s: Text, negative: bool): (r: Scanned)
    ensures r.Value? ==> |r.rest| < |s|
  {
    var rest := SkipDigitsOf(s);
    if |rest| == |s| then Nothing
    else
      SkipWhileSuffix(s, IsDigit);
      var value: int := ReadDecimal(s[..|s| - |rest|]);
      if negative && value <= -INT64_MIN then Value(-value, rest)
      else if !negative && value <= INT64_MAX then Value(value, rest)
      else Nothing
  }

  /** One `>>` into a 64-bit integer: spaces, an optional sign, and digits. */
  function ScanInt(s: Text): (r: Scanned)
    ensures r.Value? ==> |r.rest| < |s|
  {
    var t := SkipWhile(s, IsLibrarySpace);
    if t != [] && (t[0] == '-' || t[0] == '+') then ScanDigits(t[1..], t[0] == '-') else ScanDigits(t, false)
  }

  /** All numbers up to the first thing that is none. */
  function ScanNumbers(s: Text): seq<int>
    decreases |s|
  {
    var r := ScanInt(s);
    if r.Nothing? then [] else [r.n] + ScanNumbers(r.rest)
  }

  function Cast(numbers: seq<int>): (words: seq<int>)
    ensures |words| == |numbers|
  {
    if numbers == [] then [] else Cast(numbers[..|numbers| - 1]) + [ToInt32(numbers[|numbers| - 1])]
  }

  /** The part of a line before its first mark. */
  function BeforeMark(line: Text): Text {
    if line == [] || line[0] == '#' then [] else [line[0]] + BeforeMark(line[1..])
  }

  function Resized(words: seq<int>, n: nat): (r: seq<int>)
    ensures |r| == n
  {
    if n <= |words| then words[..n] else words + ZeroWords(n - |words|)
  }

  function ZeroWords(n: nat): (r: seq<int>)
    ensures |r| == n
  {
    if n == 0 then [] else ZeroWords(n - 1) + [0]
  }

  /** What loading makes of a line, for tiling data of a given size. */
  function LoadedBytes(line: Text, size: nat): (bytes: seq<Byte>)
    ensures |bytes| == size
  {
    Unpack(Resized(Cast(ScanNumbers(BeforeMark(line))), WordCount(size)), size)
  }

  // ---------- the program ----------

  method PgoSaveTilingKey(bytes: seq<Byte>, perf: Text) returns (line: Text)
    ensures line == SavedLine(bytes, perf)
  {
    var words := Pack(bytes, WordCount(|bytes|));
    var printed := PrintWords(words);
    line := printed + ("# " + perf);
  }

  method PrintWords(words: seq<int>) returns (line: Text)
    ensures line == WordsText(words)
  {
    line := [];
    var i := 0;
    assert [] + WordsText(words) == WordsText(words) && words[0..] == words;
    while i < |words|
      invariant 0 <= i <= |words| && line + WordsText(words[i..]) == WordsText(words)
    {
      Append(line, IntText(words[i]), [' '], WordsText(words[i + 1..]));
      assert words[i..][1..] == words[i + 1..];
      line := line + IntText(words[i]) + [' '];
      i := i + 1;
    }
    assert words[i..] == [] && line + [] == line;
  }

  lemma Append(a: Text, b: Text, c: Text, d: Text)
    ensures a + (b + (c + d)) == a + b + c + d
  {
  }

  method LoadLine(line: Text, size: nat) returns (bytes: seq<Byte>)
    ensures bytes == LoadedBytes(line, size)
  {
    var cut := CutAtMark(line);
    var words := ReadWords(cut);
    bytes := Unpack(Resized(words, WordCount(size)), size);
  }

  method ReadWords(s: Text) returns (words: seq<int>)
    ensures words == Cast(ScanNumbers(s))
  {
    words := [];
    ghost var numbers := [];
    var rest := s;
    var r := ScanInt(rest);
    while r.Value?
      invariant r == ScanInt(rest) && numbers + ScanNumbers(rest) == ScanNumbers(s) && words == Cast(numbers)
      decreases |rest|
    {
      words := words + [ToInt32(r.n)];
      numbers := numbers + [r.n];
      rest := r.rest;
      r := ScanInt(rest);
    }
    assert numbers + [] == numbers;
  }

  method CutAtMark(line: Text) returns (cut: Text)
    ensures cut == BeforeMark(line)
  {
    var i := 0;
    assert line[..0] == [] && line[0..] == line;
    while i < |line| && line[i] != '#'
      invariant 0 <= i <= |line| && line[..i] + BeforeMark(line[i..]) == BeforeMark(line)
    {
      assert line[i..][1..] == line[i + 1..];
      assert line[..i] + ([line[i]] + BeforeMark(line[i + 1..])) == line[..i + 1] + BeforeMark(line[i + 1..]);
      i := i + 1;
    }
    assert line[..i] + [] == line[..i];
    cut := line[..i];
  }

  /** The content of the file: its first line as a number, and the saved line. */
  datatype File = File(flag: int, line: Text)

  /** The reader keeps the tiling after the first read if the file's flag is 1. */
  class Reader {
    var bestConfig: int
    var bestTiling: seq<Byte>

    constructor ()
      ensures bestConfig == 0
    {
      bestConfig, bestTiling := 0, [];
    }

    method PGOGetTilingKey(file: Option<File>, size: nat) returns (bytes: Option<seq<Byte>>)
      modifies this
      ensures old(bestConfig) != 0 ==> bytes == Some(old(bestTiling))
      ensures old(bestConfig) == 0 && file.None? ==> bytes == None
      ensures old(bestConfig) == 0 && file.Some? ==> bytes == Some(LoadedBytes(file.value.line, size))
      ensures if old(bestConfig) == 0 && file.Some? && file.value.flag == 1
              then bestConfig == 1 && bytes == Some(bestTiling)
              else bestConfig == old(bestConfig) && bestTiling == old(bestTiling)
    {
      if bestConfig != 0 {
        return Some(bestTiling);
      }
      if file.None? {
        return None;
      }
      var loaded := LoadLine(file.value.line, size);
      if file.value.flag == 1 {
        bestTiling := loaded;
        bestConfig := file.value.flag;
      }
      bytes := Some(loaded);
    }
  }

  // ---------- reading back what was saved ----------

  predicate NoMark(s: Text) {
    forall i | 0 <= i < |s| :: s[i] != '#'
  }

  lemma {:induction false} CutSaved(s: Text, more: Text)
    requires NoMark(s)
    ensures BeforeMark(s + ("# " + more)) == s
  {
    var all := s + ("# " + more);
    if s != [] {
      assert all[1..] == s[1..] + ("# " + more);
      CutSaved(s[1..], more);
      assert [s[0]] + s[1..] == s;
    }
  }

  lemma {:induction false} WordsTextNoMark(words: seq<int>)
    ensures NoMark(WordsText(words))
  {
    if words != [] {
      IntTextNoMark(words[0]);
      WordsTextNoMark(words[1..]);
    }
  }

  lemma IntTextNoMark(n: int)
    ensures NoMark(IntText(n))
  {
    IntTextDigits(n);
  }

  predicate InInt32(x: int) {
    -0x8000_0000 <= x < 0x8000_0000
  }

  /** Printed digits before a space are read back. */
  lemma ScanPrintedDigits(n: nat, negative: bool, more: Text)
    requires if negative then n <= -INT64_MIN else n <= INT64_MAX
    requires more == [] || !IsDigit(more[0])
    ensures ScanDigits(Decimal(n) + more, negative) == Value(if negative then 0 - n else n, more)
  {
    var s := Decimal(n) + more;
    SkipWhileExact(Decimal(n), more, IsDigit);
    SkipWhileSuffix(s, IsDigit);
    assert s[..|s| - |more|] == Decimal(n);
    DecimalRoundTrip(n);
  }

  lemma ScanUnsigned(s: Text)
    requires s != [] && IsDigit(s[0])
    ensures ScanInt(s) == ScanDigits(s, false)
  {
  }

  lemma ScanNegative(s: Text)
    ensures ScanInt(['-'] + s) == ScanDigits(s, true)
  {
    assert (['-'] + s)[1..] == s;
  }

  /** A printed number before a space is read back. */
  lemma ScanPrinted(n: int, more: Text)
    requires InInt32(n) && (more == [] || !IsDigit(more[0]))
    ensures ScanInt(IntText(n) + more) == Value(n, more)
  {
    if n < 0 {
      ScanPrintedDigits(-n, true, more);
      assert IntText(n) + more == ['-'] + (Decimal(-n) + more);
      ScanNegative(Decimal(-n) + more);
    } else {
      ScanPrintedDigits(n, false, more);
      assert Decimal(n)[0] in Decimal(n);
      ScanUnsigned(Decimal(n) + more);
    }
  }

  lemma {:induction false} ScanSaved(words: seq<int>)
    requires forall i | 0 <= i < |words| :: InInt32(words[i])
    ensures ScanNumbers(WordsText(words)) == words
  {
    if words != [] {
      var rest := WordsText(words[1..]);
      ScanPrinted(words[0], [' '] + rest);
      ScanSaved(words[1..]);
    }
  }

  lemma {:induction false} CastNothing(words: seq<int>)
    requires forall i | 0 <= i < |words| :: InInt32(words[i])
    ensures Cast(words) == words
  {
    if words != [] { CastNothing(words[..|words| - 1]); }
  }

  /** Loading a saved line restores the bytes. */
  lemma SaveThenLoad(bytes: seq<Byte>, perf: Text)
    ensures LoadedBytes(SavedLine(bytes, perf), |bytes|) == bytes
  {
    var words := Pack(bytes, WordCount(|bytes|));
    forall i | 0 <= i < |words| ensures InInt32(words[i]) {
      PackAt(bytes, WordCount(|bytes|), i);
    }
    WordsTextNoMark(words);
    CutSaved(WordsText(words), perf);
    ScanSaved(words);
    CastNothing(words);
    assert words[..|words|] == words;
    PackRoundTrip(bytes);
  }
}
