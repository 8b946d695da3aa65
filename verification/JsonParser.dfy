/**
 The recursive-descent parser: first as functions from a text to a value and the text that
 is left, then as the object that moves a position through a text. A failure stands for
 the exception that the program throws.
 */
module JsonParser {
  import opened Options
  import opened Text
  import opened Json

  datatype Parsed = Fail | Done(value: Json, rest: Text)

  datatype Chars = BadChars | Chars(s: Text, rest: Text)

  // ---------- strings ----------

  predicate IsHexDigit(c: char) {
    IsDigit(c) || 'a' <= c <= 'f' || 'A' <= c <= 'F'
  }

  function HexValue(c: char): (d: nat)
    requires IsHexDigit(c)
    ensures d < 16
  {
    if IsDigit(c) then DigitOf(c) else if 'a' <= c then c as int - 'a' as int + 10 else c as int - 'A' as int + 10
  }

  /** The number spelled by the leading hexadecimal digits. */
  function ReadHex(s: Text, value: nat): nat {
    if s == [] || !IsHexDigit(s[0]) then value else ReadHex(s[1..], 16 * value + HexValue(s[0]))
  }

  /** `std::stoul` to the base 16, cut to 32 bits: spaces, a sign and a prefix are skipped, and what follows the
      digits is ignored. */
  function Stoul16(s: Text): (code: Option<nat>)
    ensures code.Some? ==> code.value < 0x1_0000_0000
  {
    var t := SkipWhile(s, IsLibrarySpace);
    var negative := t != [] && t[0] == '-';
    var u := if t != [] && (t[0] == '-' || t[0] == '+') then t[1..] else t;
    var v := if |u| >= 3 && u[0] == '0' && (u[1] == 'x' || u[1] == 'X') && IsHexDigit(u[2]) then u[2..] else u;
    if v == [] || !IsHexDigit(v[0]) then None
    else
      var value: int := if negative then 0 - ReadHex(v, 0) else ReadHex(v, 0);
      Some(value % 0x1_0000_0000)
  }

  /** The bytes for a code point; of more than four hexadecimal digits only the low bits survive. */
  function Utf8(code: nat): Text {
    if code < 0x80 then [code as char]
    else if code < 0x800 then [(0xc0 + code / 0x40) as char, (0x80 + code % 0x40) as char]
    else [(0xe0 + code / 0x1000 % 0x20) as char, (0x80 + code / 0x40 % 0x40) as char, (0x80 + code % 0x40) as char]
  }

  function Unescaped(c: char): Option<char> {
    match c
    case '"' => Some('"')
    case '\\' => Some('\\')
    case '/' => Some('/')
    case 'b' => Some(8 as char)
    case 'f' => Some(12 as char)
    case 'n' => Some('\n')
    case 'r' => Some('\r')
    case 't' => Some('\t')
    case _ => None
  }

  function Prepend(s: Text, c: Chars): Chars {
    if c.BadChars? then c else Chars(s + c.s, c.rest)
  }

  /** One escape sequence at the start of `s`: what it stands for and what is left. */
  function EscapeOf(s: Text): (c: Chars)
    requires s != [] && s[0] == '\\'
    ensures c.Chars? ==> |c.rest| < |s|
  {
    if |s| == 1 then BadChars
    else if s[1] == 'u' then
      if |s| <= 5 || Stoul16(s[2..6]).None? then BadChars else Chars(Utf8(Stoul16(s[2..6]).value), s[6..])
    else if Unescaped(s[1]).None? then BadChars
    else Chars([Unescaped(s[1]).value], s[2..])
  }

  /** The characters up to the closing quote. */
  function CharsOf(s: Text): (c: Chars)
    ensures c.Chars? ==> |c.rest| < |s|
    decreases |s|
  {
    if s == [] then BadChars
    else if s[0] == '"' then Chars([], s[1..])
    else if s[0] == '\\' then
      var e := EscapeOf(s);
      if e.BadChars? then BadChars else Prepend(e.s, CharsOf(e.rest))
    else Prepend([s[0]], CharsOf(s[1..]))
  }

  function StringOf(s: Text): (c: Chars)
    ensures c.Chars? ==> |c.rest| < |s|
  {
    if s == [] || s[0] != '"' then BadChars else CharsOf(s[1..])
  }

  lemma PrependTwice(a: Text, b: Text, c: Chars)
    ensures Prepend(a, Prepend(b, c)) == Prepend(a + b, c)
  {
    if c.Chars? { assert a + (b + c.s) == a + b + c.s; }
  }

  // ---------- numbers ----------

  function AfterSign(s: Text): (r: Text)
    ensures |r| <= |s|
  {
    if s != [] && s[0] == '-' then s[1..] else s
  }

  function AfterFraction(s: Text): (r: Text)
    ensures |r| <= |s|
  {
    if s != [] && s[0] == '.' then SkipDigitsOf(s[1..]) else s
  }

  function AfterExponent(s: Text): (r: Text)
    ensures |r| <= |s|
  {
    if s == [] || (s[0] != 'e' && s[0] != 'E') then s
    else if |s| > 1 && (s[1] == '+' || s[1] == '-') then SkipDigitsOf(s[2..])
    else SkipDigitsOf(s[1..])
  }

  /** What `std::stod` asks for: a digit before the exponent. */
  predicate HasMantissa(literal: Text) {
    var a := AfterSign(literal);
    (a != [] && IsDigit(a[0])) || (|a| > 1 && a[0] == '.' && IsDigit(a[1]))
  }

  lemma LiteralDigits(s: Text, n: nat)
    requires s != [] && (s[0] == '-' || IsDigit(s[0])) && n == |s| - |SkipDigitsOf(AfterSign(s))|
    ensures forall i | 1 <= i < n :: IsDigit(s[i])
  {
    var a := AfterSign(s);
    SkipWhileSuffix(a, IsDigit);
    forall i | 1 <= i < n ensures IsDigit(s[i]) {
      assert s[i] == a[i - (|s| - |a|)];
    }
  }

  function AfterNumber(s: Text): (r: Text)
    requires s != [] && (s[0] == '-' || IsDigit(s[0]))
    ensures |r| < |s|
  {
    AfterExponent(AfterFraction(SkipDigitsOf(AfterSign(s))))
  }

  lemma LiteralRead(str: Text, start: nat, pos: nat)
    requires start <= pos <= |str|
    ensures str[start..pos] == str[start..][..|str[start..]| - |str[pos..]|]
  {
  }

  predicate IntLiteral(literal: Text) {
    && (literal == [] || literal[0] == '-' || IsDigit(literal[0]))
    && forall i | 1 <= i < |literal| :: IsDigit(literal[i])
  }

  function LiteralValue(literal: Text, isFloat: bool): Option<Json>
    requires !isFloat ==> IntLiteral(literal)
  {
    if isFloat then if HasMantissa(literal) then Some(Float(literal)) else None
    else
      var n := ReadInt64(literal);
      if n.None? then None else Some(Int(n.value))
  }

  /** A literal without fraction and exponent is an integer. */
  function NumberOf(s: Text): (r: Parsed)
    requires s != [] && (s[0] == '-' || IsDigit(s[0]))
    ensures r.Done? ==> |r.rest| < |s|
  {
    var rest := AfterNumber(s);
    var literal, isFloat := s[..|s| - |rest|], |rest| != |SkipDigitsOf(AfterSign(s))|;
    LiteralDigits(s, |s| - |SkipDigitsOf(AfterSign(s))|);
    var value := LiteralValue(literal, isFloat);
    if value.None? then Fail else Done(value.value, rest)
  }

  // ---------- values ----------

  predicate StartsWith(s: Text, prefix: Text) {
    |prefix| <= |s| && s[..|prefix|] == prefix
  }

  /** `object[key] = value`, in the order of the keys. */
  function Insert(members: seq<Member>, key: Text, value: Json): seq<Member> {
    if members == [] || TextLess(key, members[0].key) then [Member(key, value)] + members
    else if key == members[0].key then [Member(key, value)] + members[1..]
    else [members[0]] + Insert(members[1..], key, value)
  }

  function ValueOf(s: Text): (r: Parsed)
    ensures r.Done? ==> |r.rest| < |s|
    decreases |s|, 1
  {
    var t := SkipSpaces(s);
    if t == [] then Fail
    else if t[0] == 'n' then if StartsWith(t, "null") then Done(Null, t[4..]) else Fail
    else if t[0] == 't' || t[0] == 'f' then
      if StartsWith(t, "true") then Done(Bool(true), t[4..])
      else if StartsWith(t, "false") then Done(Bool(false), t[5..])
      else Fail
    else if t[0] == '"' then
      var c := StringOf(t);
      if c.BadChars? then Fail else Done(Str(c.s), c.rest)
    else if t[0] == '[' then ArrayOf(t)
    else if t[0] == '{' then ObjectOf(t)
    else if t[0] == '-' || IsDigit(t[0]) then NumberOf(t)
    else Fail
  }

  function ArrayOf(s: Text): (r: Parsed)
    requires s != []
    ensures r.Done? ==> |r.rest| < |s|
    decreases |s|, 0
  {
    var u := SkipSpaces(s[1..]);
    if u != [] && u[0] == ']' then Done(Arr([]), u[1..]) else ItemsOf(u, [])
  }

  function ObjectOf(s: Text): (r: Parsed)
    requires s != []
    ensures r.Done? ==> |r.rest| < |s|
    decreases |s|, 0
  {
    var u := SkipSpaces(s[1..]);
    if u != [] && u[0] == '}' then Done(Obj([]), u[1..]) else MembersOf(u, [])
  }

  /** The rest of an array, after the items `before`. */
  function ItemsOf(s: Text, before: seq<Json>): (r: Parsed)
    ensures r.Done? ==> |r.rest| < |s|
    decreases |s|, 2
  {
    var item := ValueOf(s);
    if item.Fail? then Fail
    else
      var u, items := SkipSpaces(item.rest), before + [item.value];
      if u != [] && u[0] == ']' then Done(Arr(items), u[1..])
      else if u != [] && u[0] == ',' then ItemsOf(u[1..], items)
      else Fail
  }

  /** A key with its colon. */
  function KeyOf(s: Text): (c: Chars)
    ensures c.Chars? ==> |c.rest| < |s|
  {
    var t := SkipSpaces(s);
    var c := StringOf(t);
    if c.BadChars? then c
    else
      var u := SkipSpaces(c.rest);
      if u != [] && u[0] == ':' then Chars(c.s, u[1..]) else BadChars
  }

  /** The rest of an object, after the members `before`. */
  function MembersOf(s: Text, before: seq<Member>): (r: Parsed)
    ensures r.Done? ==> |r.rest| < |s|
    decreases |s|, 2
  {
    var key := KeyOf(s);
    if key.BadChars? then Fail
    else
      var value := ValueOf(key.rest);
      if value.Fail? then Fail
      else
        var u, members := SkipSpaces(value.rest), Insert(before, key.s, value.value);
        if u != [] && u[0] == '}' then Done(Obj(members), u[1..])
        else if u != [] && u[0] == ',' then MembersOf(u[1..], members)
        else Fail
  }

  /** What a whole text stands for; text after the value is ignored. */
  function ParsedText(s: Text): Option<Json> {
    var r := ValueOf(s);
    if r.Fail? then None else Some(r.value)
  }

  // ---------- the parser ----------

  /** The outcome of a parsing method: the value, or nothing for an exception. */
  predicate Agrees(spec: Parsed, value: Option<Json>, rest: Text) {
    match spec
    case Fail => value.None?
    case Done(v, r) => value == Some(v) && rest == r
  }

  predicate AgreesText(spec: Chars, value: Option<Text>, rest: Text) {
    match spec
    case BadChars => value.None?
    case Chars(s, r) => value == Some(s) && rest == r
  }

  class Parser {
    const str: Text
    var pos: nat

    constructor (s: Text)
      ensures str == s && pos <= |str| && str[pos..] == SkipSpaces(s)
    {
      str := s;
      pos := 0;
      new;
      assert str[0..] == str;
      SkipWhitespace();
    }

    predicate Valid()
      reads this
    {
      pos <= |str|
    }

    /** The text that is left. */
    function Rest(): Text
      requires Valid()
      reads this
    {
      str[pos..]
    }

    method SkipWhitespace()
      requires Valid()
      modifies this
      ensures Valid() && Rest() == SkipSpaces(old(Rest())) && old(pos) <= pos
    {
      while pos < |str| && IsSpace(str[pos])
        invariant Valid() && old(pos) <= pos && SkipSpaces(Rest()) == SkipSpaces(old(Rest()))
      {
        assert Rest()[1..] == str[pos + 1..];
        pos := pos + 1;
      }
    }

    /** The next character; '\0' at the end. */
    function Peek(): char
      requires Valid()
      reads this
    {
      if pos >= |str| then '\0' else str[pos]
    }

    method Consume() returns (c: char)
      requires Valid()
      modifies this
      ensures Valid() && c == old(Peek())
      ensures Rest() == if old(Rest()) == [] then [] else old(Rest())[1..]
      ensures old(pos) < |str| ==> pos == old(pos) + 1
    {
      if pos >= |str| {
        return '\0';
      }
      c := str[pos];
      pos := pos + 1;
    }

    method SkipDigits()
      requires Valid()
      modifies this
      ensures Valid() && Rest() == SkipDigitsOf(old(Rest())) && old(pos) <= pos
    {
      while pos < |str| && IsDigit(str[pos])
        invariant Valid() && old(pos) <= pos && SkipDigitsOf(Rest()) == SkipDigitsOf(old(Rest()))
      {
        assert Rest()[1..] == str[pos + 1..];
        pos := pos + 1;
      }
    }

    /** Moves past a word if it comes next. */
    method Accept(word: Text) returns (ok: bool)
      requires Valid()
      modifies this
      ensures Valid() && ok == StartsWith(old(Rest()), word)
      ensures Rest() == if ok then old(Rest())[|word|..] else old(Rest())
      ensures pos == if ok then old(pos) + |word| else old(pos)
    {
      ok := pos + |word| <= |str| && str[pos..pos + |word|] == word;
      assert pos + |word| <= |str| ==> Rest()[..|word|] == str[pos..pos + |word|];
      if ok {
        pos := pos + |word|;
      }
    }

    method ParseNull() returns (value: Option<Json>)
      requires Valid()
      modifies this
      ensures Valid()
      ensures Agrees(if StartsWith(old(Rest()), "null") then Done(Null, old(Rest())[4..]) else Fail, value, Rest())
    {
      var ok := Accept("null");
      value := if ok then Some(Null) else None;
    }

    method ParseBoolean() returns (value: Option<Json>)
      requires Valid()
      modifies this
      ensures Valid()
      ensures var s := old(Rest());
              Agrees(if StartsWith(s, "true") then Done(Bool(true), s[4..])
                     else if StartsWith(s, "false") then Done(Bool(false), s[5..]) else Fail, value, Rest())
    {
      var ok := Accept("true");
      if ok {
        return Some(Bool(true));
      }
      ok := Accept("false");
      value := if ok then Some(Bool(false)) else None;
    }

    /** Moves past a fraction, if there is one. */
    method SkipFraction() returns (found: bool)
      requires Valid()
      modifies this
      ensures Valid() && old(pos) <= pos && Rest() == AfterFraction(old(Rest()))
      ensures found <==> Rest() != old(Rest())
    {
      found := false;
      if pos < |str| && str[pos] == '.' {
        found := true;
        assert Rest()[1..] == str[pos + 1..];
        pos := pos + 1;
        SkipDigits();
      }
    }

    /** Moves past an exponent, if there is one. */
    method SkipExponent() returns (found: bool)
      requires Valid()
      modifies this
      ensures Valid() && old(pos) <= pos && Rest() == AfterExponent(old(Rest()))
      ensures found <==> Rest() != old(Rest())
    {
      found := false;
      if pos < |str| && (str[pos] == 'e' || str[pos] == 'E') {
        found := true;
        assert Rest()[1..] == str[pos + 1..];
        pos := pos + 1;
        if pos < |str| && (str[pos] == '+' || str[pos] == '-') {
          assert old(Rest())[2..] == str[pos + 1..];
          pos := pos + 1;
        }
        SkipDigits();
      }
    }

    /** Moves past a number literal. */
    method SkipNumber() returns (isFloat: bool)
      requires Valid() && Rest() != [] && (Rest()[0] == '-' || IsDigit(Rest()[0]))
      modifies this
      ensures Valid() && old(pos) < pos && Rest() == AfterNumber(old(Rest()))
      ensures isFloat <==> |AfterNumber(old(Rest()))| != |SkipDigitsOf(AfterSign(old(Rest())))|
    {
      ghost var s := Rest();
      if Peek() == '-' {
        var _ := Consume();
      }
      assert Rest() == AfterSign(s);
      SkipDigits();
      var fraction := SkipFraction();
      var exponent := SkipExponent();
      isFloat := fraction || exponent;
    }

    method ParseNumber() returns (value: Option<Json>)
      requires Valid() && Rest() != [] && (Rest()[0] == '-' || IsDigit(Rest()[0]))
      modifies this
      ensures Valid() && Agrees(NumberOf(old(Rest())), value, Rest())
    {
      var start := pos;
      ghost var s := Rest();
      var isFloat := SkipNumber();
      var literal := str[start..pos];
      LiteralRead(str, start, pos);
      LiteralDigits(s, |s| - |SkipDigitsOf(AfterSign(s))|);
      value := LiteralValue(literal, isFloat);
    }

    /** Reads one escape sequence. */
    method ReadEscape() returns (text: Option<Text>)
      requires Valid() && Rest() != [] && Rest()[0] == '\\'
      modifies this
      ensures Valid() && AgreesText(EscapeOf(old(Rest())), text, Rest())
    {
      ghost var s := Rest();
      pos := pos + 1;
      if pos >= |str| {
        return None;
      }
      var c := str[pos];
      if c == 'u' {
        if pos + 4 >= |str| {
          return None;
        }
        var hex := str[pos + 1..pos + 5];
        assert hex == s[2..6] && str[pos + 5..] == s[6..];
        var code := Stoul16(hex);
        if code.None? {
          return None;
        }
        pos := pos + 5;
        return Some(Utf8(code.value));
      }
      if Unescaped(c).None? {
        return None;
      }
      pos := pos + 1;
      assert Rest() == s[2..];
      text := Some([Unescaped(c).value]);
    }

    method ParseString() returns (text: Option<Text>)
      requires Valid()
      modifies this
      ensures Valid() && AgreesText(StringOf(old(Rest())), text, Rest())
    {
      var c := Consume();
      if c != '"' {
        return None;
      }
      ghost var s := Rest();
      var result := [];
      while pos < |str| && str[pos] != '"'
        invariant Valid() && CharsOf(s) == Prepend(result, CharsOf(Rest()))
        decreases |str| - pos
      {
        ghost var here := Rest();
        var more;
        if str[pos] == '\\' {
          var unescaped := ReadEscape();
          if unescaped.None? {
            return None;
          }
          more := unescaped.value;
        } else {
          more := [str[pos]];
          pos := pos + 1;
          assert Rest() == here[1..];
        }
        PrependTwice(result, more, CharsOf(Rest()));
        result := result + more;
      }
      if pos >= |str| {
        return None;
      }
      var _ := Consume();
      assert result + [] == result;
      text := Some(result);
    }

    method ParseValue() returns (value: Option<Json>)
      requires Valid()
      modifies this
      ensures Valid() && Agrees(ValueOf(old(Rest())), value, Rest())
      ensures value.Some? ==> old(pos) < pos
      decreases |str| - pos, 1
    {
      SkipWhitespace();
      if pos >= |str| {
        return None;
      }
      var c := str[pos];
      if c == 'n' {
        value := ParseNull();
      } else if c == 't' || c == 'f' {
        value := ParseBoolean();
      } else if c == '"' {
        var text := ParseString();
        value := if text.None? then None else Some(Str(text.value));
      } else if c == '[' {
        value := ParseArray();
      } else if c == '{' {
        value := ParseObject();
      } else if c == '-' || IsDigit(c) {
        value := ParseNumber();
      } else {
        value := None;
      }
    }

    method ParseArray() returns (value: Option<Json>)
      requires Valid() && Rest() != [] && Rest()[0] == '['
      modifies this
      ensures Valid() && Agrees(ArrayOf(old(Rest())), value, Rest())
      decreases |str| - pos, 0
    {
      var _ := Consume();
      SkipWhitespace();
      if Peek() == ']' {
        var _ := Consume();
        return Some(Arr([]));
      }
      var items: seq<Json> := [];
      while true
        invariant Valid() && old(pos) < pos && ArrayOf(old(Rest())) == ItemsOf(Rest(), items)
        decreases |str| - pos
      {
        var item := ParseValue();
        if item.None? {
          return None;
        }
        items := items + [item.value];
        SkipWhitespace();
        if Peek() == ']' {
          var _ := Consume();
          return Some(Arr(items));
        }
        if Peek() != ',' {
          return None;
        }
        var _ := Consume();
      }
    }

    method ReadKey() returns (key: Option<Text>)
      requires Valid()
      modifies this
      ensures Valid() && AgreesText(KeyOf(old(Rest())), key, Rest())
    {
      SkipWhitespace();
      key := ParseString();
      if key.None? {
        return None;
      }
      SkipWhitespace();
      var c := Consume();
      if c != ':' {
        return None;
      }
    }

    method ParseObject() returns (value: Option<Json>)
      requires Valid() && Rest() != [] && Rest()[0] == '{'
      modifies this
      ensures Valid() && Agrees(ObjectOf(old(Rest())), value, Rest())
      decreases |str| - pos, 0
    {
      var _ := Consume();
      SkipWhitespace();
      if Peek() == '}' {
        var _ := Consume();
        return Some(Obj([]));
      }
      var members: seq<Member> := [];
      while true
        invariant Valid() && old(pos) < pos && ObjectOf(old(Rest())) == MembersOf(Rest(), members)
        decreases |str| - pos
      {
        var key := ReadKey();
        if key.None? {
          return None;
        }
        var member := ParseValue();
        if member.None? {
          return None;
        }
        members := Insert(members, key.value, member.value);
        SkipWhitespace();
        if Peek() == '}' {
          var _ := Consume();
          return Some(Obj(members));
        }
        if Peek() != ',' {
          return None;
        }
        var _ := Consume();
      }
    }

    method Parse() returns (value: Option<Json>)
      requires Valid()
      modifies this
      ensures Valid() && value == ParsedText(old(Rest()))
    {
      if pos >= |str| {
        return None;
      }
      value := ParseValue();
    }
  }

  /** Parses a whole text. */
  method ParseText(s: Text) returns (value: Option<Json>)
    ensures value == ParsedText(s)
  {
    var parser := new Parser(s);
    SkipMoreSpaces([], s);
    value := parser.Parse();
  }
}
