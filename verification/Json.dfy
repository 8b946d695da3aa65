/**
 JSON values and their printer. Objects list their members in the order of a `std::map`.
 Keys are printed as they are; only string values are escaped.
 */
module Json {
  import opened Text

  /** A floating-point number is kept as the text it was read from. */
  datatype Json = Null | Bool(b: bool) | Int(n: int) | Float(text: Text) | Str(s: Text)
                | Arr(items: seq<Json>) | Obj(members: seq<Member>)

  datatype Member = Member(key: Text, value: Json)

  // ---------- what is printed ----------

  function HexDigit(d: nat): char
    requires d < 16
  {
    if d < 10 then CharOf(d) else ((d - 10) + 'a' as int) as char
  }

  function EscapeChar(c: char): Text {
    if c == '"' then "\\\""
    else if c == '\\' then "\\\\"
    else if c as int == 8 then "\\b"
    else if c as int == 12 then "\\f"
    else if c == '\n' then "\\n"
    else if c == '\r' then "\\r"
    else if c == '\t' then "\\t"
    else if c as int < 0x20 then "\\u00" + [HexDigit(c as int / 16), HexDigit(c as int % 16)]
    else [c]
  }

  function Escape(s: Text): Text {
    if s == [] then [] else EscapeChar(s[0]) + Escape(s[1..])
  }

  /** How a value is laid out: with line breaks only for a positive indent. */
  datatype Layout = Layout(indent: int, level: nat)

  function Margin(l: Layout): Text {
    if l.indent > 0 then Spaces(l.level * l.indent) else []
  }

  function NewLine(l: Layout): Text {
    if l.indent > 0 then "\n" else ""
  }

  function Deeper(l: Layout): Layout {
    Layout(l.indent, l.level + 1)
  }

  /** What stands before each element. */
  function Lead(l: Layout): Text {
    if l.indent > 0 then Margin(l) + Spaces(l.indent) else []
  }

  /** What stands after element `i` of `n`. */
  function Trail(i: nat, n: nat, l: Layout): Text {
    (if i + 1 < n then "," else "") + NewLine(l)
  }

  function Print(v: Json, l: Layout): Text
    decreases v, 1, 0
  {
    match v
    case Null => "null"
    case Bool(b) => if b then "true" else "false"
    case Int(n) => IntText(n)
    case Float(text) => text
    case Str(s) => "\"" + Escape(s) + "\""
    case Arr(items) => if items == [] then "[]" else "[" + NewLine(l) + PrintItems(v, 0, l) + Margin(l) + "]"
    case Obj(members) => if members == [] then "{}" else "{" + NewLine(l) + PrintMembers(v, 0, l) + Margin(l) + "}"
  }

  /** The items from index `i` on. */
  function PrintItems(v: Json, i: nat, l: Layout): Text
    requires v.Arr? && i <= |v.items|
    decreases v, 0, |v.items| - i
  {
    if i == |v.items| then []
    else Lead(l) + Print(v.items[i], Deeper(l)) + Trail(i, |v.items|, l) + PrintItems(v, i + 1, l)
  }

  function KeyText(key: Text, l: Layout): Text {
    "\"" + key + "\":" + (if l.indent > 0 then " " else "")
  }

  function PrintMembers(v: Json, i: nat, l: Layout): Text
    requires v.Obj? && i <= |v.members|
    decreases v, 0, |v.members| - i
  {
    if i == |v.members| then []
    else
      var m := v.members[i];
      Lead(l) + KeyText(m.key, l) + Print(m.value, Deeper(l)) + Trail(i, |v.members|, l) + PrintMembers(v, i + 1, l)
  }

  // ---------- the printer ----------

  method EscapeString(s: Text) returns (result: Text)
    ensures result == Escape(s)
  {
    result := [];
    var i := 0;
    while i < |s|
      invariant 0 <= i <= |s| && result + Escape(s[i..]) == Escape(s)
    {
      var escaped := EscapeChar(s[i]);
      assert s[i..][1..] == s[i + 1..];
      assert result + (escaped + Escape(s[i + 1..])) == result + escaped + Escape(s[i + 1..]);
      result := result + escaped;
      i := i + 1;
    }
    assert s[i..] == [] && result + [] == result;
  }

  method Dump(v: Json, l: Layout) returns (out: Text)
    ensures out == Print(v, l)
    decreases v, 1
  {
    match v {
      case Null => out := "null";
      case Bool(b) => out := if b then "true" else "false";
      case Int(n) => out := IntText(n);
      case Float(text) => out := text;
      case Str(s) =>
        var escaped := EscapeString(s);
        out := "\"" + escaped + "\"";
      case Arr(items) =>
        out := "[";
        if l.indent > 0 && items != [] {
          out := out + "\n";
        }
        var elements := DumpItems(v, l);
        out := out + elements;
        if l.indent > 0 && items != [] {
          out := out + Margin(l);
        }
        out := out + "]";
      case Obj(members) =>
        out := "{";
        if l.indent > 0 && members != [] {
          out := out + "\n";
        }
        var elements := DumpMembers(v, l);
        out := out + elements;
        if l.indent > 0 && members != [] {
          out := out + Margin(l);
        }
        out := out + "}";
    }
  }

  lemma Append(a: Text, b: Text, c: Text)
    ensures a + (b + c) == a + b + c
  {
  }

  method DumpItems(v: Json, l: Layout) returns (out: Text)
    requires v.Arr?
    ensures out == PrintItems(v, 0, l)
    decreases v, 0
  {
    out := [];
    var i := 0;
    while i < |v.items|
      invariant 0 <= i <= |v.items| && out + PrintItems(v, i, l) == PrintItems(v, 0, l)
    {
      var item := Dump(v.items[i], Deeper(l));
      var more := Lead(l) + item + Trail(i, |v.items|, l);
      Append(out, more, PrintItems(v, i + 1, l));
      out := out + more;
      i := i + 1;
    }
    assert out + [] == out;
  }

  method DumpMembers(v: Json, l: Layout) returns (out: Text)
    requires v.Obj?
    ensures out == PrintMembers(v, 0, l)
    decreases v, 0
  {
    out := [];
    var i := 0;
    while i < |v.members|
      invariant 0 <= i <= |v.members| && out + PrintMembers(v, i, l) == PrintMembers(v, 0, l)
    {
      var m := v.members[i];
      var value := Dump(m.value, Deeper(l));
      var more := Lead(l) + KeyText(m.key, l) + value + Trail(i, |v.members|, l);
      Append(out, more, PrintMembers(v, i + 1, l));
      out := out + more;
      i := i + 1;
    }
    assert out + [] == out;
  }
}
