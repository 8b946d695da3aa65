/** Parsing what was printed gives the value back, for every layout. */
module JsonRoundTrip {
  import opened Options
  import opened Text
  import opened Json
  import opened JsonParser

  // ---------- which values survive ----------

  /** A key that is printed as it is survives only without quotes and backslashes. */
  predicate PlainKey(key: Text) {
    forall i | 0 <= i < |key| :: key[i] != '"' && key[i] != '\\'
  }

  predicate Sorted(members: seq<Member>) {
    forall i, j | 0 <= i < j < |members| :: TextLess(members[i].key, members[j].key)
  }

  /** No floating-point numbers, integers of 64 bits, and objects with plain keys. */
  predicate Plain(v: Json) {
    match v
    case Int(n) => INT64_MIN <= n <= INT64_MAX
    case Float(_) => false
    case Arr(items) => forall i | 0 <= i < |items| :: Plain(items[i])
    case Obj(members) =>
      && Sorted(members)
      && forall i | 0 <= i < |members| :: PlainKey(members[i].key) && Plain(members[i].value)
    case _ => true
  }

  /** A text that cannot continue a number. */
  predicate EndsNumber(s: Text) {
    s == [] || (!IsDigit(s[0]) && s[0] != '.' && s[0] != 'e' && s[0] != 'E')
  }

  // ---------- strings ----------

  lemma ControlCode(c: char)
    requires c as int < 0x20
    ensures var hex := ['0', '0', HexDigit(c as int / 16), HexDigit(c as int % 16)];
            Stoul16(hex) == Some(c as int)
  {
    var a, b := HexDigit(c as int / 16), HexDigit(c as int % 16);
    var hex := ['0', '0', a, b];
    assert IsHexDigit(a) && IsHexDigit(b) && HexValue(a) == c as int / 16 && HexValue(b) == c as int % 16;
    assert hex[1..] == ['0', a, b] && ['0', a, b][1..] == [a, b] && [a, b][1..] == [b] && [b][1..] == [];
    assert ReadHex([b], c as int / 16) == c as int;
    assert ReadHex([a, b], 0) == ReadHex([b], c as int / 16);
    assert ReadHex(['0', a, b], 0) == ReadHex([a, b], 0);
    assert ReadHex(hex, 0) == ReadHex(['0', a, b], 0);
  }

  /** What an escaped character is printed as is read back as the character. */
  lemma EscapedChar(c: char, rest: Text)
    requires |EscapeChar(c)| > 1
    ensures EscapeOf(EscapeChar(c) + rest) == Chars([c], rest)
  {
    var s := EscapeChar(c) + rest;
    if |EscapeChar(c)| == 2 {
      assert s[2..] == rest;
    } else {
      ControlCode(c);
      assert s[6..] == rest && s[2..6] == ['0', '0', HexDigit(c as int / 16), HexDigit(c as int % 16)];
    }
  }

  /** An escaped character starts with a backslash; another one is no quote and no backslash. */
  lemma EscapeStart(c: char)
    ensures |EscapeChar(c)| > 1 ==> EscapeChar(c)[0] == '\\'
    ensures |EscapeChar(c)| <= 1 ==> EscapeChar(c) == [c] && c != '"' && c != '\\'
  {
  }

  lemma CharsOfEscape(s: Text, c: char, more: Text)
    requires s != [] && s[0] == '\\' && EscapeOf(s) == Chars([c], more)
    ensures CharsOf(s) == Prepend([c], CharsOf(more))
  {
  }

  lemma CharsOfRaw(c: char, more: Text)
    requires c != '"' && c != '\\'
    ensures CharsOf([c] + more) == Prepend([c], CharsOf(more))
  {
    assert ([c] + more)[1..] == more;
  }

  lemma OneChar(c: char, more: Text)
    ensures CharsOf(EscapeChar(c) + more) == Prepend([c], CharsOf(more))
  {
    EscapeStart(c);
    if |EscapeChar(c)| > 1 {
      EscapedChar(c, more);
      CharsOfEscape(EscapeChar(c) + more, c, more);
    } else {
      CharsOfRaw(c, more);
    }
  }

  lemma ClosingQuote(rest: Text)
    ensures CharsOf("\"" + rest) == Chars([], rest)
  {
    assert ("\"" + rest)[1..] == rest;
  }

  lemma QuoteStep(a: Text, b: Text, rest: Text)
    ensures a + b + "\"" + rest == a + (b + "\"" + rest)
  {
  }

  lemma {:induction false} EscapedText(s: Text, rest: Text)
    ensures CharsOf(Escape(s) + "\"" + rest) == Chars(s, rest)
  {
    if s == [] {
      assert Escape(s) + "\"" + rest == "\"" + rest;
      ClosingQuote(rest);
    } else {
      EscapedText(s[1..], rest);
      OneChar(s[0], Escape(s[1..]) + "\"" + rest);
      QuoteStep(EscapeChar(s[0]), Escape(s[1..]), rest);
      assert [s[0]] + s[1..] == s;
    }
  }

  lemma {:induction false} KeyRead(key: Text, rest: Text)
    requires PlainKey(key)
    ensures CharsOf(key + "\"" + rest) == Chars(key, rest)
  {
    var all := key + "\"" + rest;
    if key == [] {
      assert all == "\"" + rest && all[1..] == rest;
    } else {
      KeyRead(key[1..], rest);
      assert all[1..] == key[1..] + "\"" + rest;
      assert [key[0]] + key[1..] == key;
    }
  }

  // ---------- numbers ----------

  lemma {:induction false} SkipDigitsExact(a: Text, b: Text)
    requires forall c | c in a :: IsDigit(c)
    requires b == [] || !IsDigit(b[0])
    ensures SkipDigitsOf(a + b) == b
  {
    SkipWhileExact(a, b, IsDigit);
  }

  lemma AfterDigits(digits: Text, rest: Text)
    requires digits != [] && (forall c | c in digits :: IsDigit(c)) && EndsNumber(rest)
    ensures SkipDigitsOf(digits + rest) == rest && AfterExponent(AfterFraction(rest)) == rest
  {
    SkipDigitsExact(digits, rest);
  }

  lemma AfterPrintedSign(n: int, rest: Text)
    ensures AfterSign(IntText(n) + rest) == Decimal(if n < 0 then -n else n) + rest
  {
    if n < 0 { AfterMinus(Decimal(-n), rest); } else { AfterNoSign(Decimal(n), rest); }
  }

  lemma AfterMinus(digits: Text, rest: Text)
    ensures AfterSign(['-'] + digits + rest) == digits + rest
  {
    assert (['-'] + digits + rest)[1..] == digits + rest;
  }

  lemma AfterNoSign(digits: Text, rest: Text)
    requires digits != [] && forall c | c in digits :: IsDigit(c)
    ensures AfterSign(digits + rest) == digits + rest
  {
    assert digits[0] in digits;
  }

  /** A printed integer ends where its digits end. */
  lemma AfterPrintedInt(n: int, rest: Text)
    requires EndsNumber(rest)
    ensures var s := IntText(n) + rest;
            SkipDigitsOf(AfterSign(s)) == rest && AfterNumber(s) == rest && s[..|s| - |rest|] == IntText(n)
  {
    AfterPrintedSign(n, rest);
    AfterDigits(Decimal(if n < 0 then -n else n), rest);
  }

  lemma PrintedInt(n: int, rest: Text)
    requires INT64_MIN <= n <= INT64_MAX && EndsNumber(rest)
    ensures NumberOf(IntText(n) + rest) == Done(Int(n), rest)
  {
    IntTextDigits(n);
    Int64RoundTrip(n);
    AfterPrintedInt(n, rest);
  }

  // ---------- objects ----------

  lemma {:induction false} InsertLast(members: seq<Member>, key: Text, value: Json)
    requires forall i | 0 <= i < |members| :: TextLess(members[i].key, key)
    ensures Insert(members, key, value) == members + [Member(key, value)]
  {
    if members != [] {
      TextLessIrreflexive(key);
      NotBothLess(key, members[0].key);
      InsertLast(members[1..], key, value);
      assert members == [members[0]] + members[1..];
    }
  }

  lemma NotBothLess(a: Text, b: Text)
    requires TextLess(b, a)
    ensures !TextLess(a, b) && a != b
  {
    TextLessIrreflexive(a);
    if TextLess(a, b) { TextLessTransitive(a, b, a); }
  }

  // ---------- spaces between the parts ----------

  predicate Blank(s: Text) {
    forall c | c in s :: IsSpace(c)
  }

  lemma LayoutBlank(l: Layout)
    ensures Blank(Margin(l)) && Blank(Lead(l)) && Blank(NewLine(l))
  {
  }

  lemma ValueAfterBlank(blank: Text, s: Text)
    requires Blank(blank)
    ensures ValueOf(blank + s) == ValueOf(s)
  {
    SkipMoreSpaces(blank, s);
  }

  /** Blanks before a character that is none. */
  lemma BlankThen(blank: Text, c: char, s: Text)
    requires Blank(blank) && !IsSpace(c)
    ensures SkipSpaces(blank + [c] + s) == [c] + s
  {
    SkipMoreSpaces(blank, [c] + s);
    assert blank + [c] + s == blank + ([c] + s);
  }

  lemma BlankStart(blank: Text, s: Text)
    requires Blank(blank) && EndsNumber(s)
    ensures EndsNumber(blank + s)
  {
    if blank == [] {
      assert blank + s == s;
    } else {
      assert blank[0] in blank;
    }
  }

  lemma ItemsAfterBlank(blank: Text, s: Text, before: seq<Json>)
    requires Blank(blank)
    ensures ItemsOf(blank + s, before) == ItemsOf(s, before)
  {
    ValueAfterBlank(blank, s);
  }

  lemma MembersAfterBlank(blank: Text, s: Text, before: seq<Member>)
    requires Blank(blank)
    ensures MembersOf(blank + s, before) == MembersOf(s, before)
  {
    SkipMoreSpaces(blank, s);
  }

  // ---------- arrays ----------

  /** A printed array from item `i` on, with what follows the array. */
  function ItemsText(v: Json, i: nat, l: Layout, rest: Text): Text
    requires v.Arr? && i <= |v.items|
  {
    PrintItems(v, i, l) + (Margin(l) + "]" + rest)
  }

  /** What stands between item `i` and the end. */
  function AfterItem(v: Json, i: nat, l: Layout, rest: Text): Text
    requires v.Arr? && i < |v.items|
  {
    Trail(i, |v.items|, l) + ItemsText(v, i + 1, l, rest)
  }

  lemma ItemsTextStep(v: Json, i: nat, l: Layout, rest: Text)
    requires v.Arr? && i < |v.items|
    ensures ItemsText(v, i, l, rest) == Lead(l) + (Print(v.items[i], Deeper(l)) + AfterItem(v, i, l, rest))
  {
    var d, t, p, e := Print(v.items[i], Deeper(l)), Trail(i, |v.items|, l), PrintItems(v, i + 1, l), Margin(l) + "]" + rest;
  }

  lemma Closing(a: Text, b: Text, c: Text, rest: Text)
    ensures a + (b + c + rest) == a + b + c + rest == a + b + (c + rest)
  {
  }

  lemma AfterLastItem(v: Json, i: nat, l: Layout, rest: Text)
    requires v.Arr? && i + 1 == |v.items|
    ensures SkipSpaces(AfterItem(v, i, l, rest)) == "]" + rest && EndsNumber(AfterItem(v, i, l, rest))
  {
    LayoutBlank(l);
    var blank := NewLine(l) + Margin(l);
    assert Trail(i, |v.items|, l) == NewLine(l) && ItemsText(v, i + 1, l, rest) == Margin(l) + "]" + rest;
    Closing(NewLine(l), Margin(l), "]", rest);
    BlankThen(blank, ']', rest);
    BlankStart(blank, "]" + rest);
  }

  lemma AfterEarlierItem(v: Json, i: nat, l: Layout, rest: Text)
    requires v.Arr? && i + 1 < |v.items|
    ensures var s := AfterItem(v, i, l, rest);
            && s != [] && s[0] == ',' && s[1..] == NewLine(l) + ItemsText(v, i + 1, l, rest)
            && SkipSpaces(s) == s && EndsNumber(s)
  {
  }

  lemma {:induction false} ItemsRead(v: Json, i: nat, l: Layout, rest: Text)
    requires Plain(v) && v.Arr? && i < |v.items|
    ensures ItemsOf(ItemsText(v, i, l, rest), v.items[..i]) == Done(v, rest)
    decreases v, 0, |v.items| - i
  {
    var item, after := v.items[i], AfterItem(v, i, l, rest);
    ItemsTextStep(v, i, l, rest);
    LayoutBlank(l);
    ValueAfterBlank(Lead(l), Print(item, Deeper(l)) + after);
    PrefixSnoc(v.items, i);
    if i + 1 == |v.items| {
      AfterLastItem(v, i, l, rest);
      RoundTrip(item, Deeper(l), after);
      assert v.items[..i + 1] == v.items && ("]" + rest)[1..] == rest;
    } else {
      AfterEarlierItem(v, i, l, rest);
      RoundTrip(item, Deeper(l), after);
      ItemsAfterBlank(NewLine(l), ItemsText(v, i + 1, l, rest), v.items[..i + 1]);
      ItemsRead(v, i + 1, l, rest);
    }
  }

  // ---------- objects ----------

  function MembersText(v: Json, i: nat, l: Layout, rest: Text): Text
    requires v.Obj? && i <= |v.members|
  {
    PrintMembers(v, i, l) + (Margin(l) + "}" + rest)
  }

  function AfterMember(v: Json, i: nat, l: Layout, rest: Text): Text
    requires v.Obj? && i < |v.members|
  {
    Trail(i, |v.members|, l) + MembersText(v, i + 1, l, rest)
  }

  lemma MembersTextStep(v: Json, i: nat, l: Layout, rest: Text)
    requires v.Obj? && i < |v.members|
    ensures var m := v.members[i];
            MembersText(v, i, l, rest)
            == Lead(l) + (KeyText(m.key, l) + (Print(m.value, Deeper(l)) + AfterMember(v, i, l, rest)))
  {
    var m := v.members[i];
    var d, t, p := Print(m.value, Deeper(l)), Trail(i, |v.members|, l), PrintMembers(v, i + 1, l);
    var e := Margin(l) + "}" + rest;
    Reassociate(Lead(l), KeyText(m.key, l), d, t, p, e);
  }

  lemma Reassociate(a: Text, b: Text, c: Text, d: Text, e: Text, f: Text)
    ensures a + b + c + d + e + f == a + (b + (c + (d + (e + f))))
  {
    Join(a + b + c + d, e, f);
    Join(a + b + c, d, e + f);
    Join(a + b, c, d + (e + f));
    Join(a, b, c + (d + (e + f)));
  }

  lemma Join(a: Text, b: Text, c: Text)
    ensures a + b + c == a + (b + c)
  {
  }

  lemma AfterLastMember(v: Json, i: nat, l: Layout, rest: Text)
    requires v.Obj? && i + 1 == |v.members|
    ensures SkipSpaces(AfterMember(v, i, l, rest)) == "}" + rest && EndsNumber(AfterMember(v, i, l, rest))
  {
    LayoutBlank(l);
    var blank := NewLine(l) + Margin(l);
    assert Trail(i, |v.members|, l) == NewLine(l) && MembersText(v, i + 1, l, rest) == Margin(l) + "}" + rest;
    Closing(NewLine(l), Margin(l), "}", rest);
    BlankThen(blank, '}', rest);
    BlankStart(blank, "}" + rest);
  }

  lemma AfterEarlierMember(v: Json, i: nat, l: Layout, rest: Text)
    requires v.Obj? && i + 1 < |v.members|
    ensures var s := AfterMember(v, i, l, rest);
            && s != [] && s[0] == ',' && s[1..] == NewLine(l) + MembersText(v, i + 1, l, rest)
            && SkipSpaces(s) == s && EndsNumber(s)
  {
  }

  /** A printed key is read back, up to the blank after its colon. */
  lemma PrintedKey(key: Text, l: Layout, rest: Text)
    requires PlainKey(key)
    ensures KeyOf(KeyText(key, l) + rest) == Chars(key, (if l.indent > 0 then " " else "") + rest)
  {
    var blank: Text := if l.indent > 0 then " " else "";
    var s := KeyText(key, l) + rest;
    var colon := ":" + (blank + rest);
    assert s == "\"" + (key + "\"" + colon);
    assert s[1..] == key + "\"" + colon;
    KeyRead(key, colon);
    assert colon[1..] == blank + rest;
  }

  /** Reading one printed member, given that its value is read back up to `after`. */
  lemma PrintedMember(before: seq<Member>, m: Member, l: Layout, value: Text, after: Text)
    requires PlainKey(m.key) && Insert(before, m.key, m.value) == before + [m]
    requires ValueOf(value) == Done(m.value, after)
    ensures var s, u := Lead(l) + (KeyText(m.key, l) + value), SkipSpaces(after);
            u != [] ==>
              && (u[0] == '}' ==> MembersOf(s, before) == Done(Obj(before + [m]), u[1..]))
              && (u[0] == ',' ==> MembersOf(s, before) == MembersOf(u[1..], before + [m]))
  {
    var blank: Text := if l.indent > 0 then " " else "";
    LayoutBlank(l);
    MembersAfterBlank(Lead(l), KeyText(m.key, l) + value, before);
    PrintedKey(m.key, l, value);
    ValueAfterBlank(blank, value);
  }

  lemma PrefixSnoc<T>(xs: seq<T>, i: nat)
    requires i < |xs|
    ensures xs[..i] + [xs[i]] == xs[..i + 1]
  {
  }

  /** Reading member `i`, given that its value is read back. */
  lemma MemberRead(v: Json, i: nat, l: Layout, rest: Text)
    requires Plain(v) && v.Obj? && i < |v.members|
    requires var m, after := v.members[i], AfterMember(v, i, l, rest);
             ValueOf(Print(m.value, Deeper(l)) + after) == Done(m.value, after)
    ensures var u := SkipSpaces(AfterMember(v, i, l, rest));
            u != [] ==>
              && (u[0] == '}' ==> MembersOf(MembersText(v, i, l, rest), v.members[..i]) == Done(Obj(v.members[..i + 1]), u[1..]))
              && (u[0] == ',' ==> MembersOf(MembersText(v, i, l, rest), v.members[..i]) == MembersOf(u[1..], v.members[..i + 1]))
  {
    var m, after := v.members[i], AfterMember(v, i, l, rest);
    MembersTextStep(v, i, l, rest);
    InsertLast(v.members[..i], m.key, m.value);
    PrintedMember(v.members[..i], m, l, Print(m.value, Deeper(l)) + after, after);
    PrefixSnoc(v.members, i);
  }

  lemma {:induction false} MembersRead(v: Json, i: nat, l: Layout, rest: Text)
    requires Plain(v) && v.Obj? && i < |v.members|
    ensures MembersOf(MembersText(v, i, l, rest), v.members[..i]) == Done(v, rest)
    decreases v, 0, |v.members| - i
  {
    var m, after := v.members[i], AfterMember(v, i, l, rest);
    LayoutBlank(l);
    if i + 1 == |v.members| {
      AfterLastMember(v, i, l, rest);
      RoundTrip(m.value, Deeper(l), after);
      MemberRead(v, i, l, rest);
      assert v.members[..i + 1] == v.members && ("}" + rest)[1..] == rest;
    } else {
      AfterEarlierMember(v, i, l, rest);
      RoundTrip(m.value, Deeper(l), after);
      MemberRead(v, i, l, rest);
      MembersAfterBlank(NewLine(l), MembersText(v, i + 1, l, rest), v.members[..i + 1]);
      MembersRead(v, i + 1, l, rest);
    }
  }

  // ---------- values ----------

  lemma PrintedWord(word: Text, rest: Text)
    requires word == "null" || word == "true" || word == "false"
    ensures ValueOf(word + rest) == Done(if word == "null" then Null else Bool(word == "true"), rest)
  {
    var s := word + rest;
    assert s[..|word|] == word && s[|word|..] == rest;
  }

  lemma PrintedString(text: Text, rest: Text)
    ensures ValueOf("\"" + Escape(text) + "\"" + rest) == Done(Str(text), rest)
  {
    var s := "\"" + Escape(text) + "\"" + rest;
    assert s[1..] == Escape(text) + "\"" + rest;
    EscapedText(text, rest);
  }

  lemma NumberComesNext(s: Text, t: Text)
    requires t == SkipSpaces(s) && t != [] && (t[0] == '-' || IsDigit(t[0]))
    ensures ValueOf(s) == NumberOf(t)
  {
    assert t[0] != 'n' && t[0] != 't' && t[0] != 'f' && t[0] != '"' && t[0] != '[' && t[0] != '{';
  }

  lemma ValueIsNumber(s: Text)
    requires s != [] && (s[0] == '-' || IsDigit(s[0]))
    ensures ValueOf(s) == NumberOf(s)
  {
    NumberComesNext(s, s);
  }

  lemma PrintedNumber(n: int, rest: Text)
    requires INT64_MIN <= n <= INT64_MAX && EndsNumber(rest)
    ensures ValueOf(IntText(n) + rest) == Done(Int(n), rest)
  {
    PrintedInt(n, rest);
    ValueIsNumber(IntText(n) + rest);
  }

  /** No printed value starts with a blank or a closing bracket. */
  lemma PrintStart(v: Json, l: Layout)
    requires Plain(v)
    ensures Print(v, l) != [] && !IsSpace(Print(v, l)[0]) && Print(v, l)[0] != ']'
  {
  }

  /** An array that opens with blanks before its first item. */
  lemma OpenArray(blank: Text, s: Text)
    requires Blank(blank) && s != [] && !IsSpace(s[0]) && s[0] != ']'
    ensures ValueOf("[" + (blank + s)) == ItemsOf(s, [])
  {
    var t := "[" + (blank + s);
    assert t[1..] == blank + s;
    SkipMoreSpaces(blank, s);
  }

  lemma OpenObject(blank: Text, s: Text)
    requires Blank(blank) && s != [] && !IsSpace(s[0]) && s[0] != '}'
    ensures ValueOf("{" + (blank + s)) == MembersOf(s, [])
  {
    var t := "{" + (blank + s);
    assert t[1..] == blank + s;
    SkipMoreSpaces(blank, s);
  }

  lemma PrintedArray(v: Json, l: Layout, rest: Text)
    requires Plain(v) && v.Arr? && v.items != []
    requires ItemsOf(ItemsText(v, 0, l, rest), v.items[..0]) == Done(v, rest)
    ensures ValueOf(Print(v, l) + rest) == Done(v, rest)
  {
    var first := Print(v.items[0], Deeper(l)) + AfterItem(v, 0, l, rest);
    LayoutBlank(l);
    ItemsTextStep(v, 0, l, rest);
    PrintStart(v.items[0], Deeper(l));
    OpenArray(NewLine(l) + Lead(l), first);
    ItemsAfterBlank(Lead(l), first, v.items[..0]);
    ArrayText(v, l, rest, first);
  }

  lemma ArrayText(v: Json, l: Layout, rest: Text, first: Text)
    requires v.Arr? && v.items != [] && ItemsText(v, 0, l, rest) == Lead(l) + first
    ensures Print(v, l) + rest == "[" + (NewLine(l) + Lead(l) + first)
  {
    Enclose("[", NewLine(l), PrintItems(v, 0, l), Margin(l), "]", rest, Lead(l), first);
  }

  lemma Enclose(open: Text, newLine: Text, body: Text, margin: Text, close: Text, rest: Text, lead: Text, first: Text)
    requires body + (margin + close + rest) == lead + first
    ensures open + newLine + body + margin + close + rest == open + (newLine + lead + first)
  {
    Join(open + newLine + body + margin, close, rest);
    Join(margin, close, rest);
    Join(newLine, lead, first);
  }

  lemma PrintedObject(v: Json, l: Layout, rest: Text)
    requires Plain(v) && v.Obj? && v.members != []
    requires MembersOf(MembersText(v, 0, l, rest), v.members[..0]) == Done(v, rest)
    ensures ValueOf(Print(v, l) + rest) == Done(v, rest)
  {
    var m := v.members[0];
    var first := KeyText(m.key, l) + (Print(m.value, Deeper(l)) + AfterMember(v, 0, l, rest));
    LayoutBlank(l);
    MembersTextStep(v, 0, l, rest);
    OpenObject(NewLine(l) + Lead(l), first);
    MembersAfterBlank(Lead(l), first, v.members[..0]);
    ObjectText(v, l, rest, first);
  }

  lemma ObjectText(v: Json, l: Layout, rest: Text, first: Text)
    requires v.Obj? && v.members != [] && MembersText(v, 0, l, rest) == Lead(l) + first
    ensures Print(v, l) + rest == "{" + (NewLine(l) + Lead(l) + first)
  {
    Enclose("{", NewLine(l), PrintMembers(v, 0, l), Margin(l), "}", rest, Lead(l), first);
  }

  lemma PrintedEmpty(l: Layout, rest: Text)
    ensures ValueOf("[]" + rest) == Done(Arr([]), rest)
    ensures ValueOf("{}" + rest) == Done(Obj([]), rest)
  {
    var a, o := "[]" + rest, "{}" + rest;
    assert a[1..][1..] == rest && o[1..][1..] == rest;
  }

  /** Parsing a printed value, followed by anything that cannot continue a number, returns the value and stops there. */
  lemma {:induction false} RoundTrip(v: Json, l: Layout, rest: Text)
    requires Plain(v) && EndsNumber(rest)
    ensures ValueOf(Print(v, l) + rest) == Done(v, rest)
    decreases v, 1, 0
  {
    match v
    case Null => PrintedWord("null", rest);
    case Bool(b) => PrintedWord(if b then "true" else "false", rest);
    case Int(n) => PrintedNumber(n, rest);
    case Str(s) => PrintedString(s, rest);
    case Arr(items) =>
      if items == [] {
        PrintedEmpty(l, rest);
      } else {
        ItemsRead(v, 0, l, rest);
        PrintedArray(v, l, rest);
      }
    case Obj(members) =>
      if members == [] {
        PrintedEmpty(l, rest);
      } else {
        MembersRead(v, 0, l, rest);
        PrintedObject(v, l, rest);
      }
  }

  /** parse(dump(v, indent)) == v. */
  lemma DumpThenParse(v: Json, indent: int)
    requires Plain(v)
    ensures ParsedText(Print(v, Layout(indent, 0))) == Some(v)
  {
    RoundTrip(v, Layout(indent, 0), []);
    assert Print(v, Layout(indent, 0)) + [] == Print(v, Layout(indent, 0));
  }

  // ---------- keys that do not survive ----------

  /** How many characters were read before the closing quote. */
  function ReadLength(s: Text): int
    requires CharsOf(s).Chars?
  {
    |s| - |CharsOf(s).rest| - 1
  }

  lemma HeadTail(s: Text, n: int)
    requires 0 < n <= |s|
    ensures s[..n] == [s[0]] + s[1..][..n - 1]
  {
  }

  /** What is read up to a closing quote is no longer than what was read, and as long only without escapes. */
  lemma {:induction false} CharsCost(s: Text)
    requires CharsOf(s).Chars?
    ensures var n := ReadLength(s);
            && 0 <= n < |s| && s[n] == '"' && |CharsOf(s).s| <= n
            && (|CharsOf(s).s| == n ==> PlainKey(s[..n]))
    decreases |s|
  {
    if s[0] == '\\' {
      var e := EscapeOf(s);
      CharsCost(e.rest);
      assert s[ReadLength(s)] == e.rest[ReadLength(e.rest)];
    } else if s[0] != '"' {
      CharsCost(s[1..]);
      var n := ReadLength(s);
      assert ReadLength(s[1..]) == n - 1;
      HeadTail(s, n);
    }
  }

  /** The printed form of a key is read back as the key exactly if the key is plain. */
  lemma KeyLiteral(key: Text, rest: Text)
    ensures CharsOf(key + "\"" + rest) == Chars(key, rest) <==> PlainKey(key)
  {
    var s := key + "\"" + rest;
    if CharsOf(s).Chars? { CharsCost(s); }
    assert s[..|key|] == key;
    if PlainKey(key) { KeyRead(key, rest); }
  }

  predicate HasKey(members: seq<Member>, key: Text) {
    exists i :: 0 <= i < |members| && members[i].key == key
  }

  lemma {:induction false} InsertKeeps(members: seq<Member>, key: Text, value: Json, k: Text)
    requires HasKey(members, k) || k == key
    ensures HasKey(Insert(members, key, value), k)
  {
    var after := Insert(members, key, value);
    if k == key && (members == [] || TextLess(key, members[0].key) || key == members[0].key) {
      assert after[0].key == k;
    } else if HasKey(members, k) && (members == [] || TextLess(key, members[0].key) || key == members[0].key) {
      var i :| 0 <= i < |members| && members[i].key == k;
      assert after[if TextLess(key, members[0].key) then i + 1 else i].key == k;
    } else if members[0].key == k {
      assert after[0].key == k;
    } else {
      if HasKey(members, k) {
        var i :| 0 <= i < |members| && members[i].key == k;
        assert members[1..][i - 1].key == k;
      }
      InsertKeeps(members[1..], key, value, k);
      var i :| 0 <= i < |after| - 1 && after[1..][i].key == k;
      assert after[i + 1].key == k;
    }
  }

  /** Reading more members never drops a key. */
  lemma {:induction false} MembersKeep(s: Text, before: seq<Member>, k: Text)
    requires MembersOf(s, before).Done?
    requires HasKey(before, k) || KeyOf(s).s == k
    ensures var v := MembersOf(s, before).value; v.Obj? && HasKey(v.members, k)
    decreases |s|
  {
    var key := KeyOf(s);
    var value := ValueOf(key.rest);
    InsertKeeps(before, key.s, value.value, k);
    var u, members := SkipSpaces(value.rest), Insert(before, key.s, value.value);
    if u[0] == ',' {
      MembersKeep(u[1..], members, k);
    }
  }

  /** Around a value that prints without quotes, an object of one member survives exactly if its key is plain. */
  lemma OneMemberSurvives(key: Text, value: Json, indent: int)
    requires Plain(value) && '"' !in Print(value, Layout(indent, 1))
    ensures var v := Obj([Member(key, value)]);
            ParsedText(Print(v, Layout(indent, 0))) == Some(v) <==> PlainKey(key)
  {
    var v, l := Obj([Member(key, value)]), Layout(indent, 0);
    if PlainKey(key) {
      DumpThenParse(v, indent);
    } else if ParsedText(Print(v, l)) == Some(v) {
      var first := KeyText(key, l) + (Print(value, Deeper(l)) + AfterMember(v, 0, l, []));
      LayoutBlank(l);
      MembersTextStep(v, 0, l, []);
      ObjectText(v, l, [], first);
      assert Print(v, l) + [] == Print(v, l);
      OpenObject(NewLine(l) + Lead(l), first);
      MembersKeep(first, [], KeyOf(first).s);
      OneKey(key, value, l);
    }
  }

  /** Without quotes after it, a key that is not plain is not read back. */
  lemma OnlyPlainKeys(key: Text, tail: Text)
    requires !PlainKey(key) && '"' !in tail
    ensures var c := CharsOf(key + "\"" + tail);
            c.Chars? ==> c.s != key
  {
    var s := key + "\"" + tail;
    if CharsOf(s).Chars? {
      assert forall j | |key| < j < |s| :: s[j] == tail[j - |key| - 1];
      CharsCost(s);
      assert s[..|key|] == key;
    }
  }

  /** The text of an object of one member, cut behind the opening quote of its key. */
  lemma OneKey(key: Text, value: Json, l: Layout)
    requires !PlainKey(key) && '"' !in Print(value, Deeper(l))
    ensures var v := Obj([Member(key, value)]);
            var c := KeyOf(KeyText(key, l) + (Print(value, Deeper(l)) + AfterMember(v, 0, l, [])));
            c.Chars? ==> c.s != key
  {
    var v := Obj([Member(key, value)]);
    var after, colon: Text := AfterMember(v, 0, l, []), if l.indent > 0 then ": " else ":";
    var tail := colon + (Print(value, Deeper(l)) + after);
    assert after == NewLine(l) + (Margin(l) + "}");
    OnlyPlainKeys(key, tail);
    KeyStart(key, l, Print(value, Deeper(l)) + after, colon);
  }

  lemma KeyStart(key: Text, l: Layout, more: Text, colon: Text)
    requires colon == if l.indent > 0 then ": " else ":"
    ensures StringOf(SkipSpaces(KeyText(key, l) + more)) == CharsOf(key + "\"" + (colon + more))
  {
    var s := KeyText(key, l) + more;
    assert s == "\"" + (key + "\"" + (colon + more));
    assert s[1..] == key + "\"" + (colon + more);
  }
}
