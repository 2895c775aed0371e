/** A reader of UTF-8 (RFC 3629) and of JSON texts (RFC 8259), against which the canonical encoder is checked. */
module JsonReader {
  import opened Wrappers
  import opened CanonicalJson
  import Decimal

  /** What a reader has taken from the front of a text, and what it has left. */
  datatype Reading<T> = Stuck | Got(value: T, rest: string)

  function SkipSpace(s: string): (rest: string)
    ensures |rest| <= |s|
  {
    if s != "" && s[0] in " \t\n\r" then SkipSpace(s[1..]) else s
  }

  /** The length of the run of number characters at the front. */
  function NumberSpan(s: string): (n: nat)
    ensures n <= |s|
  {
    if s == "" || !IsNumberChar(s[0]) then 0 else 1 + NumberSpan(s[1..])
  }

  function Number(token: string): Option<Json> {
    if IsInteger(token) then
      Some(Int(if token[0] == '-' then -(Decimal.Value(token[1..]) as int) else Decimal.Value(token)))
    else if IsNumber(token) then Some(Float(token))
    else None
  }

  function HexValue(c: char): Option<nat> {
    if '0' <= c <= '9' then Some(c as int - '0' as int)
    else if 'a' <= c <= 'f' then Some(10 + c as int - 'a' as int)
    else if 'A' <= c <= 'F' then Some(10 + c as int - 'A' as int)
    else None
  }

  function Hex4(s: string): (u: Option<nat>)
    requires |s| >= 4
    ensures u.Some? ==> u.value < 0x1_0000
  {
    var a, b, c, d := HexValue(s[0]), HexValue(s[1]), HexValue(s[2]), HexValue(s[3]);
    if a == None || b == None || c == None || d == None then None
    else Some(0x1000 * a.value + 0x100 * b.value + 0x10 * c.value + d.value)
  }

  /** The character that a backslash and `c` stand for. */
  function Short(c: char): Option<char> {
    if c in "\"\\/" then Some(c)
    else if c == 'b' then Some(8 as char)
    else if c == 'f' then Some(12 as char)
    else if c == 'n' then Some(10 as char)
    else if c == 'r' then Some(13 as char)
    else if c == 't' then Some(9 as char)
    else None
  }

  /** A `\u` escape, without these two characters: one code unit, or a surrogate pair. */
  function Escaped(s: string): (r: Reading<char>)
    ensures r.Got? ==> |r.rest| < |s|
  {
    if |s| < 4 || Hex4(s) == None then Stuck
    else
      var u := Hex4(s).value;
      if u < 0xD800 || u >= 0xE000 then Got(u as char, s[4..])
      else if u >= 0xDC00 || |s| < 10 || s[4] != '\\' || s[5] != 'u' || Hex4(s[6..]) == None then Stuck
      else
        var v := Hex4(s[6..]).value;
        if v < 0xDC00 || v >= 0xE000 then Stuck
        else Got((0x1_0000 + 0x400 * (u - 0xD800) + (v - 0xDC00)) as char, s[10..])
  }

  /** The first character of the rest of a string, which is not its end. */
  function FirstChar(s: string): (r: Reading<char>)
    ensures r.Got? ==> |r.rest| < |s|
  {
    if s == "" then Stuck
    else if s[0] != '\\' then Got(s[0], s[1..])
    else if |s| < 2 then Stuck
    else if s[1] == 'u' then Escaped(s[2..])
    else if Short(s[1]) == None then Stuck
    else Got(Short(s[1]).value, s[2..])
  }

  /** The rest of a string, whose opening quotation mark has been taken, with its closing one. */
  function Chars(s: string): (r: Reading<string>)
    ensures r.Got? ==> |r.rest| < |s|
  {
    if s == "" || s[0] as int < 0x20 then Stuck
    else if s[0] == '"' then Got("", s[1..])
    else
      var first := FirstChar(s);
      if first.Stuck? then Stuck
      else
        var others := Chars(first.rest);
        if others.Stuck? then Stuck else Got([first.value] + others.value, others.rest)
  }

  function Value(s: string): (r: Reading<Json>)
    ensures r.Got? ==> |r.rest| < |s|
    decreases |s|, 0
  {
    var t := SkipSpace(s);
    if t == "" then Stuck
    else if t[0] == '"' then
      var text := Chars(t[1..]);
      if text.Stuck? then Stuck else Got(Str(text.value), text.rest)
    else if t[0] == '[' then Array(SkipSpace(t[1..]))
    else if t[0] == '{' then Object(SkipSpace(t[1..]))
    else if "null" <= t then Got(Null, t[4..])
    else if "true" <= t then Got(Bool(true), t[4..])
    else if "false" <= t then Got(Bool(false), t[5..])
    else
      var n := NumberSpan(t);
      var number := Number(t[..n]);
      if n == 0 || number == None then Stuck else Got(number.value, t[n..])
  }

  /** The rest of an array, after its opening bracket. */
  function Array(s: string): (r: Reading<Json>)
    ensures r.Got? ==> |r.rest| < |s|
    decreases |s|, 2
  {
    if s != "" && s[0] == ']' then Got(List([]), s[1..])
    else
      var items := Items(s);
      if items.Stuck? then Stuck else Got(List(items.value), items.rest)
  }

  /** One or more values, with commas between them, and the closing bracket. */
  function Items(s: string): (r: Reading<seq<Json>>)
    ensures r.Got? ==> |r.rest| < |s|
    decreases |s|, 1
  {
    var item := Value(s);
    if item.Stuck? then Stuck
    else
      var t := SkipSpace(item.rest);
      if t == "" then Stuck
      else if t[0] == ']' then Got([item.value], t[1..])
      else if t[0] != ',' then Stuck
      else
        var others := Items(t[1..]);
        if others.Stuck? then Stuck else Got([item.value] + others.value, others.rest)
  }

  function Object(s: string): (r: Reading<Json>)
    ensures r.Got? ==> |r.rest| < |s|
    decreases |s|, 2
  {
    if s != "" && s[0] == '}' then Got(Obj([]), s[1..])
    else
      var members := Members(s);
      if members.Stuck? then Stuck else Got(Obj(members.value), members.rest)
  }

  function Members(s: string): (r: Reading<seq<Member>>)
    ensures r.Got? ==> |r.rest| < |s|
    decreases |s|, 1
  {
    var member := OneMember(SkipSpace(s));
    if member.Stuck? then Stuck
    else
      var t := SkipSpace(member.rest);
      if t == "" then Stuck
      else if t[0] == '}' then Got([member.value], t[1..])
      else if t[0] != ',' then Stuck
      else
        var others := Members(t[1..]);
        if others.Stuck? then Stuck else Got([member.value] + others.value, others.rest)
  }

  /** A key, a colon and a value. */
  function OneMember(s: string): (r: Reading<Member>)
    ensures r.Got? ==> |r.rest| < |s|
    decreases |s|, 0
  {
    if s == "" || s[0] != '"' then Stuck
    else
      var key := Chars(s[1..]);
      if key.Stuck? then Stuck
      else
        var t := SkipSpace(key.rest);
        if t == "" || t[0] != ':' then Stuck
        else
          var value := Value(t[1..]);
          if value.Stuck? then Stuck else Got(Member(key.value, value.value), value.rest)
  }

  /** The value of a whole text. */
  function ReadText(s: string): Option<Json> {
    var r := Value(s);
    if r.Got? && SkipSpace(r.rest) == "" then Some(r.value) else None
  }

  predicate IsContinuation(b: Byte) {
    0x80 <= b < 0xC0
  }

  /** The six bits that a continuation byte carries. */
  function Low(b: Byte): nat
    requires IsContinuation(b)
  {
    b as int - 0x80
  }

  /** The first code point, in its shortest form only, and the bytes left. */
  function DecodeOne(b: Bytes): (r: Option<(char, Bytes)>)
    ensures r.Some? ==> |r.value.1| < |b|
  {
    if b == [] then None
    else if b[0] < 0x80 then Some((b[0] as char, b[1..]))
    else if |b| < 2 || b[0] < 0xC2 || !IsContinuation(b[1]) then None
    else if b[0] < 0xE0 then Some(((0x40 * (b[0] as int - 0xC0) + Low(b[1])) as char, b[2..]))
    else if |b| < 3 || !IsContinuation(b[2]) then None
    else if b[0] < 0xF0 then
      var u := 0x1000 * (b[0] as int - 0xE0) + 0x40 * Low(b[1]) + Low(b[2]);
      if u < 0x800 || 0xD800 <= u < 0xE000 then None else Some((u as char, b[3..]))
    else if |b| < 4 || !IsContinuation(b[3]) then None
    else
      var u := 0x4_0000 * (b[0] as int - 0xF0) + 0x1000 * Low(b[1]) + 0x40 * Low(b[2]) + Low(b[3]);
      if u < 0x1_0000 || u >= 0x11_0000 then None else Some((u as char, b[4..]))
  }

  function Decode(b: Bytes): Option<string>
    decreases |b|
  {
    if b == [] then Some("")
    else
      var first := DecodeOne(b);
      if first == None then None
      else
        var others := Decode(first.value.1);
        if others == None then None else Some([first.value.0] + others.value)
  }

  function ReadBytes(b: Bytes): Option<Json> {
    var s := Decode(b);
    if s == None then None else ReadText(s.value)
  }

  /** Dividing by 0x40 twice, or three times, is dividing by its square, or its cube. */
  lemma SixBits(u: nat)
    ensures u / 0x1000 == u / 0x40 / 0x40 && u / 0x4_0000 == u / 0x40 / 0x40 / 0x40
  {
    var q := u / 0x40;
    var r := q / 0x40;
    assert u == 0x40 * q + u % 0x40 && q == 0x40 * r + q % 0x40;
    assert u == 0x1000 * r + (0x40 * (q % 0x40) + u % 0x40);
    assert r == 0x40 * (r / 0x40) + r % 0x40;
    assert u == 0x4_0000 * (r / 0x40) + (0x1000 * (r % 0x40) + 0x40 * (q % 0x40) + u % 0x40);
  }

  lemma DecodeTwo(u: nat, others: Bytes)
    requires 0x80 <= u < 0x800
    ensures DecodeOne([0xC0 + u / 0x40, 0x80 + u % 0x40] + others) == Some((u as char, others))
  {
    var b: Bytes := [0xC0 + u / 0x40, 0x80 + u % 0x40] + others;
    SixBits(u);
    assert b[2..] == others;
  }

  lemma DecodeThree(u: nat, others: Bytes)
    requires 0x800 <= u < 0xD800 || 0xE000 <= u < 0x1_0000
    ensures DecodeOne([0xE0 + u / 0x1000, 0x80 + u / 0x40 % 0x40, 0x80 + u % 0x40] + others)
            == Some((u as char, others))
  {
    var b: Bytes := [0xE0 + u / 0x1000, 0x80 + u / 0x40 % 0x40, 0x80 + u % 0x40] + others;
    SixBits(u);
    assert b[3..] == others;
  }

  lemma DecodeFour(u: nat, others: Bytes)
    requires 0x1_0000 <= u < 0x11_0000
    ensures DecodeOne([0xF0 + u / 0x4_0000, 0x80 + u / 0x1000 % 0x40, 0x80 + u / 0x40 % 0x40, 0x80 + u % 0x40] + others)
            == Some((u as char, others))
  {
    var b: Bytes :=
      [0xF0 + u / 0x4_0000, 0x80 + u / 0x1000 % 0x40, 0x80 + u / 0x40 % 0x40, 0x80 + u % 0x40] + others;
    SixBits(u);
    assert b[4..] == others;
  }

  lemma DecodeFirst(c: char, others: Bytes)
    ensures DecodeOne(Utf8Char(c) + others) == Some((c, others))
  {
    hide DecodeOne;
    var u := c as int;
    if u < 0x80 {
      DecodeAscii(c, others);
    } else if u < 0x800 {
      DecodeTwo(u, others);
    } else if u < 0x1_0000 {
      DecodeThree(u, others);
    } else {
      DecodeFour(u, others);
    }
  }

  lemma DecodeAscii(c: char, others: Bytes)
    requires c as int < 0x80
    ensures DecodeOne([c as int] + others) == Some((c, others))
  {
  }

  /** Decoding inverts `Utf8`. */
  lemma {:induction false} DecodeBack(s: string)
    ensures Decode(Utf8(s)) == Some(s)
  {
    if s != "" {
      hide DecodeOne, Utf8Char;
      DecodeFirst(s[0], Utf8(s[1..]));
      DecodeBack(s[1..]);
      assert Utf8(s) == Utf8Char(s[0]) + Utf8(s[1..]);
      assert [s[0]] + s[1..] == s;
    }
  }

  lemma PlainBack(c: char, others: string)
    requires c as int >= 0x20 && c != '"' && c != '\\'
    ensures FirstChar([c] + others) == Got(c, others)
  {
  }

  lemma ShortBack(c: char, letter: char, others: string)
    requires Short(letter) == Some(c) && letter != 'u'
    ensures FirstChar(['\\', letter] + others) == Got(c, others)
  {
    var s := ['\\', letter] + others;
    assert s[2..] == others;
  }

  lemma HexBack(c: char, others: string)
    requires c as int < 0x20
    ensures FirstChar("\\u00" + [HexDigit(c as int / 16), HexDigit(c as int % 16)] + others) == Got(c, others)
  {
    var a, b := HexDigit(c as int / 16), HexDigit(c as int % 16);
    var s := "\\u00" + [a, b] + others;
    HexDigitBack(c as int / 16);
    HexDigitBack(c as int % 16);
    var t := s[2..];
    assert t[0] == '0' && t[1] == '0' && t[2] == a && t[3] == b && t[4..] == others;
    assert Hex4(t) == Some(c as int);
  }

  lemma FirstBack(c: char, others: string)
    ensures FirstChar(EscapeChar(c) + others) == Got(c, others)
    ensures EscapeChar(c) != "" && EscapeChar(c)[0] != '"' && EscapeChar(c)[0] as int >= 0x20
  {
    hide FirstChar;
    if c in "\"\\" {
      ShortBack(c, c, others);
    } else if c == '\n' {
      ShortBack(c, 'n', others);
    } else if c == '\r' {
      ShortBack(c, 'r', others);
    } else if c == '\t' {
      ShortBack(c, 't', others);
    } else if c as int == 8 {
      ShortBack(c, 'b', others);
    } else if c as int == 12 {
      ShortBack(c, 'f', others);
    } else if (c as int) < 0x20 {
      HexBack(c, others);
    } else {
      PlainBack(c, others);
    }
  }

  lemma EscapeBack(c: char, others: string)
    ensures Chars(EscapeChar(c) + others) ==
            if Chars(others).Stuck? then Stuck else Got([c] + Chars(others).value, Chars(others).rest)
  {
    hide FirstChar, EscapeChar;
    FirstBack(c, others);
    var s := EscapeChar(c) + others;
    assert s[0] == EscapeChar(c)[0];
  }

  lemma HexDigitBack(d: nat)
    requires d < 16
    ensures HexValue(HexDigit(d)) == Some(d)
  {
  }

  lemma ClosingBack(rest: string)
    ensures Chars("\"" + rest) == Got("", rest)
  {
  }

  lemma {:induction false} CharsBack(s: string, rest: string)
    ensures Chars(EscapeAll(s) + "\"" + rest) == Got(s, rest)
  {
    hide Chars, EscapeChar;
    if s == "" {
      ClosingBack(rest);
      assert EscapeAll(s) + "\"" + rest == "\"" + rest;
    } else {
      CharsBack(s[1..], rest);
      EscapeBack(s[0], EscapeAll(s[1..]) + "\"" + rest);
      assert EscapeAll(s) + "\"" + rest == EscapeChar(s[0]) + (EscapeAll(s[1..]) + "\"" + rest);
      assert [s[0]] + s[1..] == s;
    }
  }

  /** What may follow a value in a text without spaces. */
  predicate Delimits(rest: string) {
    rest == "" || rest[0] in ",]}"
  }

  lemma {:induction false} SpanBack(token: string, rest: string)
    requires (forall c <- token :: IsNumberChar(c)) && Delimits(rest)
    ensures NumberSpan(token + rest) == |token|
  {
    if token == "" {
      assert token + rest == rest;
    } else {
      SpanBack(token[1..], rest);
      assert (token + rest)[1..] == token[1..] + rest && token[0] in token;
    }
  }

  lemma NumberBack(token: string, rest: string)
    requires token != "" && (Decimal.IsDigit(token[0]) || token[0] == '-') && Delimits(rest)
    requires (forall c <- token :: IsNumberChar(c)) && Number(token).Some?
    ensures Value(token + rest) == Got(Number(token).value, rest)
  {
    hide Array, Object, Chars, Number;
    SpanBack(token, rest);
    assert (token + rest)[0] == token[0] && (token + rest)[..|token|] == token && (token + rest)[|token|..] == rest;
  }

  lemma {:induction false} PrintIsInteger(n: nat)
    ensures IsInteger(Decimal.Print(n)) && Decimal.Print(n)[0] != '-'
    ensures Decimal.Print(n)[0] == '0' ==> n == 0
  {
    Decimal.PrintThenRead(n);
    if n >= 10 {
      PrintIsInteger(n / 10);
      assert Decimal.Print(n)[0] == Decimal.Print(n / 10)[0];
    }
    assert Decimal.IsDigit(Decimal.Print(n)[0]);
  }

  lemma IntBack(n: int, rest: string)
    requires Delimits(rest)
    ensures Value(IntText(n) + rest) == Got(Int(n), rest)
  {
    var m := if n < 0 then -n else n;
    PrintIsInteger(m);
    Decimal.PrintThenRead(m);
    var token := IntText(n);
    if n < 0 { assert token[1..] == Decimal.Print(m); }
    assert forall c <- token :: c == '-' || c in Decimal.Print(m);
    NumberBack(token, rest);
  }

  /** `j` with the members of its objects in the order in which they are written, at every depth. */
  function Normal(j: Json): Json {
    match j
    case List(items) => List(Normals(items))
    case Obj(members) => Obj(SortMembers(NormalMembers(members)))
    case _ => j
  }

  function Normals(items: seq<Json>): (r: seq<Json>) {
    if items == [] then [] else [Normal(items[0])] + Normals(items[1..])
  }

  function NormalMembers(members: seq<Member>): (r: seq<Member>)
    ensures |r| == |members|
  {
    if members == [] then [] else [Member(members[0].key, Normal(members[0].value))] + NormalMembers(members[1..])
  }

  function InsertMember(m: Member, members: seq<Member>): (r: seq<Member>)
    ensures r != []
  {
    if members == [] || Before(m.key, members[0].key) then [m] + members
    else [members[0]] + InsertMember(m, members[1..])
  }

  function SortMembers(members: seq<Member>): (r: seq<Member>)
    ensures members != [] ==> r != []
  {
    if members == [] then [] else InsertMember(members[0], SortMembers(members[1..]))
  }

  /** Sorting is by key alone, so it can be done before the values are written, or normalized. */
  lemma {:induction false} InsertedTexts(m: Member, members: seq<Member>)
    ensures Insert((m.key, Text(m.value)), MemberTexts(members)) == MemberTexts(InsertMember(m, members))
    ensures InsertMember(Member(m.key, Normal(m.value)), NormalMembers(members))
            == NormalMembers(InsertMember(m, members))
  {
    hide Text, Normal;
    if members != [] && !Before(m.key, members[0].key) {
      InsertedTexts(m, members[1..]);
    }
  }

  lemma {:induction false} SortedTexts(members: seq<Member>)
    ensures Sorted(MemberTexts(members)) == MemberTexts(SortMembers(members))
    ensures SortMembers(NormalMembers(members)) == NormalMembers(SortMembers(members))
  {
    hide Text, Normal;
    if members != [] {
      SortedTexts(members[1..]);
      InsertedTexts(members[0], SortMembers(members[1..]));
    }
  }

  lemma {:induction false} InsertMemberKeeps(m: Member, members: seq<Member>)
    ensures multiset(InsertMember(m, members)) == multiset{m} + multiset(members)
  {
    if members != [] && !Before(m.key, members[0].key) {
      InsertMemberKeeps(m, members[1..]);
      assert members == [members[0]] + members[1..];
    }
  }

  lemma {:induction false} SortMembersKeeps(members: seq<Member>)
    ensures multiset(SortMembers(members)) == multiset(members)
  {
    if members != [] {
      SortMembersKeeps(members[1..]);
      InsertMemberKeeps(members[0], SortMembers(members[1..]));
      assert members == [members[0]] + members[1..];
    }
  }

  /** The reader takes the text of `j`, whatever follows it, and what it makes of it is `j`. */
  ghost predicate ReadsBack(j: Json) {
    forall rest :: Delimits(rest) ==> Value(Text(j) + rest) == Got(Normal(j), rest)
  }

  predicate IsToken(c: char) {
    c !in " \t\n\r]},:"
  }

  lemma TextStarts(j: Json)
    ensures Text(j) != "" && IsToken(Text(j)[0])
  {
    match j
    case Int(n) =>
      PrintIsInteger(if n < 0 then -n else n);
      Decimal.PrintThenRead(if n < 0 then -n else n);
      assert Decimal.IsDigit(Decimal.Print(if n < 0 then -n else n)[0]);
    case Float(repr) => NumberChars(repr);
    case _ =>
  }

  lemma {:induction false} ItemsBack(items: seq<Json>, rest: string)
    requires items != [] && forall item <- items :: ReadsBack(item)
    ensures Items(Join(Texts(items)) + "]" + rest) == Got(Normals(items), rest)
  {
    hide Text, Value, Normal;
    var s := Join(Texts(items)) + "]" + rest;
    var first := Text(items[0]);
    assert ReadsBack(items[0]) && Normals(items) == [Normal(items[0])] + Normals(items[1..]);
    if |items| == 1 {
      assert items[1..] == [] && Texts(items) == [first] && s == first + ("]" + rest);
      assert Delimits("]" + rest);
      assert Normals(items) == [Normal(items[0])];
      LastItem(s, Normal(items[0]), rest);
    } else {
      ItemsBack(items[1..], rest);
      var others := Join(Texts(items[1..])) + "]" + rest;
      assert s == first + ("," + others) && Delimits("," + others);
      MoreItems(s, Normal(items[0]), others);
    }
  }

  lemma LastItem(s: string, item: Json, rest: string)
    requires Value(s) == Got(item, "]" + rest)
    ensures Items(s) == Got([item], rest)
  {
    hide Value;
    assert ("]" + rest)[1..] == rest;
  }

  lemma MoreItems(s: string, item: Json, others: string)
    requires Value(s) == Got(item, "," + others)
    ensures Items(s) == if Items(others).Stuck? then Stuck
                        else Got([item] + Items(others).value, Items(others).rest)
  {
    hide Value;
    assert ("," + others)[1..] == others;
  }

  lemma OneMemberBack(m: Member, rest: string)
    requires ReadsBack(m.value) && Delimits(rest)
    ensures OneMember(Quote(m.key) + ":" + Text(m.value) + rest) == Got(Member(m.key, Normal(m.value)), rest)
  {
    hide Text, Value, Normal, Chars, EscapeAll;
    var after := ":" + Text(m.value) + rest;
    var s := Quote(m.key) + ":" + Text(m.value) + rest;
    assert s == Quote(m.key) + after && s[1..] == EscapeAll(m.key) + "\"" + after;
    CharsBack(m.key, after);
    assert SkipSpace(after) == after && after[1..] == Text(m.value) + rest;
  }

  lemma {:induction false} MembersBack(members: seq<Member>, rest: string)
    requires members != [] && forall m <- members :: ReadsBack(m.value)
    ensures Members(Join(Rendered(MemberTexts(members))) + "}" + rest) == Got(NormalMembers(members), rest)
  {
    hide Text, Value, Normal, OneMember, Members, EscapeAll, Quote;
    var m := members[0];
    var first := Quote(m.key) + ":" + Text(m.value);
    var s := Join(Rendered(MemberTexts(members))) + "}" + rest;
    QuoteStarts(m.key);
    assert NormalMembers(members) == [Member(m.key, Normal(m.value))] + NormalMembers(members[1..]);
    assert Rendered(MemberTexts(members)) == [first] + Rendered(MemberTexts(members[1..]));
    if |members| == 1 {
      var after := "}" + rest;
      assert members[1..] == [];
      OneMemberBack(m, after);
      assert Rendered(MemberTexts(members)) == [first] && s == first + after && SkipSpace(after) == after;
      assert NormalMembers(members) == [Member(m.key, Normal(m.value))];
      LastMember(s, Member(m.key, Normal(m.value)), rest);
    } else {
      MembersBack(members[1..], rest);
      var others := Join(Rendered(MemberTexts(members[1..]))) + "}" + rest;
      OneMemberBack(m, "," + others);
      assert s == first + ("," + others);
      MoreMembers(s, Member(m.key, Normal(m.value)), others);
    }
  }

  lemma QuoteStarts(s: string)
    ensures Quote(s) != "" && Quote(s)[0] == '"'
  {
  }

  lemma LastMember(s: string, m: Member, rest: string)
    requires s != "" && s[0] == '"' && OneMember(s) == Got(m, "}" + rest)
    ensures Members(s) == Got([m], rest)
  {
    hide OneMember;
    assert SkipSpace(s) == s && ("}" + rest)[1..] == rest;
  }

  lemma MoreMembers(s: string, m: Member, others: string)
    requires s != "" && s[0] == '"' && OneMember(s) == Got(m, "," + others)
    ensures Members(s) == if Members(others).Stuck? then Stuck
                          else Got([m] + Members(others).value, Members(others).rest)
  {
    hide OneMember;
    assert SkipSpace(s) == s && ("," + others)[1..] == others;
  }

  lemma ListBack(items: seq<Json>, rest: string)
    requires forall item <- items :: ReadsBack(item)
    ensures Value("[" + Join(Texts(items)) + "]" + rest) == Got(List(Normals(items)), rest)
  {
    hide Items, Text, Object, Chars, Normal;
    var s := "[" + Join(Texts(items)) + "]" + rest;
    if items == [] {
      assert s[1..] == "]" + rest;
    } else {
      ItemsBack(items, rest);
      TextStarts(items[0]);
      assert s[1..] == Join(Texts(items)) + "]" + rest && s[1] == Text(items[0])[0];
      assert SkipSpace(s[1..]) == s[1..];
    }
  }

  lemma ObjectBack(members: seq<Member>, rest: string)
    requires forall m <- members :: ReadsBack(m.value)
    ensures Value("{" + Join(Rendered(MemberTexts(members))) + "}" + rest) == Got(Obj(NormalMembers(members)), rest)
  {
    hide Members, Text, Array, Chars, Normal;
    var s := "{" + Join(Rendered(MemberTexts(members))) + "}" + rest;
    if members == [] {
      assert s[1..] == "}" + rest;
    } else {
      MembersBack(members, rest);
      assert s[1..] == Join(Rendered(MemberTexts(members))) + "}" + rest && s[1] == '"';
      assert SkipSpace(s[1..]) == s[1..];
    }
  }

  lemma StringBack(text: string, rest: string)
    ensures Value(Quote(text) + rest) == Got(Str(text), rest)
  {
    hide Chars, EscapeAll;
    var s := Quote(text) + rest;
    CharsBack(text, rest);
    assert s[1..] == EscapeAll(text) + "\"" + rest;
  }

  lemma LiteralBack(j: Json, rest: string)
    requires j.Null? || j.Bool?
    ensures Value(Text(j) + rest) == Got(j, rest)
  {
    hide Array, Object, Chars, Number;
    var s := Text(j) + rest;
    assert s[|Text(j)|..] == rest && Text(j) <= s;
  }

  lemma FloatBack(repr: FloatText, rest: string)
    requires Delimits(rest)
    ensures Value(repr + rest) == Got(Float(repr), rest)
  {
    NumberChars(repr);
    NumberBack(repr, rest);
  }

  /** The text of every value reads back as that value. */
  lemma {:induction false} TextReadsBack(j: Json)
    ensures ReadsBack(j)
  {
    hide Value;
    match j
    case List(items) =>
      ItemsReadBack(items);
      forall rest | Delimits(rest) ensures Value(Text(j) + rest) == Got(Normal(j), rest) { ListBack(items, rest); }
    case Obj(members) =>
      MembersReadBack(members);
      SortedTexts(members);
      SortMembersKeeps(members);
      forall m <- SortMembers(members) ensures ReadsBack(m.value) { assert m in multiset(members); }
      forall rest | Delimits(rest) ensures Value(Text(j) + rest) == Got(Normal(j), rest) {
        ObjectBack(SortMembers(members), rest);
      }
    case Str(s) =>
      forall rest ensures Value(Text(j) + rest) == Got(Normal(j), rest) { StringBack(s, rest); }
    case Int(n) =>
      forall rest | Delimits(rest) ensures Value(Text(j) + rest) == Got(Normal(j), rest) { IntBack(n, rest); }
    case Float(repr) =>
      forall rest | Delimits(rest) ensures Value(Text(j) + rest) == Got(Normal(j), rest) { FloatBack(repr, rest); }
    case _ =>
      forall rest ensures Value(Text(j) + rest) == Got(Normal(j), rest) { LiteralBack(j, rest); }
  }

  lemma {:induction false} ItemsReadBack(items: seq<Json>)
    ensures forall item <- items :: ReadsBack(item)
  {
    hide ReadsBack;
    if items != [] {
      TextReadsBack(items[0]);
      ItemsReadBack(items[1..]);
    }
  }

  lemma {:induction false} MembersReadBack(members: seq<Member>)
    ensures forall m <- members :: ReadsBack(m.value)
  {
    hide ReadsBack;
    if members != [] {
      TextReadsBack(members[0].value);
      MembersReadBack(members[1..]);
    }
  }

  /** Canonical bytes are UTF-8 and a JSON text, and denote the value they were written for. */
  lemma CanonicalReads(j: Json)
    ensures Decode(CanonicalBytes(j)) == Some(Text(j))
    ensures ReadBytes(CanonicalBytes(j)) == Some(Normal(j))
  {
    hide Value, Text, Normal, Utf8, Decode;
    DecodeBack(Text(j));
    TextReadsBack(j);
    assert Text(j) + "" == Text(j);
  }

  ghost predicate InKeyOrder(members: seq<Member>) {
    forall i, k :: 0 <= i < k < |members| ==> !Before(members[k].key, members[i].key)
  }

  lemma {:induction false} InsertMemberOrders(m: Member, members: seq<Member>)
    requires InKeyOrder(members)
    ensures InKeyOrder(InsertMember(m, members))
  {
    if members != [] {
      var more := InsertMember(m, members);
      InsertMemberKeeps(m, members);
      forall i, k | 0 <= i < k < |more| ensures !Before(more[k].key, more[i].key) {
        BeforeIsTotal(m.key, members[0].key);
        if Before(m.key, members[0].key) {
          if i == 0 && k > 1 {
            NotBefore(m.key, members[0].key, members[k - 1].key);
          }
        } else {
          InsertMemberOrders(m, members[1..]);
          if i == 0 {
            InsertMemberKeeps(m, members[1..]);
            assert more[k] in multiset(InsertMember(m, members[1..]));
            if more[k] != m { assert more[k] in members[1..]; }
          }
        }
      }
    }
  }

  lemma NotBefore(a: string, b: string, c: string)
    requires Before(a, b) && !Before(c, b)
    ensures !Before(c, a)
  {
    if Before(c, a) { BeforeIsTransitive(c, a, b); }
  }

  /** What normalizing does: at every depth, the members of an object are put in code point order, and no member is
      lost, added or changed. */
  lemma {:induction false} SortMembersOrders(members: seq<Member>)
    ensures InKeyOrder(SortMembers(members)) && multiset(SortMembers(members)) == multiset(members)
  {
    SortMembersKeeps(members);
    if members != [] {
      SortMembersOrders(members[1..]);
      InsertMemberOrders(members[0], SortMembers(members[1..]));
    }
  }

  /** An encoder whose output says which value it was given. */
  ghost predicate Legible(encode: Encoder) {
    forall j :: ReadBytes(encode(j)) == Some(Normal(j))
  }

  /** `canonical_json_bytes` is one. */
  lemma CanonicalIsLegible()
    ensures Legible(CanonicalEncoder())
  {
    hide ReadBytes, CanonicalBytes;
    forall j ensures ReadBytes(CanonicalEncoder()(j)) == Some(Normal(j)) { CanonicalReads(j); }
  }

  /** The value of a member of an object. */
  function Field(j: Json, key: string): Option<Json> {
    if j.Obj? then Find(j.members, key) else None
  }

  function Find(members: seq<Member>, key: string): Option<Json> {
    if members == [] then None
    else if members[0].key == key then Some(members[0].value)
    else Find(members[1..], key)
  }

  lemma {:induction false} FindsMember(members: seq<Member>, m: Member)
    requires m in members && forall other <- members :: other.key == m.key ==> other == m
    ensures Find(members, m.key) == Some(m.value)
  {
    if members[0].key != m.key { FindsMember(members[1..], m); }
  }

  lemma {:induction false} NormalMember(members: seq<Member>, k: nat)
    requires k < |members|
    ensures NormalMembers(members)[k] == Member(members[k].key, Normal(members[k].value))
  {
    if k > 0 { NormalMember(members[1..], k - 1); }
  }

  /** An object with distinct keys keeps the value of each when it is normalized. */
  lemma NormalField(members: seq<Member>, k: nat)
    requires DistinctKeys(members) && k < |members|
    ensures Field(Normal(Obj(members)), members[k].key) == Some(Normal(members[k].value))
  {
    var m, normal := Member(members[k].key, Normal(members[k].value)), NormalMembers(members);
    NormalMember(members, k);
    SortMembersKeeps(normal);
    assert m in multiset(SortMembers(normal));
    forall other <- SortMembers(normal) | other.key == m.key ensures other == m {
      assert other in multiset(normal);
      var i :| 0 <= i < |normal| && normal[i] == other;
      NormalMember(members, i);
    }
    FindsMember(SortMembers(normal), m);
  }
}
