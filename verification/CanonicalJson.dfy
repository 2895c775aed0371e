/** Strict JSON values, and the deterministic bytes written for them. */
module CanonicalJson {
  import opened Wrappers
  import Decimal

  /** The numbers of section 6 of RFC 8259: an integer part, a fraction and an exponent. */
  predicate IsInteger(s: string) {
    var digits := if s != "" && s[0] == '-' then s[1..] else s;
    IsDigits(digits) && (digits[0] == '0' ==> |digits| == 1)
  }

  predicate IsDigits(s: string) {
    s != "" && Decimal.AllDigits(s)
  }

  predicate IsFraction(s: string) {
    s == "" || (s[0] == '.' && IsDigits(s[1..]))
  }

  predicate IsExponent(s: string) {
    s == "" || (s[0] in "eE" && (IsDigits(s[1..]) || (|s| > 1 && s[1] in "+-" && IsDigits(s[2..]))))
  }

  predicate IsNumber(s: string) {
    exists i, j :: 0 <= i <= j <= |s| && IsInteger(s[..i]) && IsFraction(s[i..j]) && IsExponent(s[j..])
  }

  predicate IsNumberChar(c: char) {
    Decimal.IsDigit(c) || c in "+-.eE"
  }

  lemma NumberChars(s: string)
    requires IsNumber(s)
    ensures s != "" && (Decimal.IsDigit(s[0]) || s[0] == '-') && forall c <- s :: IsNumberChar(c)
  {
    hide IsInteger, IsFraction, IsExponent, IsNumberChar, Decimal.IsDigit;
    var i, j :| 0 <= i <= j <= |s| && IsInteger(s[..i]) && IsFraction(s[i..j]) && IsExponent(s[j..]);
    IntegerChars(s[..i]);
    FractionChars(s[i..j]);
    ExponentChars(s[j..]);
    assert s == s[..i] + s[i..j] + s[j..];
    assert s[0] == s[..i][0];
  }

  lemma IntegerChars(s: string)
    requires IsInteger(s)
    ensures s != "" && (Decimal.IsDigit(s[0]) || s[0] == '-') && forall c <- s :: IsNumberChar(c)
  {
    DigitChars(s, if s[0] == '-' then 1 else 0);
  }

  lemma FractionChars(s: string)
    requires IsFraction(s)
    ensures forall c <- s :: IsNumberChar(c)
  {
    if s != "" { DigitChars(s, 1); }
  }

  lemma ExponentChars(s: string)
    requires IsExponent(s)
    ensures forall c <- s :: IsNumberChar(c)
  {
    if s != "" { DigitChars(s, if IsDigits(s[1..]) then 1 else 2); }
  }

  lemma DigitChars(s: string, n: nat)
    requires n <= |s| && IsDigits(s[n..]) && forall c <- s[..n] :: IsNumberChar(c)
    ensures forall c <- s :: IsNumberChar(c)
  {
    assert s == s[..n] + s[n..];
  }

  /** Python's `repr` of a finite float: a number that is not written as an integer. */
  type FloatText = s: string | IsNumber(s) && !IsInteger(s) witness SomeFloat()

  function SomeFloat(): (s: string)
    ensures IsNumber(s) && !IsInteger(s)
  {
    var s := "0.0";
    assert IsInteger(s[..1]) && IsFraction(s[1..3]) && IsExponent(s[3..]);
    s
  }

  datatype Member = Member(key: string, value: Json)

  datatype Json =
    | Null
    | Bool(b: bool)
    | Int(n: int)
    | Float(repr: FloatText)
    | Str(s: string)
    | List(items: seq<Json>)
    | Obj(members: seq<Member>)

  function HexDigit(d: nat): char
    requires d < 16
  {
    "0123456789abcdef"[d]
  }

  /** The escapes of section 7 of RFC 8259; everything above the control characters stays as it is. */
  function EscapeChar(c: char): string {
    if c == '"' then "\\\""
    else if c == '\\' then "\\\\"
    else if c == '\n' then "\\n"
    else if c == '\r' then "\\r"
    else if c == '\t' then "\\t"
    else if c as int == 8 then "\\b"
    else if c as int == 12 then "\\f"
    else if c as int < 0x20 then "\\u00" + [HexDigit(c as int / 16), HexDigit(c as int % 16)]
    else [c]
  }

  function EscapeAll(s: string): string {
    if s == "" then "" else EscapeChar(s[0]) + EscapeAll(s[1..])
  }

  function Quote(s: string): string {
    "\"" + EscapeAll(s) + "\""
  }

  function IntText(n: int): string {
    if n < 0 then "-" + Decimal.Print(-n) else Decimal.Print(n)
  }

  /** `json.dumps(value, ensure_ascii=False, separators=(",", ":"), sort_keys=True)` */
  function Text(j: Json): string {
    match j
    case Null => "null"
    case Bool(b) => if b then "true" else "false"
    case Int(n) => IntText(n)
    case Float(repr) => repr
    case Str(s) => Quote(s)
    case List(items) => "[" + Join(Texts(items)) + "]"
    case Obj(members) => "{" + Join(Rendered(Sorted(MemberTexts(members)))) + "}"
  }

  function Texts(items: seq<Json>): (texts: seq<string>)
    ensures |texts| == |items|
  {
    if items == [] then [] else [Text(items[0])] + Texts(items[1..])
  }

  function MemberTexts(members: seq<Member>): (pairs: seq<(string, string)>)
    ensures |pairs| == |members|
  {
    if members == [] then [] else [(members[0].key, Text(members[0].value))] + MemberTexts(members[1..])
  }

  function Rendered(pairs: seq<(string, string)>): (texts: seq<string>)
    ensures |texts| == |pairs|
  {
    if pairs == [] then [] else [Quote(pairs[0].0) + ":" + pairs[0].1] + Rendered(pairs[1..])
  }

  function Join(texts: seq<string>): string {
    if texts == [] then "" else if |texts| == 1 then texts[0] else texts[0] + "," + Join(texts[1..])
  }

  /** Code point order on strings. */
  predicate Before(a: string, b: string) {
    if b == "" then false
    else if a == "" then true
    else a[0] < b[0] || (a[0] == b[0] && Before(a[1..], b[1..]))
  }

  function Insert(pair: (string, string), pairs: seq<(string, string)>): seq<(string, string)> {
    if pairs == [] || Before(pair.0, pairs[0].0) then [pair] + pairs
    else [pairs[0]] + Insert(pair, pairs[1..])
  }

  function Sorted(pairs: seq<(string, string)>): seq<(string, string)> {
    if pairs == [] then [] else Insert(pairs[0], Sorted(pairs[1..]))
  }

  function Utf8Char(c: char): Bytes {
    var u := c as int;
    if u < 0x80 then [u]
    else if u < 0x800 then [0xC0 + u / 0x40, 0x80 + u % 0x40]
    else if u < 0x1_0000 then [0xE0 + u / 0x1000, 0x80 + u / 0x40 % 0x40, 0x80 + u % 0x40]
    else [0xF0 + u / 0x4_0000, 0x80 + u / 0x1000 % 0x40, 0x80 + u / 0x40 % 0x40, 0x80 + u % 0x40]
  }

  function Utf8(s: string): Bytes {
    if s == "" then [] else Utf8Char(s[0]) + Utf8(s[1..])
  }

  function CanonicalBytes(j: Json): Bytes {
    Utf8(Text(j))
  }

  predicate Printable(s: string) {
    forall c <- s :: c as int >= 0x20
  }

  lemma EscapeIsForText(c: char)
    ensures Printable(EscapeChar(c))
  {
  }

  lemma {:induction false} EscapesAreForText(s: string)
    ensures Printable(EscapeAll(s))
  {
    if s != "" {
      EscapeIsForText(s[0]);
      EscapesAreForText(s[1..]);
    }
  }

  lemma {:induction false} JoinIsPrintable(texts: seq<string>)
    requires forall text <- texts :: Printable(text)
    ensures Printable(Join(texts))
  {
    if texts != [] {
      assert Printable(texts[0]);
      if |texts| > 1 { JoinIsPrintable(texts[1..]); }
    }
  }

  lemma {:induction false} InsertKeeps(pair: (string, string), pairs: seq<(string, string)>)
    ensures multiset(Insert(pair, pairs)) == multiset{pair} + multiset(pairs)
  {
    if pairs != [] && !Before(pair.0, pairs[0].0) {
      InsertKeeps(pair, pairs[1..]);
      assert pairs == [pairs[0]] + pairs[1..];
    }
  }

  lemma {:induction false} SortedKeeps(pairs: seq<(string, string)>)
    ensures multiset(Sorted(pairs)) == multiset(pairs)
  {
    if pairs != [] {
      SortedKeeps(pairs[1..]);
      InsertKeeps(pairs[0], Sorted(pairs[1..]));
      assert pairs == [pairs[0]] + pairs[1..];
    }
  }

  lemma {:induction false} RenderedIsPrintable(pairs: seq<(string, string)>)
    requires forall pair <- pairs :: Printable(pair.1)
    ensures forall text <- Rendered(pairs) :: Printable(text)
  {
    if pairs != [] {
      EscapesAreForText(pairs[0].0);
      assert Printable(Quote(pairs[0].0) + ":" + pairs[0].1);
      RenderedIsPrintable(pairs[1..]);
    }
  }

  lemma ObjectIsPrintable(pairs: seq<(string, string)>)
    requires forall pair <- pairs :: Printable(pair.1)
    ensures Printable("{" + Join(Rendered(Sorted(pairs))) + "}")
  {
    SortedKeeps(pairs);
    forall pair <- Sorted(pairs) ensures Printable(pair.1) {
      assert pair in multiset(pairs);
    }
    RenderedIsPrintable(Sorted(pairs));
    JoinIsPrintable(Rendered(Sorted(pairs)));
  }

  lemma IntTextIsPrintable(n: int)
    ensures Printable(IntText(n))
  {
    var s := Decimal.Print(if n < 0 then -n else n);
    Decimal.PrintThenRead(if n < 0 then -n else n);
    forall c <- s ensures c as int >= 0x20 {
      assert Decimal.IsDigit(c);
    }
  }

  lemma ListIsPrintable(texts: seq<string>)
    requires forall text <- texts :: Printable(text)
    ensures Printable("[" + Join(texts) + "]")
  {
    JoinIsPrintable(texts);
  }

  lemma QuoteIsPrintable(s: string)
    ensures Printable(Quote(s))
  {
    EscapesAreForText(s);
  }

  lemma {:induction false} TextIsPrintable(j: Json)
    ensures Printable(Text(j))
  {
    match j {
      case Int(n) => IntTextIsPrintable(n);
      case Float(repr) => NumberChars(repr);
      case Str(s) => QuoteIsPrintable(s);
      case List(items) =>
        TextsArePrintable(items);
        ListIsPrintable(Texts(items));
      case Obj(members) =>
        MembersArePrintable(members);
        ObjectIsPrintable(MemberTexts(members));
      case _ =>
    }
  }

  lemma {:induction false} TextsArePrintable(items: seq<Json>)
    ensures forall text <- Texts(items) :: Printable(text)
  {
    if items != [] {
      TextIsPrintable(items[0]);
      TextsArePrintable(items[1..]);
    }
  }

  lemma {:induction false} MembersArePrintable(members: seq<Member>)
    ensures forall pair <- MemberTexts(members) :: Printable(pair.1)
  {
    if members != [] {
      TextIsPrintable(members[0].value);
      MembersArePrintable(members[1..]);
    }
  }

  lemma {:induction false} Utf8KeepsPrintable(s: string)
    requires Printable(s)
    ensures forall b <- Utf8(s) :: b >= 0x20
  {
    if s != "" {
      assert s[0] in s && forall c <- s[1..] :: c in s;
      Utf8KeepsPrintable(s[1..]);
    }
  }

  /** No value, whatever its strings hold, puts a control byte in its record: LF only ever frames. */
  lemma NoControlBytes(j: Json)
    ensures forall b <- CanonicalBytes(j) :: b >= 0x20
    ensures LF !in CanonicalBytes(j)
  {
    TextIsPrintable(j);
    Utf8KeepsPrintable(Text(j));
  }

  /** An encoder fit for an LF-framed log. */
  type Encoder = encode: Json -> Bytes | forall j :: LF !in encode(j) witness (j: Json) => []

  /** `canonical_json_bytes` is one. */
  function CanonicalEncoder(): (encode: Encoder)
    ensures forall j :: encode(j) == CanonicalBytes(j)
  {
    assert forall j :: LF !in CanonicalBytes(j) by {
      forall j ensures LF !in CanonicalBytes(j) { NoControlBytes(j); }
    }
    (j: Json) => CanonicalBytes(j)
  }

  /** Up to position `n` the strings agree, and there `a` ends or has the smaller code point. */
  predicate SmallerAt(a: string, b: string, n: nat) {
    n <= |a| && n < |b| && a[..n] == b[..n] && (n < |a| ==> a[n] < b[n])
  }

  lemma {:induction false} BeforeIsCodePointOrder(a: string, b: string)
    ensures Before(a, b) <==> exists n: nat :: SmallerAt(a, b, n)
  {
    if b != "" && (a == "" || a[0] < b[0]) {
      assert SmallerAt(a, b, 0);
    } else if b != "" && a[0] == b[0] {
      BeforeIsCodePointOrder(a[1..], b[1..]);
      if n: nat :| SmallerAt(a[1..], b[1..], n) {
        assert a[..n + 1] == [a[0]] + a[1..][..n] && b[..n + 1] == [b[0]] + b[1..][..n];
        assert SmallerAt(a, b, n + 1);
      }
      if n: nat :| SmallerAt(a, b, n) {
        assert a[1..][..n - 1] == a[..n][1..] && b[1..][..n - 1] == b[..n][1..];
        assert SmallerAt(a[1..], b[1..], n - 1);
      }
    } else if b != "" {
      forall n: nat ensures !SmallerAt(a, b, n) {
        assert n > 0 && n <= |a| && n < |b| ==> a[..n][0] == a[0] && b[..n][0] == b[0];
      }
    }
  }

  lemma {:induction false} BeforeIsTotal(a: string, b: string)
    ensures a != b ==> (Before(a, b) <==> !Before(b, a))
    ensures !Before(a, a)
  {
    if a != "" {
      if b != "" {
        BeforeIsTotal(a[1..], b[1..]);
        assert a[0] == b[0] && a[1..] == b[1..] ==> a == [a[0]] + b[1..] == b;
      } else {
        BeforeIsTotal(a[1..], "");
      }
    }
  }

  lemma {:induction false} BeforeIsTransitive(a: string, b: string, c: string)
    requires Before(a, b) && Before(b, c)
    ensures Before(a, c)
  {
    if a != "" && a[0] == b[0] == c[0] { BeforeIsTransitive(a[1..], b[1..], c[1..]); }
  }

  lemma {:induction false} InsertsCommute(x: (string, string), y: (string, string), pairs: seq<(string, string)>)
    requires x.0 != y.0
    ensures Insert(x, Insert(y, pairs)) == Insert(y, Insert(x, pairs))
  {
    BeforeIsTotal(x.0, y.0);
    if pairs != [] {
      var p := pairs[0].0;
      if Before(x.0, p) && Before(p, y.0) { BeforeIsTransitive(x.0, p, y.0); }
      if Before(y.0, p) && Before(p, x.0) { BeforeIsTransitive(y.0, p, x.0); }
      if Before(x.0, y.0) && Before(y.0, p) { BeforeIsTransitive(x.0, y.0, p); }
      if Before(y.0, x.0) && Before(x.0, p) { BeforeIsTransitive(y.0, x.0, p); }
      InsertsCommute(x, y, pairs[1..]);
    }
  }

  ghost predicate DistinctKeys(members: seq<Member>) {
    forall i, j :: 0 <= i < j < |members| ==> members[i].key != members[j].key
  }

  /** Sorting does not care where in the sequence a member stands. */
  lemma {:induction false} SortedPulls(members: seq<Member>, k: nat)
    requires DistinctKeys(members) && k < |members|
    ensures Sorted(MemberTexts(members))
         == Insert((members[k].key, Text(members[k].value)), Sorted(MemberTexts(members[..k] + members[k + 1..])))
  {
    var rest := members[..k] + members[k + 1..];
    if k == 0 {
      assert rest == members[1..];
    } else {
      SortedPulls(members[1..], k - 1);
      assert members[1..][..k - 1] + members[1..][k..] == rest[1..];
      InsertsCommute((members[0].key, Text(members[0].value)), (members[k].key, Text(members[k].value)),
                     Sorted(MemberTexts(rest[1..])));
    }
  }

  lemma WithoutMember(members: seq<Member>, k: nat)
    requires DistinctKeys(members) && k < |members|
    ensures DistinctKeys(members[..k] + members[k + 1..])
    ensures multiset(members[..k] + members[k + 1..]) == multiset(members) - multiset{members[k]}
  {
    var rest := members[..k] + members[k + 1..];
    forall i, j | 0 <= i < j < |rest| ensures rest[i].key != rest[j].key {
      assert rest[i] == members[if i < k then i else i + 1] && rest[j] == members[if j < k then j else j + 1];
    }
    assert members == members[..k] + ([members[k]] + members[k + 1..]);
  }

  lemma FindMember(member: Member, members: seq<Member>) returns (k: nat)
    requires member in multiset(members)
    ensures k < |members| && members[k] == member
  {
    k :| 0 <= k < |members| && members[k] == member;
  }

  /** Taking the first member of `a` out of both leaves the same members in both. */
  lemma PullFirst(a: seq<Member>, b: seq<Member>) returns (k: nat)
    requires a != [] && DistinctKeys(a) && DistinctKeys(b) && multiset(a) == multiset(b)
    ensures k < |b| && b[k] == a[0]
    ensures DistinctKeys(a[1..]) && DistinctKeys(b[..k] + b[k + 1..])
    ensures multiset(a[1..]) == multiset(b[..k] + b[k + 1..])
  {
    assert multiset(a)[a[0]] > 0;
    k := FindMember(a[0], b);
    WithoutMember(b, k);
    assert multiset(a[1..]) == multiset(b[..k] + b[k + 1..]) by {
      assert a == [a[0]] + a[1..];
    }
  }

  lemma {:induction false} SameMembersSortAlike(a: seq<Member>, b: seq<Member>)
    requires DistinctKeys(a) && DistinctKeys(b) && multiset(a) == multiset(b)
    ensures Sorted(MemberTexts(a)) == Sorted(MemberTexts(b))
  {
    if a == [] {
      assert |b| == |multiset(b)| == 0;
    } else {
      var k := PullFirst(a, b);
      SameMembersSortAlike(a[1..], b[..k] + b[k + 1..]);
      SortedPulls(b, k);
    }
  }

  /** Two dictionaries with the same members are written as the same bytes, whatever their order. */
  lemma MemberOrderIsIrrelevant(a: seq<Member>, b: seq<Member>)
    requires DistinctKeys(a) && DistinctKeys(b) && multiset(a) == multiset(b)
    ensures CanonicalBytes(Obj(a)) == CanonicalBytes(Obj(b))
  {
    SameMembersSortAlike(a, b);
  }
}
