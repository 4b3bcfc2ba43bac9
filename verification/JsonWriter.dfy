/** JSON texts as RFC 8259 defines them: a tree, and a parser of its grammar (sections 2 to 7).
    A number is an opaque token: a run of the characters a number may hold. */
module JsonGrammar {
  datatype Tree =
    | Object(members: Members)
    | Array(items: Items)
    | Number(token: string)
    | Text(value: string)
    | Boolean(truth: bool)
    | Null

  datatype Members = NoMembers | Member(key: string, value: Tree, more: Members)

  datatype Items = NoItems | Item(head: Tree, more: Items)

  datatype Parsed<+T> = Fail | Ok(value: T, rest: string)

  // Section 2: insignificant whitespace.
  predicate Space(c: char) {
    c == ' ' || c == '\t' || c == '\n' || c == '\r'
  }

  function SkipSpace(s: string): (r: string)
    ensures |r| <= |s| && (r != "" ==> !Space(r[0]))
  {
    if s != "" && Space(s[0]) then SkipSpace(s[1..]) else s
  }

  // Section 6: the characters of a number.
  predicate NumberChar(c: char) {
    '0' <= c <= '9' || c == '-' || c == '+' || c == '.' || c == 'e' || c == 'E'
  }

  function NumberLength(s: string): (n: nat)
    ensures n <= |s|
  {
    if s != "" && NumberChar(s[0]) then 1 + NumberLength(s[1..]) else 0
  }

  // Section 7: one hexadecimal digit of an escape.
  function HexValue(c: char): int {
    if '0' <= c <= '9' then c as int - '0' as int
    else if 'a' <= c <= 'f' then c as int - 'a' as int + 10
    else if 'A' <= c <= 'F' then c as int - 'A' as int + 10
    else -1
  }

  // The code unit of four digits; -1 if they are not.
  function Unit(s: string): (u: int)
    requires |s| >= 4
    ensures -1 <= u < 0x10000
  {
    var a, b, c, d := HexValue(s[0]), HexValue(s[1]), HexValue(s[2]), HexValue(s[3]);
    if a < 0 || b < 0 || c < 0 || d < 0 then -1 else a * 4096 + b * 256 + c * 16 + d
  }

  // What a reverse solidus introduces: a character, possibly from two code units.
  function ParseEscape(s: string): (p: Parsed<char>)
    ensures p.Ok? ==> |p.rest| < |s|
  {
    if s == "" then Fail
    else if s[0] == '"' || s[0] == '\\' || s[0] == '/' then Ok(s[0], s[1..])
    else if s[0] == 'b' then Ok(8 as char, s[1..])
    else if s[0] == 'f' then Ok(12 as char, s[1..])
    else if s[0] == 'n' then Ok('\n', s[1..])
    else if s[0] == 'r' then Ok('\r', s[1..])
    else if s[0] == 't' then Ok('\t', s[1..])
    else if s[0] == 'u' && |s| >= 5 then ParseUnit(s)
    else Fail
  }

  function ParseUnit(s: string): (p: Parsed<char>)
    requires |s| >= 5
    ensures p.Ok? ==> |p.rest| < |s|
  {
    var u := Unit(s[1..5]);
    if u < 0 || 0xDC00 <= u < 0xE000 then Fail
    else if u < 0xD800 || 0xE000 <= u then Ok(u as char, s[5..])
    else if |s| >= 11 && s[5] == '\\' && s[6] == 'u' then
      var v := Unit(s[7..11]);
      if 0xDC00 <= v < 0xE000 then Ok((0x10000 + (u - 0xD800) * 0x400 + (v - 0xDC00)) as char, s[11..]) else Fail
    else Fail
  }

  const LOWER := "0123456789abcdef"
  const UPPER := "0123456789ABCDEF"

  // A code unit's four digits, of either case.
  ghost function Digits(u: nat, upper: bool): (s: string)
    requires u < 0x10000
    ensures |s| == 4
  {
    var digits := if upper then UPPER else LOWER;
    [digits[u / 4096], digits[u / 256 % 16], digits[u / 16 % 16], digits[u % 16]]
  }

  lemma DigitValue(v: nat)
    requires v < 16
    ensures HexValue(LOWER[v]) == v && HexValue(UPPER[v]) == v
  {
  }

  lemma FourDigits(u: nat)
    requires u < 0x10000
    ensures u / 4096 < 16 && u == u / 4096 * 4096 + u / 256 % 16 * 256 + u / 16 % 16 * 16 + u % 16
  {
    assert u / 16 == u / 256 * 16 + u / 16 % 16;
    assert u / 256 == u / 4096 * 16 + u / 256 % 16;
  }

  lemma UnitOfDigits(u: nat, upper: bool)
    requires u < 0x10000
    ensures Unit(Digits(u, upper)) == u
  {
    hide HexValue;
    FourDigits(u);
    var a, b, c, d := u / 4096, u / 256 % 16, u / 16 % 16, u % 16;
    DigitValue(a);
    DigitValue(b);
    DigitValue(c);
    DigitValue(d);
    assert Digits(u, upper) == if upper then [UPPER[a], UPPER[b], UPPER[c], UPPER[d]] else [LOWER[a], LOWER[b], LOWER[c], LOWER[d]];
  }

  // Section 7: a character past 0xFFFF is a pair of code units.
  ghost function Units(c: char, upper: bool): string {
    var u := c as int;
    if u < 0x10000 then "u" + Digits(u, upper)
    else "u" + Digits(0xD800 + (u - 0x10000) / 0x400, upper) + "\\u" + Digits(0xDC00 + (u - 0x10000) % 0x400, upper)
  }

  /** Every character escaped by its code units is read back, and so is each short escape. */
  lemma EscapesAreRead(c: char, upper: bool, rest: string)
    ensures ParseEscape(Units(c, upper) + rest) == Ok(c, rest)
  {
    hide Unit, Digits;
    var s := Units(c, upper) + rest;
    if c as int < 0x10000 {
      UnitOfDigits(c as int, upper);
      assert s[1..5] == Digits(c as int, upper) && s[5..] == rest;
    } else {
      var high, low := 0xD800 + (c as int - 0x10000) / 0x400, 0xDC00 + (c as int - 0x10000) % 0x400;
      UnitOfDigits(high, upper);
      UnitOfDigits(low, upper);
      assert s[1..5] == Digits(high, upper) && s[7..11] == Digits(low, upper) && s[11..] == rest;
    }
  }

  lemma ShortEscapesAreRead(rest: string)
    ensures ParseEscape("b" + rest) == Ok(8 as char, rest) && ParseEscape("f" + rest) == Ok(12 as char, rest)
    ensures ParseEscape("n" + rest) == Ok(10 as char, rest) && ParseEscape("r" + rest) == Ok(13 as char, rest)
    ensures ParseEscape("t" + rest) == Ok(9 as char, rest)
  {
    assert ("b" + rest)[1..] == rest && ("f" + rest)[1..] == rest && ("n" + rest)[1..] == rest;
    assert ("r" + rest)[1..] == rest && ("t" + rest)[1..] == rest;
  }

  // A string after its opening quote: control characters must be escaped.
  function ParseString(s: string): (p: Parsed<string>)
    ensures p.Ok? ==> |p.rest| < |s|
    decreases |s|
  {
    if s == "" then Fail
    else if s[0] == '"' then Ok("", s[1..])
    else if s[0] == '\\' then
      var e := ParseEscape(s[1..]);
      if e.Fail? then Fail else Prepend(e.value, ParseString(e.rest))
    else if s[0] < ' ' then Fail
    else Prepend(s[0], ParseString(s[1..]))
  }

  function Prepend(c: char, p: Parsed<string>): Parsed<string> {
    if p.Fail? then Fail else Ok([c] + p.value, p.rest)
  }

  function ParseWord(s: string, word: string, t: Tree): (p: Parsed<Tree>)
    requires word != ""
    ensures p.Ok? ==> |p.rest| < |s|
  {
    if word <= s then Ok(t, s[|word|..]) else Fail
  }

  // Sections 3 to 5: a value, the members of an object after its brace, the items of an array.
  function ParseValue(text: string): (p: Parsed<Tree>)
    ensures p.Ok? ==> |p.rest| < |text|
    decreases |text|, 1
  {
    var s := SkipSpace(text);
    if s == "" then Fail
    else if s[0] == '{' then
      var p := ParseMembers(s[1..], true);
      if p.Fail? then Fail else Ok(Object(p.value), p.rest)
    else if s[0] == '[' then
      var p := ParseItems(s[1..], true);
      if p.Fail? then Fail else Ok(Array(p.value), p.rest)
    else if s[0] == '"' then
      var p := ParseString(s[1..]);
      if p.Fail? then Fail else Ok(Text(p.value), p.rest)
    else if s[0] == 't' then ParseWord(s, "true", Boolean(true))
    else if s[0] == 'f' then ParseWord(s, "false", Boolean(false))
    else if s[0] == 'n' then ParseWord(s, "null", Null)
    else
      var n := NumberLength(s);
      if n == 0 then Fail else Ok(Number(s[..n]), s[n..])
  }

  // The rest of an object: its end, or a member, after a comma unless it is the first.
  function ParseMembers(text: string, first: bool): (p: Parsed<Members>)
    ensures p.Ok? ==> |p.rest| < |text|
    decreases |text|, 3
  {
    var s := SkipSpace(text);
    if s == "" then Fail
    else if s[0] == '}' then Ok(NoMembers, s[1..])
    else if first then ParseMember(s)
    else if s[0] != ',' then Fail
    else ParseMember(s[1..])
  }

  function ParseMember(text: string): (p: Parsed<Members>)
    ensures p.Ok? ==> |p.rest| < |text|
    decreases |text|, 2
  {
    var s := SkipSpace(text);
    if s == "" || s[0] != '"' then Fail
    else
      var key := ParseString(s[1..]);
      if key.Fail? then Fail
      else
        var colon := SkipSpace(key.rest);
        if colon == "" || colon[0] != ':' then Fail
        else
          var value := ParseValue(colon[1..]);
          if value.Fail? then Fail
          else
            var more := ParseMembers(value.rest, false);
            if more.Fail? then Fail else Ok(Member(key.value, value.value, more.value), more.rest)
  }

  function ParseItems(text: string, first: bool): (p: Parsed<Items>)
    ensures p.Ok? ==> |p.rest| < |text|
    decreases |text|, 3
  {
    var s := SkipSpace(text);
    if s == "" then Fail
    else if s[0] == ']' then Ok(NoItems, s[1..])
    else if first then ParseItem(s)
    else if s[0] != ',' then Fail
    else ParseItem(s[1..])
  }

  function ParseItem(text: string): (p: Parsed<Items>)
    ensures p.Ok? ==> |p.rest| < |text|
    decreases |text|, 2
  {
    var head := ParseValue(text);
    if head.Fail? then Fail
    else
      var more := ParseItems(head.rest, false);
      if more.Fail? then Fail else Ok(Item(head.value, more.value), more.rest)
  }

  datatype Result = NotJson | Json(tree: Tree)

  // A text is one value and whitespace.
  function Parse(text: string): Result {
    var p := ParseValue(text);
    if p.Ok? && SkipSpace(p.rest) == "" then Json(p.value) else NotJson
  }
}

/** apps/study/study_metrics.hpp: `JsonWriter`, and the texts it writes. */
module JsonPrinter {
  import opened JsonGrammar

  function EscapedChar(c: char): string {
    if c == '"' || c == '\\' then ['\\', c] else if c == '\n' then "\\n" else [c]
  }

  function Escape(s: string): string {
    if s == "" then "" else EscapedChar(s[0]) + Escape(s[1..])
  }

  function Quoted(s: string): string {
    "\"" + (Escape(s) + "\"")
  }

  function KeyText(k: string): string {
    Quoted(k) + ":"
  }

  function WordOf(t: Tree): string
    requires t.Number? || t.Boolean? || t.Null?
  {
    match t
    case Number(token) => token
    case Boolean(b) => if b then "true" else "false"
    case _ => "null"
  }

  // The compact text of a tree; the texts of members and items run to the closing bracket.
  function Print(t: Tree): string {
    match t
    case Object(members) => "{" + PrintMembers(members, true)
    case Array(items) => "[" + PrintItems(items, true)
    case Text(s) => Quoted(s)
    case _ => WordOf(t)
  }

  function Comma(first: bool): string {
    if first then "" else ","
  }

  function PrintMembers(m: Members, first: bool): string {
    match m
    case NoMembers => "}"
    case Member(k, v, more) => Comma(first) + (KeyText(k) + (Print(v) + PrintMembers(more, false)))
  }

  function PrintItems(i: Items, first: bool): string {
    match i
    case NoItems => "]"
    case Item(v, more) => Comma(first) + (Print(v) + PrintItems(more, false))
  }

  // Strings the writer can carry: no control character but the newline, which it escapes.
  predicate Clean(s: string) {
    forall i | 0 <= i < |s| :: s[i] >= ' ' || s[i] == '\n'
  }

  predicate CleanTree(t: Tree) {
    match t
    case Object(members) => CleanMembers(members)
    case Array(items) => CleanItems(items)
    case Text(s) => Clean(s)
    case _ => true
  }

  predicate CleanMembers(m: Members) {
    m.Member? ==> Clean(m.key) && CleanTree(m.value) && CleanMembers(m.more)
  }

  predicate CleanItems(i: Items) {
    i.Item? ==> CleanTree(i.head) && CleanItems(i.more)
  }

  predicate Token(s: string) {
    s != "" && forall i | 0 <= i < |s| :: NumberChar(s[i])
  }

  // Numbers come as tokens.
  predicate Tokens(t: Tree) {
    match t
    case Object(members) => TokensInMembers(members)
    case Array(items) => TokensInItems(items)
    case Number(token) => Token(token)
    case _ => true
  }

  predicate TokensInMembers(m: Members) {
    m.Member? ==> Tokens(m.value) && TokensInMembers(m.more)
  }

  predicate TokensInItems(i: Items) {
    i.Item? ==> Tokens(i.head) && TokensInItems(i.more)
  }

  lemma Nested(o: string, a: string, b: string, c: string, d: string)
    ensures o + (a + (b + (c + d))) == (((o + a) + b) + c) + d == ((((o + a) + b) + "") + c) + d
  {
    assert ((o + a) + b) + "" == (o + a) + b;
  }

  lemma MembersStep(m: Members, first: bool)
    requires m.Member?
    ensures PrintMembers(m, first) == Comma(first) + (KeyText(m.key) + (Print(m.value) + PrintMembers(m.more, false)))
  {
  }

  lemma ItemsStep(i: Items, first: bool)
    requires i.Item?
    ensures PrintItems(i, first) == Comma(first) + (Print(i.head) + PrintItems(i.more, false))
  {
  }

  lemma NestedItem(o: string, a: string, c: string, d: string)
    ensures o + (a + (c + d)) == ((o + a) + c) + d
  {
  }

  lemma EscapeStep(s: string, i: nat)
    requires i < |s|
    ensures Escape(s[i..]) == EscapedChar(s[i]) + Escape(s[i + 1..])
  {
    assert s[i..][1..] == s[i + 1..];
  }

  /** The writer: its text, and whether a comma is due before the next value. */
  class JsonWriter {
    var out: string
    var needComma: bool
    var justKeyed: bool

    constructor ()
      ensures out == "" && !needComma && !justKeyed
    {
      out, needComma, justKeyed := "", false, false;
    }

    // What a value adds before itself.
    function Due(): string
      reads this
    {
      if !justKeyed && needComma then "," else ""
    }

    method PutComma()
      modifies this
      ensures out == old(out) + old(Due()) && needComma && !justKeyed
    {
      if justKeyed {
        justKeyed, needComma := false, true;
        return;
      }
      if needComma { out := out + ","; }
      needComma := true;
    }

    method Open(c: char)
      modifies this
      ensures out == old(out) + old(Due()) + [c] && !needComma && !justKeyed
    {
      PutComma();
      out := out + [c];
      needComma := false;
    }

    method Close(c: char)
      modifies this
      ensures out == old(out) + [c] && needComma && !justKeyed
    {
      out := out + [c];
      needComma, justKeyed := true, false;
    }

    method Key(k: string)
      modifies this
      ensures out == old(out) + old(Due()) + KeyText(k) && needComma && justKeyed
    {
      PutComma();
      var escaped := EscapeAll(k);
      out := out + (("\"" + (escaped + "\"")) + ":");
      justKeyed := true;
    }

    // A number's digits, or none if it is not finite.
    method PutNumber(token: string, finite: bool)
      modifies this
      ensures out == old(out) + old(Due()) + (if finite then token else "null") && needComma && !justKeyed
    {
      PutComma();
      out := out + if finite then token else "null";
    }

    method PutBoolean(b: bool)
      modifies this
      ensures out == old(out) + old(Due()) + WordOf(Boolean(b)) && needComma && !justKeyed
    {
      PutComma();
      out := out + if b then "true" else "false";
    }

    method PutText(s: string)
      modifies this
      ensures out == old(out) + old(Due()) + Quoted(s) && needComma && !justKeyed
    {
      PutComma();
      var escaped := EscapeAll(s);
      out := out + ("\"" + (escaped + "\""));
    }

    method PutNull()
      modifies this
      ensures out == old(out) + old(Due()) + "null" && needComma && !justKeyed
    {
      PutComma();
      out := out + "null";
    }

    /** The calls of a tree's traversal add exactly its text, after the comma due. */
    method Traverse(t: Tree)
      modifies this
      ensures out == old(out) + old(Due()) + Print(t) && needComma && !justKeyed
      decreases t
    {
      match t
      case Object(members) =>
        Open('{');
        TraverseMembers(members, true);
      case Array(items) =>
        Open('[');
        TraverseItems(items, true);
      case Number(token) => PutNumber(token, true);
      case Boolean(b) => PutBoolean(b);
      case Text(s) => PutText(s);
      case Null => PutNull();
    }

    method TraverseMembers(m: Members, ghost first: bool)
      requires !justKeyed && needComma == !first
      modifies this
      ensures out == old(out) + PrintMembers(m, first) && needComma && !justKeyed
      decreases m
    {
      match m
      case NoMembers => Close('}');
      case Member(k, v, more) =>
        hide Print, KeyText, PrintMembers;
        Nested(out, Comma(first), KeyText(k), Print(v), PrintMembers(more, false));
        MembersStep(m, first);
        Key(k);
        Traverse(v);
        TraverseMembers(more, false);
    }

    method TraverseItems(i: Items, ghost first: bool)
      requires !justKeyed && needComma == !first
      modifies this
      ensures out == old(out) + PrintItems(i, first) && needComma && !justKeyed
      decreases i
    {
      match i
      case NoItems => Close(']');
      case Item(v, more) =>
        hide Print, PrintItems;
        NestedItem(out, Comma(first), Print(v), PrintItems(more, false));
        ItemsStep(i, first);
        Traverse(v);
        TraverseItems(more, false);
    }
  }

  method EscapeAll(s: string) returns (r: string)
    ensures r == Escape(s)
  {
    hide Escape;
    r := "";
    var i := 0;
    assert s[0..] == s && "" + Escape(s) == Escape(s);
    while i < |s|
      invariant 0 <= i <= |s| && r + Escape(s[i..]) == Escape(s)
    {
      EscapeStep(s, i);
      assert r + (EscapedChar(s[i]) + Escape(s[i + 1..])) == (r + EscapedChar(s[i])) + Escape(s[i + 1..]);
      if s[i] == '"' || s[i] == '\\' {
        r := r + ['\\', s[i]];
      } else if s[i] == '\n' {
        r := r + "\\n";
      } else {
        r := r + [s[i]];
      }
      i := i + 1;
    }
    assert r + Escape(s[i..]) == r by { assert s[i..] == ""; NothingEscaped(); }
  }

  lemma NothingEscaped()
    ensures Escape("") == ""
  {
  }

  // What may follow a value: anything that does not go on a number.
  predicate Ends(rest: string) {
    rest == "" || !NumberChar(rest[0])
  }

  lemma Front(c: char, s: string)
    ensures ([c] + s)[0] == c && ([c] + s)[1..] == s
  {
  }

  lemma FrontTwo(c: char, d: char, s: string)
    ensures ([c, d] + s)[0] == c && ([c, d] + s)[1..] == [d] + s && ([d] + s)[0] == d && ([d] + s)[1..] == s
  {
  }

  // A string's text is read back, or fails at its first raw control character.
  lemma {:induction false} StringRoundTrip(s: string, rest: string)
    ensures ParseString(Escape(s) + ("\"" + rest)) == if Clean(s) then Ok(s, rest) else Fail
    decreases |s|
  {
    if s == "" {
      assert Escape(s) + ("\"" + rest) == "\"" + rest;
      Front('"', rest);
    } else {
      var more := Escape(s[1..]) + ("\"" + rest);
      StringRoundTrip(s[1..], rest);
      CleanStep(s);
      assert s == [s[0]] + s[1..];
      assert Escape(s) + ("\"" + rest) == EscapedChar(s[0]) + more;
      CharRoundTrip(s[0], more);
    }
  }

  lemma CleanStep(s: string)
    requires s != ""
    ensures Clean(s) <==> (s[0] >= ' ' || s[0] == '\n') && Clean(s[1..])
  {
    if (s[0] >= ' ' || s[0] == '\n') && Clean(s[1..]) {
      forall i | 0 <= i < |s| ensures s[i] >= ' ' || s[i] == '\n' {
        if i > 0 { assert s[1..][i - 1] == s[i]; }
      }
    }
    if Clean(s) {
      forall i | 0 <= i < |s[1..]| ensures s[1..][i] >= ' ' || s[1..][i] == '\n' { assert s[1..][i] == s[i + 1]; }
    }
  }

  lemma CharRoundTrip(c: char, more: string)
    ensures ParseString(EscapedChar(c) + more)
         == if c >= ' ' || c == '\n' then Prepend(c, ParseString(more)) else Fail
  {
    if c == '"' || c == '\\' {
      FrontTwo('\\', c, more);
    } else if c == '\n' {
      FrontTwo('\\', 'n', more);
    } else {
      Front(c, more);
    }
  }

  lemma {:induction false} TokenLength(token: string, rest: string)
    requires (forall i | 0 <= i < |token| :: NumberChar(token[i])) && Ends(rest)
    ensures NumberLength(token + rest) == |token|
    decreases |token|
  {
    if token == "" {
      assert token + rest == rest;
    } else {
      assert (token + rest)[1..] == token[1..] + rest;
      TokenLength(token[1..], rest);
    }
  }

  lemma NoSpace(s: string)
    requires s != "" && !Space(s[0])
    ensures SkipSpace(s) == s
  {
  }

  lemma WordRoundTrip(t: Tree, rest: string)
    requires (t.Number? && Token(t.token)) || t.Boolean? || t.Null?
    requires Ends(rest)
    ensures ParseValue(WordOf(t) + rest) == Ok(t, rest)
  {
    var w := WordOf(t);
    var s := w + rest;
    assert s[0] == w[0] && s[..|w|] == w && s[|w|..] == rest;
    NoSpace(s);
    if t.Number? {
      assert NumberChar(w[0]);
      TokenLength(w, rest);
    } else {
      assert w <= s;
    }
  }

  lemma TextRoundTrip(x: string, rest: string)
    ensures ParseValue(Quoted(x) + rest) == if Clean(x) then Ok(Text(x), rest) else Fail
  {
    hide Escape, ParseString, Clean;
    var s := Quoted(x) + rest;
    assert s == ['"'] + (Escape(x) + ("\"" + rest));
    Front('"', Escape(x) + ("\"" + rest));
    NoSpace(s);
    StringRoundTrip(x, rest);
  }

  lemma Associate(a: string, b: string, c: string)
    ensures (a + b) + c == a + (b + c)
  {
  }

  lemma MoreMembersEnd(m: Members, rest: string)
    ensures Ends(PrintMembers(m, false) + rest)
  {
  }

  lemma MoreItemsEnd(i: Items, rest: string)
    ensures Ends(PrintItems(i, false) + rest)
  {
  }

  lemma ObjectRoundTrip(m: Members, rest: string)
    requires ParseMembers(PrintMembers(m, true) + rest, true) == if CleanMembers(m) then Ok(m, rest) else Fail
    ensures ParseValue(Print(Object(m)) + rest) == if CleanMembers(m) then Ok(Object(m), rest) else Fail
  {
    hide ParseMembers, PrintMembers;
    Associate("{", PrintMembers(m, true), rest);
    Front('{', PrintMembers(m, true) + rest);
    NoSpace(Print(Object(m)) + rest);
  }

  lemma ArrayRoundTrip(i: Items, rest: string)
    requires ParseItems(PrintItems(i, true) + rest, true) == if CleanItems(i) then Ok(i, rest) else Fail
    ensures ParseValue(Print(Array(i)) + rest) == if CleanItems(i) then Ok(Array(i), rest) else Fail
  {
    hide ParseItems, PrintItems;
    Associate("[", PrintItems(i, true), rest);
    Front('[', PrintItems(i, true) + rest);
    NoSpace(Print(Array(i)) + rest);
  }

  // A key's text is its opening quote, then its escaped characters, quote and colon.
  lemma KeySpelled(k: string, body: string)
    ensures KeyText(k) + body == ['"'] + (Escape(k) + ("\"" + ([':'] + body)))
  {
    hide Escape;
    Associate("\"", Escape(k) + "\"", [':']);
    Associate(Escape(k), "\"", [':']);
    Associate("\"", Escape(k) + ("\"" + [':']), body);
    Associate(Escape(k), "\"" + [':'], body);
    Associate("\"", [':'], body);
  }

  lemma KeyRoundTrip(k: string, body: string)
    ensures var s := KeyText(k) + body;
            && s != "" && s[0] == '"' && SkipSpace(s) == s
            && ParseString(s[1..]) == if Clean(k) then Ok(k, [':'] + body) else Fail
  {
    hide Escape, Clean, ParseString, KeyText;
    KeySpelled(k, body);
    Front('"', Escape(k) + ("\"" + ([':'] + body)));
    StringRoundTrip(k, [':'] + body);
    NoSpace(KeyText(k) + body);
  }

  // A member after its comma: the key, the colon, the value and what follows.
  lemma MemberRoundTrip(k: string, v: Tree, more: Members, after: string, end: Parsed<Members>)
    requires ParseValue(Print(v) + after) == if CleanTree(v) then Ok(v, after) else Fail
    requires ParseMembers(after, false) == end
    ensures ParseMember(KeyText(k) + (Print(v) + after))
         == if Clean(k) && CleanTree(v) && end.Ok? then Ok(Member(k, v, end.value), end.rest) else Fail
  {
    hide Print, KeyText, Clean, CleanTree, ParseString, ParseValue, ParseMembers;
    KeyRoundTrip(k, Print(v) + after);
    Front(':', Print(v) + after);
    NoSpace([':'] + (Print(v) + after));
  }

  lemma {:induction false} RoundTripValue(t: Tree, rest: string)
    requires Tokens(t) && Ends(rest)
    ensures ParseValue(Print(t) + rest) == if CleanTree(t) then Ok(t, rest) else Fail
    decreases t
  {
    hide ParseValue;
    match t
    case Object(m) =>
      RoundTripMembers(m, true, rest);
      ObjectRoundTrip(m, rest);
    case Array(i) =>
      RoundTripItems(i, true, rest);
      ArrayRoundTrip(i, rest);
    case Text(x) => TextRoundTrip(x, rest);
    case _ => WordRoundTrip(t, rest);
  }

  lemma {:induction false} RoundTripMembers(m: Members, first: bool, rest: string)
    requires TokensInMembers(m)
    ensures ParseMembers(PrintMembers(m, first) + rest, first) == if CleanMembers(m) then Ok(m, rest) else Fail
    decreases m
  {
    match m
    case NoMembers =>
      Front('}', rest);
      NoSpace("}" + rest);
    case Member(k, v, more) =>
      hide ParseMember, Print, KeyText;
      var after := PrintMembers(more, false) + rest;
      MoreMembersEnd(more, rest);
      RoundTripValue(v, after);
      RoundTripMembers(more, false, rest);
      MemberRoundTrip(k, v, more, after, if CleanMembers(more) then Ok(more, rest) else Fail);
      var body := KeyText(k) + (Print(v) + after);
      MembersText(k, v, more, first, rest);
      KeyStarts(k, Print(v) + after);
      Front(',', body);
      var text := if first then body else "," + body;
      assert Comma(first) + body == text;
      NoSpace(text);
  }

  lemma MembersText(k: string, v: Tree, more: Members, first: bool, rest: string)
    ensures PrintMembers(Member(k, v, more), first) + rest
         == Comma(first) + (KeyText(k) + (Print(v) + (PrintMembers(more, false) + rest)))
  {
    hide Print, KeyText;
    Associate(Print(v), PrintMembers(more, false), rest);
    Associate(KeyText(k), Print(v) + PrintMembers(more, false), rest);
    Associate(Comma(first), KeyText(k) + (Print(v) + PrintMembers(more, false)), rest);
  }

  lemma KeyStarts(k: string, s: string)
    ensures KeyText(k) + s != "" && (KeyText(k) + s)[0] == '"'
  {
  }

  lemma {:induction false} RoundTripItems(i: Items, first: bool, rest: string)
    requires TokensInItems(i)
    ensures ParseItems(PrintItems(i, first) + rest, first) == if CleanItems(i) then Ok(i, rest) else Fail
    decreases i
  {
    match i
    case NoItems =>
      Front(']', rest);
      NoSpace("]" + rest);
    case Item(v, more) =>
      hide Print, ParseValue;
      var after := PrintItems(more, false) + rest;
      MoreItemsEnd(more, rest);
      RoundTripValue(v, after);
      RoundTripItems(more, false, rest);
      var body := Print(v) + after;
      Associate(Print(v), PrintItems(more, false), rest);
      Associate(Comma(first), Print(v) + PrintItems(more, false), rest);
      ValueStarts(v, after);
      Front(',', body);
      var text := if first then body else "," + body;
      assert Comma(first) + body == text;
      NoSpace(text);
  }

  // A value's text starts with no space and no closing bracket.
  lemma ValueStarts(v: Tree, s: string)
    requires Tokens(v)
    ensures Print(v) + s != "" && !Space((Print(v) + s)[0]) && (Print(v) + s)[0] != ']'
  {
  }

  /** Exactly the trees whose strings and keys hold no control character but the newline are read
      back as they were. */
  lemma RoundTrip(t: Tree)
    requires Tokens(t)
    ensures Parse(Print(t)) == if CleanTree(t) then Json(t) else NotJson
  {
    hide ParseValue, Print;
    RoundTripValue(t, "");
    assert Print(t) + "" == Print(t);
  }

  /** A fresh writer's text of a tree is read back exactly when the tree is clean. */
  method WriteTree(t: Tree) returns (text: string)
    requires Tokens(t)
    ensures Parse(text) == Json(t) <==> CleanTree(t)
    ensures Parse(text) == Json(t) || Parse(text) == NotJson
  {
    hide Print, Parse;
    var writer := new JsonWriter();
    writer.Traverse(t);
    RoundTrip(t);
    assert "" + "" + Print(t) == Print(t);
    text := writer.out;
  }

  /** A tab is a string the writer cannot carry. */
  lemma TabIsLost()
    ensures Parse(Print(Text("\t"))) == NotJson
  {
    RoundTrip(Text("\t"));
    assert "\t"[0] < ' ';
  }
}
