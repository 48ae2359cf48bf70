/** JSON texts without white space (sections 2 to 7 of RFC 8259): quoting, numerals and a recursive-descent reader. */
module JsonText {
  import opened Utf16

  const OPEN_BRACKET: CodeUnit := 0x5B
  const CLOSE_BRACKET: CodeUnit := 0x5D
  const OPEN_BRACE: CodeUnit := 0x7B
  const CLOSE_BRACE: CodeUnit := 0x7D
  const COMMA: CodeUnit := 0x2C
  const COLON: CodeUnit := 0x3A
  const QUOTE: CodeUnit := 0x22
  const BACKSLASH: CodeUnit := 0x5C

  const NULL: Str := [0x6E, 0x75, 0x6C, 0x6C]
  const TRUE: Str := [0x74, 0x72, 0x75, 0x65]
  const FALSE: Str := [0x66, 0x61, 0x6C, 0x73, 0x65]

  /** Digits, the signs, the point and the exponent mark. */
  predicate IsNumeralUnit(
    c: CodeUnit) { 0x30 <= c <= 0x39 || c == 0x2D || c == 0x2B || c == 0x2E || c == 0x65 || c == 0x45 }

  predicate IsNumeral(s: Str) {
    s != [] && (0x30 <= s[0] <= 0x39 || s[0] == 0x2D) && forall i :: 0 <= i < |s| ==> IsNumeralUnit(s[i])
  }

  /** A finite number, as the literal that it prints as: equal numbers have equal literals and conversely. */
  type Numeral = s: Str | IsNumeral(s) witness [0x30]

  /** A parsed value, with objects as maps. */
  datatype Tree =
    | TNull
    | TBool(b: bool)
    | TNumber(literal: Numeral)
    | TText(s: Str)
    | TArray(items: seq<Tree>)
    | TObject(members: map<Str, Tree>)

  // ----- Strings -----

  function HexDigit(n: nat): CodeUnit
    requires n < 16
  {
    if n < 10 then 0x30 + n else 0x61 + n - 10
  }

  function HexValue(c: CodeUnit): int {
    if 0x30 <= c <= 0x39 then c - 0x30 else if 0x61 <= c <= 0x66 then c - 0x61 + 10 else -1
  }

  function UnicodeEscape(c: CodeUnit): Str {
    [BACKSLASH, 0x75, HexDigit(c / 4096), HexDigit(c / 256 % 16), HexDigit(c / 16 % 16), HexDigit(c % 16)]
  }

  /** The letter after the backslash for the units that have a short escape. */
  function ShortEscape(c: CodeUnit): int {
    if c == QUOTE || c == BACKSLASH then c
    else if c == 0x08 then 0x62 else if c == 0x0C then 0x66 else if c == 0x0A then 0x6E
    else if c == 0x0D then 0x72 else if c == 0x09 then 0x74 else -1
  }

  function FromShortEscape(c: CodeUnit): int {
    if c == QUOTE || c == BACKSLASH then c
    else if c == 0x62 then 0x08 else if c == 0x66 then 0x0C else if c == 0x6E then 0x0A
    else if c == 0x72 then 0x0D else if c == 0x74 then 0x09 else -1
  }

  /** Control characters and unpaired surrogates are escaped, the rest is kept. */
  function EscapedUnit(s: Str, i: nat): Str
    requires i < |s|
  {
    if ShortEscape(s[i]) >= 0 then [BACKSLASH, ShortEscape(s[i])]
    else if s[i] < 0x20 || Repaired(s, i) != s[i] then UnicodeEscape(s[i])
    else [s[i]]
  }

  function Escaped(s: Str, i: nat): Str
    requires i <= |s|
    decreases |s| - i
  {
    if i == |s| then [] else EscapedUnit(s, i) + Escaped(s, i + 1)
  }

  function Quote(s: Str): Str { [QUOTE] + Escaped(s, 0) + [QUOTE] }

  /** The escapes, spelled out: two characters for quote, backslash and five controls, a lower-case hexadecimal escape
      for the other controls and for lone surrogates, and none for anything else. */
  lemma EscapeSpells(s: Str, i: nat)
    requires i < |s|
    ensures EscapedUnit(s, i) ==
      if s[i] == '\"' as int then Units("\\\"")
      else if s[i] == '\\' as int then Units("\\\\")
      else if s[i] == 8 then Units("\\b")
      else if s[i] == 9 then Units("\\t")
      else if s[i] == 10 then Units("\\n")
      else if s[i] == 12 then Units("\\f")
      else if s[i] == 13 then Units("\\r")
      else if s[i] < 32 || Lone(s, i) then
        Units("\\u") + [HexChar(s[i] / 4096), HexChar(s[i] / 256 % 16), HexChar(s[i] / 16 % 16), HexChar(s[i] % 16)]
      else [s[i]]
  {
    assert Repaired(s, i) != s[i] <==> Lone(s, i);
    HexSpells(s[i] / 4096);
    HexSpells(s[i] / 256 % 16);
    HexSpells(s[i] / 16 % 16);
    HexSpells(s[i] % 16);
  }

  function HexChar(n: nat): CodeUnit
    requires n < 16
  {
    Units("0123456789abcdef")[n]
  }

  lemma HexSpells(n: nat)
    requires n < 16
    ensures HexDigit(n) == HexChar(n)
  {
  }

  lemma SymbolsSpell()
    ensures NULL == Units("null") && TRUE == Units("true") && FALSE == Units("false")
    ensures [OPEN_BRACKET] == Units("[") && [CLOSE_BRACKET] == Units("]")
    ensures [OPEN_BRACE] == Units("{") && [CLOSE_BRACE] == Units("}")
    ensures [COMMA] == Units(",") && [COLON] == Units(":") && [QUOTE] == Units("\"") && [BACKSLASH] == Units("\\")
  {
  }

  datatype Got<+T> = Fail | Got(value: T, rest: Str)

  /** One unit of a string body, raw or escaped. */
  function ReadUnit(s: Str): (r: Got<CodeUnit>)
    requires s != []
    ensures r.Got? ==> |r.rest| < |s|
  {
    if s[0] != BACKSLASH then if s[0] < 0x20 then Fail else Got(s[0], s[1..])
    else if |s| < 2 then Fail
    else if s[1] != 0x75 then if FromShortEscape(s[1]) < 0 then Fail else Got(FromShortEscape(s[1]), s[2..])
    else if |s| < 6 || HexValue(s[2]) < 0 || HexValue(s[3]) < 0 || HexValue(s[4]) < 0 || HexValue(s[5]) < 0 then Fail
    else Got(HexValue(s[2]) * 4096 + HexValue(s[3]) * 256 + HexValue(s[4]) * 16 + HexValue(s[5]), s[6..])
  }

  /** The rest of a string after its opening quote. */
  function ReadString(s: Str): (r: Got<Str>)
    ensures r.Got? ==> |r.rest| < |s|
    decreases |s|
  {
    if s == [] then Fail
    else if s[0] == QUOTE then Got([], s[1..])
    else match ReadUnit(s)
      case Fail => Fail
      case Got(c, rest) =>
        match ReadString(rest)
        case Fail => Fail
        case Got(more, end) => Got([c] + more, end)
  }

  lemma HexDigitValue(n: nat)
    requires n < 16
    ensures HexValue(HexDigit(n)) == n
  {
  }

  lemma HexSum(c: CodeUnit)
    ensures c / 4096 * 4096 + c / 256 % 16 * 256 + c / 16 % 16 * 16 + c % 16 == c
  {
    assert c / 256 == c / 4096 * 16 + c / 256 % 16;
    assert c / 16 == c / 256 * 16 + c / 16 % 16;
  }

  lemma HexRoundTrip(c: CodeUnit, tail: Str)
    ensures ReadUnit(UnicodeEscape(c) + tail) == Got(c, tail)
  {
    var s := UnicodeEscape(c) + tail;
    HexDigitValue(c / 4096);
    HexDigitValue(c / 256 % 16);
    HexDigitValue(c / 16 % 16);
    HexDigitValue(c % 16);
    HexSum(c);
    assert s[6..] == tail;
  }

  lemma UnitRoundTrip(s: Str, i: nat, tail: Str)
    requires i < |s|
    ensures EscapedUnit(s, i)[0] != QUOTE && ReadUnit(EscapedUnit(s, i) + tail) == Got(s[i], tail)
  {
    HexRoundTrip(s[i], tail);
    assert ([s[i]] + tail)[1..] == tail;
    if ShortEscape(s[i]) >= 0 { assert ([BACKSLASH, ShortEscape(s[i])] + tail)[2..] == tail; }
  }

  lemma Associate(a: Str, b: Str, c: Str)
    ensures a + b + c == a + (b + c)
  {
  }

  lemma StringEnds(tail: Str)
    ensures ReadString([QUOTE] + tail) == Got([], tail)
  {
    assert ([QUOTE] + tail)[1..] == tail;
  }

  lemma {:induction false} StringGoesOn(s: Str, c: CodeUnit, rest: Str)
    requires s != [] && s[0] != QUOTE && ReadUnit(s) == Got(c, rest) && ReadString(rest).Got?
    ensures ReadString(s) == Got([c] + ReadString(rest).value, ReadString(rest).rest)
  {
  }

  lemma UnitThenRest(s: Str, i: nat, rest: Str)
    requires i < |s| && ReadString(rest).Got?
    ensures ReadString(EscapedUnit(s, i) + rest) == Got([s[i]] + ReadString(rest).value, ReadString(rest).rest)
  {
    UnitRoundTrip(s, i, rest);
    StringGoesOn(EscapedUnit(s, i) + rest, s[i], rest);
  }

  /** A string body reads back from any of its units on, whatever follows the closing quote. */
  lemma {:induction false} BodyReads(s: Str, i: nat, end: Str, tail: Str)
    requires i <= |s| && end == [QUOTE] + tail
    ensures ReadString(Escaped(s, i) + end) == Got(s[i..], tail)
    decreases |s| - i
  {
    if i == |s| {
      assert [] + end == end;
      StringEnds(tail);
    } else {
      var unit, rest := EscapedUnit(s, i), Escaped(s, i + 1) + end;
      Associate(unit, Escaped(s, i + 1), end);
      BodyReads(s, i + 1, end, tail);
      UnitThenRest(s, i, rest);
      assert [s[i]] + s[i + 1..] == s[i..];
    }
  }

  lemma StringRoundTrip(s: Str, i: nat, tail: Str)
    requires i <= |s|
    ensures ReadString(Escaped(s, i) + [QUOTE] + tail) == Got(s[i..], tail)
  {
    Associate(Escaped(s, i), [QUOTE], tail);
    BodyReads(s, i, [QUOTE] + tail, tail);
  }

  // ----- Numbers -----

  /** The length of the longest prefix of numeral units. */
  function NumeralLength(s: Str): (n: nat)
    ensures n <= |s| && (forall i :: 0 <= i < n ==> IsNumeralUnit(s[i])) && (n < |s| ==> !IsNumeralUnit(s[n]))
  {
    if s == [] || !IsNumeralUnit(s[0]) then 0 else 1 + NumeralLength(s[1..])
  }

  // ----- Values -----

  function ReadWord(s: Str, word: Str, tree: Tree): (r: Got<Tree>)
    requires word != []
    ensures r.Got? ==> |r.rest| < |s|
  {
    if |word| <= |s| && s[..|word|] == word then Got(tree, s[|word|..]) else Fail
  }

  function ReadValue(s: Str): (r: Got<Tree>)
    ensures r.Got? ==> |r.rest| < |s|
    decreases |s|, 0
  {
    if s == [] then Fail
    else if s[0] == 0x6E then ReadWord(s, NULL, TNull)
    else if s[0] == 0x74 then ReadWord(s, TRUE, TBool(true))
    else if s[0] == 0x66 then ReadWord(s, FALSE, TBool(false))
    else if s[0] == QUOTE then
      match ReadString(s[1..])
      case Fail => Fail
      case Got(text, rest) => Got(TText(text), rest)
    else if s[0] == OPEN_BRACKET then
      if |s| > 1 && s[1] == CLOSE_BRACKET then Got(TArray([]), s[2..])
      else (match ReadItems(s[1..])
            case Fail => Fail
            case Got(items, rest) => Got(TArray(items), rest))
    else if s[0] == OPEN_BRACE then
      if |s| > 1 && s[1] == CLOSE_BRACE then Got(TObject(map[]), s[2..])
      else (match ReadMembers(s[1..], map[])
            case Fail => Fail
            case Got(members, rest) => Got(TObject(members), rest))
    else
      var n := NumeralLength(s);
      if IsNumeral(s[..n]) then Got(TNumber(s[..n]), s[n..]) else Fail
  }

  /** The items of an array that is not empty, and its closing bracket. */
  function ReadItems(s: Str): (r: Got<seq<Tree>>)
    ensures r.Got? ==> |r.rest| < |s|
    decreases |s|, 1
  {
    match ReadValue(s)
    case Fail => Fail
    case Got(first, rest) =>
      if rest == [] then Fail
      else if rest[0] == CLOSE_BRACKET then Got([first], rest[1..])
      else if rest[0] != COMMA then Fail
      else match ReadItems(rest[1..])
        case Fail => Fail
        case Got(more, end) => Got([first] + more, end)
  }

  /** One member: a quoted key, a colon and a value. */
  function ReadMember(s: Str): (r: Got<(Str, Tree)>)
    ensures r.Got? ==> |r.rest| < |s|
    decreases |s|, 1
  {
    if s == [] || s[0] != QUOTE then Fail
    else match ReadString(s[1..])
      case Fail => Fail
      case Got(key, rest) =>
        if rest == [] || rest[0] != COLON then Fail
        else match ReadValue(rest[1..])
          case Fail => Fail
          case Got(tree, end) => Got((key, tree), end)
  }

  /** The members of an object that is not empty, and its closing brace; a repeated key takes its last value. */
  function ReadMembers(s: Str, acc: map<Str, Tree>): (r: Got<map<Str, Tree>>)
    ensures r.Got? ==> |r.rest| < |s|
    decreases |s|, 2
  {
    match ReadMember(s)
    case Fail => Fail
    case Got(member, rest) =>
      if rest == [] then Fail
      else if rest[0] == CLOSE_BRACE then Got(acc[member.0 := member.1], rest[1..])
      else if rest[0] != COMMA then Fail
      else ReadMembers(rest[1..], acc[member.0 := member.1])
  }

  datatype ParseResult = Malformed | Parsed(tree: Tree)

  function Parse(s: Str): ParseResult {
    match ReadValue(s)
    case Got(tree, rest) => if rest == [] then Parsed(tree) else Malformed
    case Fail => Malformed
  }

  // ----- Texts that read as a given tree -----

  /** What may follow a value. */
  predicate Stops(tail: Str) { tail == [] || !IsNumeralUnit(tail[0]) }

  /** The text is one value, whatever follows it. */
  ghost predicate Reads(text: Str, tree: Tree) {
    && text != [] && text[0] != CLOSE_BRACKET
    && forall tail: Str :: Stops(tail) ==> ReadValue(text + tail) == Got(tree, tail)
  }

  lemma WordReads(word: Str, tree: Tree, tail: Str)
    requires word != []
    ensures ReadWord(word + tail, word, tree) == Got(tree, tail)
  {
    assert (word + tail)[..|word|] == word && (word + tail)[|word|..] == tail;
  }

  lemma WordsRead()
    ensures Reads(NULL, TNull) && Reads(TRUE, TBool(true)) && Reads(FALSE, TBool(false))
  {
    forall tail: Str ensures ReadValue(NULL + tail) == Got(TNull, tail) { WordReads(NULL, TNull, tail); }
    forall tail: Str ensures ReadValue(TRUE + tail) == Got(TBool(true), tail) { WordReads(TRUE, TBool(true), tail); }
    forall tail: Str
      ensures ReadValue(FALSE + tail) == Got(TBool(false), tail)
    {
      WordReads(FALSE, TBool(false), tail);
    }
  }

  lemma NumeralStops(s: Str, tail: Str)
    requires (forall i :: 0 <= i < |s| ==> IsNumeralUnit(s[i])) && Stops(tail)
    ensures NumeralLength(s + tail) == |s|
  {
    var t := s + tail;
    assert forall i :: 0 <= i < |s| ==> t[i] == s[i];
    assert tail != [] ==> t[|s|] == tail[0];
    assert NumeralLength(t) <= |s|;
  }

  lemma NumeralReads(literal: Numeral)
    ensures Reads(literal, TNumber(literal))
  {
    forall tail: Str | Stops(tail) ensures ReadValue(literal + tail) == Got(TNumber(literal), tail) {
      NumeralStops(literal, tail);
      var s := literal + tail;
      assert s[0] == literal[0] && s[..|literal|] == literal && s[|literal|..] == tail;
    }
  }

  lemma QuoteReads(s: Str)
    ensures Reads(Quote(s), TText(s))
  {
    forall tail: Str ensures ReadValue(Quote(s) + tail) == Got(TText(s), tail) {
      var rest := Escaped(s, 0) + [QUOTE] + tail;
      assert Quote(s) + tail == [QUOTE] + rest;
      assert ([QUOTE] + rest)[1..] == rest && s[0..] == s;
      StringRoundTrip(s, 0, tail);
    }
  }

  /** Texts separated by commas. */
  function Join(texts: seq<Str>): Str {
    if texts == [] then [] else if |texts| == 1 then texts[0] else texts[0] + [COMMA] + Join(texts[1..])
  }

  /** The same texts up to a closing unit and what follows it, from the right. */
  function Closed(texts: seq<Str>, close: CodeUnit, tail: Str): Str
    requires texts != []
  {
    if |texts| == 1 then texts[0] + ([close] + tail) else texts[0] + ([COMMA] + Closed(texts[1..], close, tail))
  }

  lemma {:induction false} JoinIsClosed(texts: seq<Str>, close: CodeUnit, tail: Str)
    requires texts != []
    ensures Join(texts) + [close] + tail == Closed(texts, close, tail)
  {
    if |texts| == 1 {
      Associate(texts[0], [close], tail);
    } else {
      JoinIsClosed(texts[1..], close, tail);
      Shift(texts[0], Join(texts[1..]), close, tail);
    }
  }

  lemma Shift(first: Str, rest: Str, close: CodeUnit, tail: Str)
    ensures first + [COMMA] + rest + [close] + tail == first + ([COMMA] + (rest + [close] + tail))
  {
  }

  lemma LastItem(text: Str, tree: Tree, tail: Str)
    requires Reads(text, tree)
    ensures ReadItems(text + ([CLOSE_BRACKET] + tail)) == Got([tree], tail)
  {
    var rest := [CLOSE_BRACKET] + tail;
    assert Stops(rest) && rest[1..] == tail;
  }

  lemma ItemThenComma(text: Str, tree: Tree, more: Str)
    requires Reads(text, tree) && ReadItems(more).Got?
    ensures ReadItems(text + ([COMMA] + more)) == Got([tree] + ReadItems(more).value, ReadItems(more).rest)
  {
    var rest := [COMMA] + more;
    assert Stops(rest) && rest[1..] == more;
  }

  lemma {:induction false} ItemsRead(texts: seq<Str>, trees: seq<Tree>, tail: Str)
    requires texts != [] && |texts| == |trees| && forall i :: 0 <= i < |texts| ==> Reads(texts[i], trees[i])
    ensures ReadItems(Closed(texts, CLOSE_BRACKET, tail)) == Got(trees, tail)
  {
    if |texts| == 1 {
      LastItem(texts[0], trees[0], tail);
      assert trees == [trees[0]];
    } else {
      ItemsRead(texts[1..], trees[1..], tail);
      ItemThenComma(texts[0], trees[0], Closed(texts[1..], CLOSE_BRACKET, tail));
      assert [trees[0]] + trees[1..] == trees;
    }
  }

  lemma JoinStarts(texts: seq<Str>)
    requires texts != [] && texts[0] != []
    ensures Join(texts) != [] && Join(texts)[0] == texts[0][0]
  {
  }

  lemma BracketOpens(rest: Str)
    requires rest != []
    ensures ReadValue([OPEN_BRACKET] + rest) ==
      if rest[0] == CLOSE_BRACKET then Got(TArray([]), rest[1..])
      else match ReadItems(rest) case Fail => Fail case Got(items, end) => Got(TArray(items), end)
  {
    var s := [OPEN_BRACKET] + rest;
    assert s[1..] == rest && s[2..] == rest[1..] && s[1] == rest[0];
  }

  lemma BraceOpens(rest: Str)
    requires rest != []
    ensures ReadValue([OPEN_BRACE] + rest) ==
      if rest[0] == CLOSE_BRACE then Got(TObject(map[]), rest[1..])
      else match ReadMembers(rest, map[]) case Fail => Fail case Got(members, end) => Got(TObject(members), end)
  {
    var s := [OPEN_BRACE] + rest;
    assert s[1..] == rest && s[2..] == rest[1..] && s[1] == rest[0];
  }

  lemma Regroup(open: CodeUnit, inner: Str, close: CodeUnit, tail: Str)
    ensures [open] + inner + [close] + tail == [open] + (inner + [close] + tail)
  {
  }

  lemma ArrayReadsBefore(texts: seq<Str>, trees: seq<Tree>, tail: Str)
    requires |texts| == |trees| && forall i :: 0 <= i < |texts| ==> Reads(texts[i], trees[i])
    ensures ReadValue([OPEN_BRACKET] + Join(texts) + [CLOSE_BRACKET] + tail) == Got(TArray(trees), tail)
  {
    var rest := Join(texts) + [CLOSE_BRACKET] + tail;
    Regroup(OPEN_BRACKET, Join(texts), CLOSE_BRACKET, tail);
    BracketOpens(rest);
    if texts == [] {
      assert rest == [CLOSE_BRACKET] + tail && rest[1..] == tail;
    } else {
      assert Reads(texts[0], trees[0]);
      JoinStarts(texts);
      assert rest[0] == texts[0][0];
      JoinIsClosed(texts, CLOSE_BRACKET, tail);
      ItemsRead(texts, trees, tail);
    }
  }

  lemma ArrayReads(texts: seq<Str>, trees: seq<Tree>)
    requires |texts| == |trees| && forall i :: 0 <= i < |texts| ==> Reads(texts[i], trees[i])
    ensures Reads([OPEN_BRACKET] + Join(texts) + [CLOSE_BRACKET], TArray(trees))
  {
    var text := [OPEN_BRACKET] + Join(texts) + [CLOSE_BRACKET];
    forall tail: Str
      ensures ReadValue(text + tail) == Got(TArray(trees), tail)
    {
      ArrayReadsBefore(texts, trees, tail);
    }
  }

  /** A member with the text of its value and the tree that the text stands for. */
  datatype Pair = Pair(key: Str, text: Str, tree: Tree)

  function PairText(p: Pair): Str { Quote(p.key) + [COLON] + p.text }

  function PairTexts(
    members: seq<Pair>): seq<Str> { seq(|members|, i requires 0 <= i < |members| => PairText(members[i])) }

  function AllOf(members: seq<Pair>, acc: map<Str, Tree>): map<Str, Tree> {
    if members == [] then acc else AllOf(members[1..], acc[members[0].key := members[0].tree])
  }

  lemma RegroupMember(p: Pair, tail: Str)
    ensures PairText(p) + tail == [QUOTE] + (Escaped(p.key, 0) + [QUOTE] + ([COLON] + (p.text + tail)))
  {
    var value := p.text + tail;
    assert Quote(p.key) + [COLON] + p.text + tail == Quote(p.key) + ([COLON] + value);
    assert [QUOTE] + Escaped(p.key, 0) + [QUOTE] + ([COLON] + value) ==
      [QUOTE] + (Escaped(p.key, 0) + [QUOTE] + ([COLON] + value));
  }

  lemma KeyReads(key: Str, value: Str)
    requires ReadValue(value).Got?
    ensures ReadMember([QUOTE] + (Escaped(key, 0) + [QUOTE] + ([COLON] + value))) ==
      Got((key, ReadValue(value).value), ReadValue(value).rest)
  {
    var rest := Escaped(key, 0) + [QUOTE] + ([COLON] + value);
    assert ([QUOTE] + rest)[1..] == rest && key[0..] == key;
    StringRoundTrip(key, 0, [COLON] + value);
    assert ([COLON] + value)[1..] == value;
  }

  lemma MemberReads(p: Pair, tail: Str)
    requires Reads(p.text, p.tree) && Stops(tail)
    ensures ReadMember(PairText(p) + tail) == Got((p.key, p.tree), tail)
  {
    RegroupMember(p, tail);
    KeyReads(p.key, p.text + tail);
  }

  /** The two ways a member can be followed. */
  lemma LastMember(p: Pair, acc: map<Str, Tree>, tail: Str)
    requires Reads(p.text, p.tree)
    ensures ReadMembers(PairText(p) + ([CLOSE_BRACE] + tail), acc) == Got(acc[p.key := p.tree], tail)
  {
    var rest := [CLOSE_BRACE] + tail;
    MemberReads(p, rest);
    assert rest[1..] == tail;
  }

  lemma MemberThenComma(p: Pair, acc: map<Str, Tree>, more: Str)
    requires Reads(p.text, p.tree)
    ensures ReadMembers(PairText(p) + ([COMMA] + more), acc) == ReadMembers(more, acc[p.key := p.tree])
  {
    var rest := [COMMA] + more;
    MemberReads(p, rest);
    assert rest[1..] == more;
  }

  lemma {:induction false} MembersRead(members: seq<Pair>, acc: map<Str, Tree>, tail: Str)
    requires members != [] && forall i :: 0 <= i < |members| ==> Reads(members[i].text, members[i].tree)
    ensures ReadMembers(Closed(PairTexts(members), CLOSE_BRACE, tail), acc) == Got(AllOf(members, acc), tail)
    decreases members
  {
    var p, texts := members[0], PairTexts(members);
    assert texts[0] == PairText(p);
    if |members| == 1 {
      LastMember(p, acc, tail);
      assert members[1..] == [];
    } else {
      assert texts[1..] == PairTexts(members[1..]);
      MemberThenComma(p, acc, Closed(texts[1..], CLOSE_BRACE, tail));
      MembersRead(members[1..], acc[p.key := p.tree], tail);
    }
  }

  lemma ObjectReadsBefore(members: seq<Pair>, tail: Str)
    requires forall i :: 0 <= i < |members| ==> Reads(members[i].text, members[i].tree)
    ensures ReadValue([OPEN_BRACE] + Join(PairTexts(members)) + [CLOSE_BRACE] + tail) ==
      Got(TObject(AllOf(members, map[])), tail)
  {
    var texts := PairTexts(members);
    var rest := Join(texts) + [CLOSE_BRACE] + tail;
    Regroup(OPEN_BRACE, Join(texts), CLOSE_BRACE, tail);
    BraceOpens(rest);
    if members == [] {
      assert rest == [CLOSE_BRACE] + tail && rest[1..] == tail;
    } else {
      assert texts[0] == PairText(members[0]) && texts[0][0] == QUOTE;
      JoinStarts(texts);
      assert rest[0] == QUOTE;
      JoinIsClosed(texts, CLOSE_BRACE, tail);
      MembersRead(members, map[], tail);
    }
  }

  lemma ObjectReads(members: seq<Pair>)
    requires forall i :: 0 <= i < |members| ==> Reads(members[i].text, members[i].tree)
    ensures Reads([OPEN_BRACE] + Join(PairTexts(members)) + [CLOSE_BRACE], TObject(AllOf(members, map[])))
  {
    var text, tree := [OPEN_BRACE] + Join(PairTexts(members)) + [CLOSE_BRACE], TObject(AllOf(members, map[]));
    forall tail: Str ensures ReadValue(text + tail) == Got(tree, tail) { ObjectReadsBefore(members, tail); }
  }
}
