/**
 JSON texts as sequences of UTF-16 code units, and the grammar of RFC 8259
 sections 2 to 7 as concrete syntax trees.  A text is a JSON text exactly when it
 is the print of a well-formed tree between two runs of insignificant whitespace.
 */
module JsonText {
  import opened Common

  type CodeUnit = u: int | 0 <= u < 0x1_0000
  type Text = seq<CodeUnit>

  const QUOTE: CodeUnit := 0x22
  const BACKSLASH: CodeUnit := 0x5C
  const COMMA: CodeUnit := 0x2C
  const COLON: CodeUnit := 0x3A
  const MINUS: CodeUnit := 0x2D
  const PLUS: CodeUnit := 0x2B
  const POINT: CodeUnit := 0x2E
  const ZERO: CodeUnit := 0x30
  const LOWER_E: CodeUnit := 0x65
  const UPPER_E: CodeUnit := 0x45
  const LOWER_U: CodeUnit := 0x75
  const OPEN_OBJECT: CodeUnit := 0x7B
  const CLOSE_OBJECT: CodeUnit := 0x7D
  const OPEN_ARRAY: CodeUnit := 0x5B
  const CLOSE_ARRAY: CodeUnit := 0x5D
  const TRUE_TEXT: Text := [0x74, 0x72, 0x75, 0x65]
  const FALSE_TEXT: Text := [0x66, 0x61, 0x6C, 0x73, 0x65]
  const NULL_TEXT: Text := [0x6E, 0x75, 0x6C, 0x6C]

  predicate IsWs(u: CodeUnit) {
    u == 0x20 || u == 0x09 || u == 0x0A || u == 0x0D
  }

  predicate AllWs(t: Text) {
    forall i :: 0 <= i < |t| ==> IsWs(t[i])
  }

  predicate IsDigit(u: CodeUnit) {
    0x30 <= u <= 0x39
  }

  predicate Digits(t: Text) {
    |t| > 0 && forall i :: 0 <= i < |t| ==> IsDigit(t[i])
  }

  predicate IsHex(u: CodeUnit) {
    IsDigit(u) || 0x61 <= u <= 0x66 || 0x41 <= u <= 0x46
  }

  function HexValue(u: CodeUnit): (v: nat)
    ensures IsHex(u) ==> v < 16
  {
    if IsDigit(u) then u - 0x30
    else if 0x61 <= u <= 0x66 then u - 0x57
    else if 0x41 <= u <= 0x46 then u - 0x37
    else 0
  }

  // ----- Strings (section 7) -----

  datatype StrChar = Plain(u: CodeUnit) | Short(letter: CodeUnit) | Hex(a: CodeUnit, b: CodeUnit, c: CodeUnit, d: CodeUnit)

  predicate IsShort(u: CodeUnit) {
    u == QUOTE || u == BACKSLASH || u == 0x2F || u == 0x62 || u == 0x66 || u == 0x6E || u == 0x72 || u == 0x74
  }

  predicate IsPlain(u: CodeUnit) {
    u >= 0x20 && u != QUOTE && u != BACKSLASH
  }

  predicate ValidChar(c: StrChar) {
    match c
    case Plain(u) => IsPlain(u)
    case Short(letter) => IsShort(letter)
    case Hex(a, b, c, d) => IsHex(a) && IsHex(b) && IsHex(c) && IsHex(d)
  }

  predicate ValidChars(cs: seq<StrChar>) {
    forall i :: 0 <= i < |cs| ==> ValidChar(cs[i])
  }

  function PrintChar(c: StrChar): Text {
    match c
    case Plain(u) => [u]
    case Short(letter) => [BACKSLASH, letter]
    case Hex(a, b, c, d) => [BACKSLASH, LOWER_U, a, b, c, d]
  }

  function DecodeChar(c: StrChar): CodeUnit
    requires ValidChar(c)
  {
    match c
    case Plain(u) => u
    case Short(letter) =>
      if letter == 0x62 then 0x08
      else if letter == 0x66 then 0x0C
      else if letter == 0x6E then 0x0A
      else if letter == 0x72 then 0x0D
      else if letter == 0x74 then 0x09
      else letter
    case Hex(a, b, c, d) => HexValue(a) * 4096 + HexValue(b) * 256 + HexValue(c) * 16 + HexValue(d)
  }

  function PrintChars(cs: seq<StrChar>): Text {
    if cs == [] then [] else PrintChar(cs[0]) + PrintChars(cs[1..])
  }

  function Decode(cs: seq<StrChar>): (t: Text)
    requires ValidChars(cs)
    ensures |t| == |cs|
  {
    if cs == [] then [] else [DecodeChar(cs[0])] + Decode(cs[1..])
  }

  function PrintString(cs: seq<StrChar>): Text {
    [QUOTE] + PrintChars(cs) + [QUOTE]
  }

  // ----- Numbers (section 6) -----

  datatype Exponent = Exponent(marker: CodeUnit, sign: Text, digits: Text)
  datatype NumberLit = NumberLit(negative: bool, whole: Text, fraction: Option<Text>, exponent: Option<Exponent>)

  predicate ValidExponent(e: Exponent) {
    && (e.marker == LOWER_E || e.marker == UPPER_E)
    && (e.sign == [] || e.sign == [PLUS] || e.sign == [MINUS])
    && Digits(e.digits)
  }

  predicate ValidNumber(n: NumberLit) {
    && Digits(n.whole) && (n.whole[0] == ZERO ==> |n.whole| == 1)
    && (n.fraction.Some? ==> Digits(n.fraction.value))
    && (n.exponent.Some? ==> ValidExponent(n.exponent.value))
  }

  function PrintFraction(f: Option<Text>): Text {
    if f.Some? then [POINT] + f.value else []
  }

  function PrintExponent(e: Option<Exponent>): Text {
    if e.Some? then [e.value.marker] + e.value.sign + e.value.digits else []
  }

  function PrintNumber(n: NumberLit): Text {
    (if n.negative then [MINUS] else []) + n.whole + PrintFraction(n.fraction) + PrintExponent(n.exponent)
  }

  // ----- Values, arrays and objects (sections 2 to 5) -----

  datatype Value =
    | TrueLit
    | FalseLit
    | NullLit
    | Number(number: NumberLit)
    | String(chars: seq<StrChar>)
    | EmptyArray(ws: Text)
    | Array(items: Items)
    | EmptyObject(ws: Text)
    | Object(members: Members)

  datatype Items =
    | LastItem(pre: Text, value: Value, post: Text)
    | NextItem(pre: Text, value: Value, post: Text, rest: Items)

  datatype Entry = Entry(pre: Text, name: seq<StrChar>, mid: Text, gap: Text, value: Value)

  datatype Members =
    | LastMember(entry: Entry, post: Text)
    | NextMember(entry: Entry, post: Text, rest: Members)

  predicate Valid(v: Value) {
    match v
    case Number(n) => ValidNumber(n)
    case String(cs) => ValidChars(cs)
    case EmptyArray(ws) => AllWs(ws)
    case EmptyObject(ws) => AllWs(ws)
    case Array(items) => ValidItems(items)
    case Object(members) => ValidMembers(members)
    case _ => true
  }

  predicate ValidItems(items: Items) {
    AllWs(items.pre) && Valid(items.value) && AllWs(items.post) && (items.NextItem? ==> ValidItems(items.rest))
  }

  predicate ValidEntry(e: Entry) {
    AllWs(e.pre) && ValidChars(e.name) && AllWs(e.mid) && AllWs(e.gap) && Valid(e.value)
  }

  predicate ValidMembers(ms: Members) {
    ValidEntry(ms.entry) && AllWs(ms.post) && (ms.NextMember? ==> ValidMembers(ms.rest))
  }

  function Print(v: Value): Text {
    match v
    case TrueLit => TRUE_TEXT
    case FalseLit => FALSE_TEXT
    case NullLit => NULL_TEXT
    case Number(n) => PrintNumber(n)
    case String(cs) => PrintString(cs)
    case EmptyArray(ws) => [OPEN_ARRAY] + (ws + [CLOSE_ARRAY])
    case Array(items) => [OPEN_ARRAY] + PrintItems(items)
    case EmptyObject(ws) => [OPEN_OBJECT] + (ws + [CLOSE_OBJECT])
    case Object(members) => [OPEN_OBJECT] + PrintMembers(members)
  }

  // The items of an array with the separators between them and the closing bracket.
  function PrintItems(items: Items): Text {
    items.pre + (Print(items.value) + (items.post +
      (match items
       case LastItem(_, _, _) => [CLOSE_ARRAY]
       case NextItem(_, _, _, rest) => [COMMA] + PrintItems(rest))))
  }

  function PrintEntry(e: Entry): Text {
    e.pre + (PrintString(e.name) + (e.mid + ([COLON] + (e.gap + Print(e.value)))))
  }

  // The members of an object with the separators between them and the closing brace.
  function PrintMembers(ms: Members): Text {
    PrintEntry(ms.entry) + (ms.post +
      (match ms
       case LastMember(_, _) => [CLOSE_OBJECT]
       case NextMember(_, _, rest) => [COMMA] + PrintMembers(rest)))
  }

  // The number of values in a tree, and how deep they nest; a root alone has depth 0.
  function Nodes(v: Value): (n: nat)
    ensures n >= 1
  {
    match v
    case Array(items) => 1 + ItemNodes(items)
    case Object(members) => 1 + MemberNodes(members)
    case _ => 1
  }

  function ItemNodes(items: Items): nat {
    Nodes(items.value) + if items.NextItem? then ItemNodes(items.rest) else 0
  }

  function MemberNodes(ms: Members): nat {
    Nodes(ms.entry.value) + if ms.NextMember? then MemberNodes(ms.rest) else 0
  }

  function Max(a: nat, b: nat): nat {
    if a >= b then a else b
  }

  function Depth(v: Value): nat {
    match v
    case Array(items) => 1 + ItemDepth(items)
    case Object(members) => 1 + MemberDepth(members)
    case _ => 0
  }

  function ItemDepth(items: Items): nat {
    Max(Depth(items.value), if items.NextItem? then ItemDepth(items.rest) else 0)
  }

  function MemberDepth(ms: Members): nat {
    Max(Depth(ms.entry.value), if ms.NextMember? then MemberDepth(ms.rest) else 0)
  }

  function Names(ms: Members): seq<Text>
    requires ValidMembers(ms)
  {
    assert ValidEntry(ms.entry);
    [Decode(ms.entry.name)] + if ms.NextMember? then Names(ms.rest) else []
  }

  predicate Distinct(names: seq<Text>) {
    forall i, j :: 0 <= i < j < |names| ==> names[i] != names[j]
  }

  // No object anywhere in the tree has two members whose decoded names are equal.
  predicate UniqueNames(v: Value)
    requires Valid(v)
  {
    match v
    case Array(items) => ItemsUnique(items)
    case Object(members) => Distinct(Names(members)) && MembersUnique(members)
    case _ => true
  }

  predicate ItemsUnique(items: Items)
    requires ValidItems(items)
  {
    UniqueNames(items.value) && (items.NextItem? ==> ItemsUnique(items.rest))
  }

  predicate MembersUnique(ms: Members)
    requires ValidMembers(ms)
  {
    assert ValidEntry(ms.entry);
    UniqueNames(ms.entry.value) && (ms.NextMember? ==> MembersUnique(ms.rest))
  }

  // t is the RFC 8259 text of the tree v: v between insignificant whitespace.
  ghost predicate TextOf(t: Text, v: Value) {
    Valid(v) && exists before: Text, after: Text :: AllWs(before) && AllWs(after) && t == before + Print(v) + after
  }
}
