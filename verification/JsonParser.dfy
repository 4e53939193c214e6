/**
 What one pass over a text finds: a recursive-descent parse with the scanner's
 node and depth limits, its duplicate-name check and its order of errors.
 The lemmas show that it succeeds exactly on the prints of well-formed trees.
 */
module JsonParser {
  import opened Common
  import opened JsonText

  datatype Limits = Limits(maxNodes: int, maxDepth: int)
  datatype Failure = Syntax | Duplicate | LimitExceeded
  datatype Parsed<+T> = Parsed(value: T, next: nat, nodes: nat) | Failed(why: Failure)

  // ----- Lexical parts -----

  function SkipWs(t: Text, i: nat): (r: nat)
    requires i <= |t|
    ensures i <= r <= |t|
    ensures AllWs(t[i..r]) && (r == |t| || !IsWs(t[r]))
    decreases |t| - i
  {
    if i < |t| && IsWs(t[i]) then SkipWs(t, i + 1) else i
  }

  function DigitsEnd(t: Text, i: nat): (r: nat)
    requires i <= |t|
    ensures i <= r <= |t|
    ensures forall k :: i <= k < r ==> IsDigit(t[k])
    ensures r == |t| || !IsDigit(t[r])
    decreases |t| - i
  {
    if i < |t| && IsDigit(t[i]) then DigitsEnd(t, i + 1) else i
  }

  // What JSON.parse makes of the characters of a string literal, from after its
  // opening quote, when hi is where the text ends.
  function ParseChars(t: Text, i: nat, hi: nat): (r: Option<(seq<StrChar>, nat)>)
    requires hi <= |t|
    ensures r.Some? ==> i < r.value.1 <= hi && ValidChars(r.value.0)
    decreases hi - i
  {
    if i >= hi then None
    else if t[i] == QUOTE then Some(([], i + 1))
    else if t[i] == BACKSLASH then
      if i + 1 < hi && IsShort(t[i + 1]) then Cons(Short(t[i + 1]), ParseChars(t, i + 2, hi))
      else if i + 5 < hi && t[i + 1] == LOWER_U && IsHex(t[i + 2]) && IsHex(t[i + 3]) && IsHex(t[i + 4]) && IsHex(t[i + 5]) then
        Cons(Hex(t[i + 2], t[i + 3], t[i + 4], t[i + 5]), ParseChars(t, i + 6, hi))
      else None
    else if IsPlain(t[i]) then Cons(Plain(t[i]), ParseChars(t, i + 1, hi))
    else None
  }

  function Cons(c: StrChar, r: Option<(seq<StrChar>, nat)>): Option<(seq<StrChar>, nat)> {
    if r.Some? then Some(([c] + r.value.0, r.value.1)) else None
  }

  function ParseString(t: Text, i: nat): (r: Option<(seq<StrChar>, nat)>)
    ensures r.Some? ==> i < r.value.1 <= |t| && ValidChars(r.value.0)
  {
    if i < |t| && t[i] == QUOTE then ParseChars(t, i + 1, |t|) else None
  }

  function ParseFraction(t: Text, k: nat): (r: (Option<Text>, nat))
    requires k <= |t|
    ensures k <= r.1 <= |t|
  {
    if k + 1 < |t| && t[k] == POINT && IsDigit(t[k + 1]) then
      var e := DigitsEnd(t, k + 1);
      (Some(t[k + 1..e]), e)
    else (None, k)
  }

  function ParseExponent(t: Text, k: nat): (r: (Option<Exponent>, nat))
    requires k <= |t|
    ensures k <= r.1 <= |t|
  {
    if k < |t| && (t[k] == LOWER_E || t[k] == UPPER_E) then
      var g := if k + 1 < |t| && (t[k + 1] == PLUS || t[k + 1] == MINUS) then k + 2 else k + 1;
      if g < |t| && IsDigit(t[g]) then
        var e := DigitsEnd(t, g);
        (Some(Exponent(t[k], t[k + 1..g], t[g..e])), e)
      else (None, k)
    else (None, k)
  }

  function WholeEnd(t: Text, j: nat): (k: nat)
    requires j < |t| && IsDigit(t[j])
    ensures j < k <= |t|
    ensures Digits(t[j..k]) && (t[j] == ZERO ==> k == j + 1)
  {
    if t[j] == ZERO then j + 1 else DigitsEnd(t, j + 1)
  }

  // The longest match of the number alternative of JSON_PRIMITIVE.
  function ParseNumber(t: Text, i: nat): (r: Option<(NumberLit, nat)>)
    requires i <= |t|
    ensures r.Some? ==> i < r.value.1 <= |t|
  {
    var negative := i < |t| && t[i] == MINUS;
    var j := if negative then i + 1 else i;
    if j >= |t| || !IsDigit(t[j]) then None
    else
      var k := WholeEnd(t, j);
      var (fraction, f) := ParseFraction(t, k);
      var (exponent, e) := ParseExponent(t, f);
      Some((NumberLit(negative, t[j..k], fraction, exponent), e))
  }

  // p stands in t from i on.
  predicate At(t: Text, i: nat, p: Text) {
    i + |p| <= |t| && forall k :: 0 <= k < |p| ==> t[i + k] == p[k]
  }

  function ParsePrimitive(t: Text, i: nat): (r: Option<(Value, nat)>)
    requires i <= |t|
    ensures r.Some? ==> i < r.value.1 <= |t|
  {
    if At(t, i, TRUE_TEXT) then Some((TrueLit, i + 4))
    else if At(t, i, FALSE_TEXT) then Some((FalseLit, i + 5))
    else if At(t, i, NULL_TEXT) then Some((NullLit, i + 4))
    else
      var n := ParseNumber(t, i);
      if n.Some? then Some((Number(n.value.0), n.value.1)) else None
  }

  // ----- Values -----

  function ParseValue(t: Text, i: nat, n: nat, d: nat, lim: Limits): (r: Parsed<Value>)
    requires i <= |t|
    ensures r.Parsed? ==> i < r.next <= |t|
    decreases |t| - i, 0
  {
    if n + 1 > lim.maxNodes || d > lim.maxDepth then Failed(LimitExceeded)
    else
      var j := SkipWs(t, i);
      if j < |t| && t[j] == OPEN_OBJECT then ParseObject(t, j + 1, n + 1, d, lim)
      else if j < |t| && t[j] == OPEN_ARRAY then ParseArray(t, j + 1, n + 1, d, lim)
      else if j < |t| && t[j] == QUOTE then
        var s := ParseString(t, j);
        if s.Some? then Parsed(String(s.value.0), s.value.1, n + 1) else Failed(Syntax)
      else
        var p := ParsePrimitive(t, j);
        if p.Some? then Parsed(p.value.0, p.value.1, n + 1) else Failed(Syntax)
  }

  function ParseArray(t: Text, i: nat, n: nat, d: nat, lim: Limits): (r: Parsed<Value>)
    requires i <= |t|
    ensures r.Parsed? ==> i < r.next <= |t|
    decreases |t| - i, 3
  {
    var j := SkipWs(t, i);
    if j < |t| && t[j] == CLOSE_ARRAY then Parsed(EmptyArray(t[i..j]), j + 1, n)
    else
      match ParseItems(t, i, n, d, lim)
      case Failed(why) => Failed(why)
      case Parsed(items, next, nodes) => Parsed(Array(items), next, nodes)
  }

  function ParseItems(t: Text, i: nat, n: nat, d: nat, lim: Limits): (r: Parsed<Items>)
    requires i <= |t|
    ensures r.Parsed? ==> i < r.next <= |t|
    decreases |t| - i, 1
  {
    match ParseValue(t, i, n, d + 1, lim)
    case Failed(why) => Failed(why)
    case Parsed(v, e, nodes) =>
      var pre, p := t[i..SkipWs(t, i)], SkipWs(t, e);
      if p < |t| && t[p] == CLOSE_ARRAY then Parsed(LastItem(pre, v, t[e..p]), p + 1, nodes)
      else if p < |t| && t[p] == COMMA then
        match ParseItems(t, p + 1, nodes, d, lim)
        case Failed(why) => Failed(why)
        case Parsed(rest, next, total) => Parsed(NextItem(pre, v, t[e..p], rest), next, total)
      else Failed(Syntax)
  }

  function ParseObject(t: Text, i: nat, n: nat, d: nat, lim: Limits): (r: Parsed<Value>)
    requires i <= |t|
    ensures r.Parsed? ==> i < r.next <= |t|
    decreases |t| - i, 3
  {
    var j := SkipWs(t, i);
    if j < |t| && t[j] == CLOSE_OBJECT then Parsed(EmptyObject(t[i..j]), j + 1, n)
    else
      match ParseMembers(t, i, n, d, {}, lim)
      case Failed(why) => Failed(why)
      case Parsed(members, next, nodes) => Parsed(Object(members), next, nodes)
  }

  // seen holds the decoded names met so far in this object.
  function ParseEntry(t: Text, i: nat, n: nat, d: nat, seen: set<Text>, lim: Limits): (r: Parsed<Entry>)
    requires i <= |t|
    ensures r.Parsed? ==> i < r.next <= |t| && ValidChars(r.value.name)
    decreases |t| - i, 1
  {
    var j := SkipWs(t, i);
    var s := ParseString(t, j);
    if s.None? then Failed(Syntax)
    else
      var (name, k) := s.value;
      if Decode(name) in seen then Failed(Duplicate)
      else
        var m := SkipWs(t, k);
        if m == |t| || t[m] != COLON then Failed(Syntax)
        else
          match ParseValue(t, m + 1, n, d + 1, lim)
          case Failed(why) => Failed(why)
          case Parsed(v, e, nodes) => Parsed(Entry(t[i..j], name, t[k..m], t[m + 1..SkipWs(t, m + 1)], v), e, nodes)
  }

  function ParseMembers(t: Text, i: nat, n: nat, d: nat, seen: set<Text>, lim: Limits): (r: Parsed<Members>)
    requires i <= |t|
    ensures r.Parsed? ==> i < r.next <= |t|
    decreases |t| - i, 2
  {
    match ParseEntry(t, i, n, d, seen, lim)
    case Failed(why) => Failed(why)
    case Parsed(entry, e, nodes) =>
      var p := SkipWs(t, e);
      if p < |t| && t[p] == CLOSE_OBJECT then Parsed(LastMember(entry, t[e..p]), p + 1, nodes)
      else if p < |t| && t[p] == COMMA then
        match ParseMembers(t, p + 1, nodes, d, seen + {Decode(entry.name)}, lim)
        case Failed(why) => Failed(why)
        case Parsed(rest, next, total) => Parsed(NextMember(entry, t[e..p], rest), next, total)
      else Failed(Syntax)
  }

  function ParseText(t: Text, lim: Limits): (r: Parsed<Value>)
    ensures r.Parsed? ==> r.next == |t|
  {
    match ParseValue(t, SkipWs(t, 0), 0, 0, lim)
    case Failed(why) => Failed(why)
    case Parsed(v, e, nodes) => if SkipWs(t, e) == |t| then Parsed(v, |t|, nodes) else Failed(Syntax)
  }

  // ----- Where texts sit inside a text -----

  lemma AtConcat(t: Text, i: nat, p: Text, q: Text)
    ensures At(t, i, p + q) <==> At(t, i, p) && At(t, i + |p|, q)
  {
    if At(t, i, p + q) {
      assert forall k :: 0 <= k < |p| ==> p[k] == (p + q)[k];
      assert forall k :: 0 <= k < |q| ==> q[k] == (p + q)[|p| + k];
    }
  }

  lemma AtIsSlice(t: Text, i: nat, p: Text)
    requires At(t, i, p)
    ensures t[i..i + |p|] == p
  {
  }

  lemma {:induction false} SkipWsAt(t: Text, i: nat, ws: Text)
    requires At(t, i, ws) && AllWs(ws)
    requires i + |ws| == |t| || !IsWs(t[i + |ws|])
    ensures SkipWs(t, i) == i + |ws|
    decreases |ws|
  {
    if ws != [] {
      assert t[i + 0] == ws[0];
      SkipWsAt(t, i + 1, ws[1..]);
    }
  }

  lemma SkipWsTwice(t: Text, i: nat)
    requires i <= |t|
    ensures SkipWs(t, SkipWs(t, i)) == SkipWs(t, i)
  {
  }

  lemma {:induction false} DigitsAt(t: Text, i: nat, ds: Text)
    requires At(t, i, ds) && (forall k :: 0 <= k < |ds| ==> IsDigit(ds[k]))
    requires i + |ds| == |t| || !IsDigit(t[i + |ds|])
    ensures DigitsEnd(t, i) == i + |ds|
    decreases |ds|
  {
    if ds != [] {
      assert t[i + 0] == ds[0];
      DigitsAt(t, i + 1, ds[1..]);
    }
  }

  // ----- String literals -----

  // The first character of a literal, and the rest of it.
  lemma CharSound(t: Text, i: nat, hi: nat)
    requires hi <= |t| && ParseChars(t, i, hi).Some? && t[i] != QUOTE
    ensures var (cs, next) := ParseChars(t, i, hi).value; cs != [] && At(t, i, PrintChar(cs[0])) && i < i + |PrintChar(cs[0])| <= hi
    ensures var (cs, next) := ParseChars(t, i, hi).value; ParseChars(t, i + |PrintChar(cs[0])|, hi) == Some((cs[1..], next))
  {
    var (cs, next) := ParseChars(t, i, hi).value;
    var step := if t[i] != BACKSLASH then 1 else if IsShort(t[i + 1]) then 2 else 6;
    assert cs[1..] == ParseChars(t, i + step, hi).value.0;
  }

  lemma {:induction false} CharsSound(t: Text, i: nat, hi: nat)
    requires hi <= |t| && ParseChars(t, i, hi).Some?
    ensures var (cs, next) := ParseChars(t, i, hi).value; At(t, i, PrintChars(cs) + [QUOTE]) && next == i + |PrintChars(cs)| + 1
    decreases hi - i
  {
    hide ParseChars, PrintChar, PrintChars, At;
    var (cs, next) := ParseChars(t, i, hi).value;
    QuoteSound(t, i, hi);
    if t[i] != QUOTE {
      CharSound(t, i, hi);
      CharsSound(t, i + |PrintChar(cs[0])|, hi);
      PrintCharsAt(t, i, cs);
    }
  }

  lemma QuoteSound(t: Text, i: nat, hi: nat)
    requires hi <= |t| && ParseChars(t, i, hi).Some?
    ensures i < |t|
    ensures var (cs, next) := ParseChars(t, i, hi).value; t[i] == QUOTE ==> At(t, i, PrintChars(cs) + [QUOTE]) && next == i + |PrintChars(cs)| + 1
  {
    assert PrintChars([]) + [QUOTE] == [QUOTE];
  }

  lemma PrintCharsAt(t: Text, i: nat, cs: seq<StrChar>)
    requires cs != []
    ensures |PrintChars(cs)| == |PrintChar(cs[0])| + |PrintChars(cs[1..])|
    ensures At(t, i, PrintChars(cs) + [QUOTE]) <==>
      At(t, i, PrintChar(cs[0])) && At(t, i + |PrintChar(cs[0])|, PrintChars(cs[1..]) + [QUOTE])
  {
    hide At, PrintChar;
    assert PrintChars(cs) + [QUOTE] == PrintChar(cs[0]) + (PrintChars(cs[1..]) + [QUOTE]);
    AtConcat(t, i, PrintChar(cs[0]), PrintChars(cs[1..]) + [QUOTE]);
  }

  lemma {:induction false} CharsComplete(t: Text, i: nat, hi: nat, cs: seq<StrChar>)
    requires hi <= |t| && ValidChars(cs) && At(t, i, PrintChars(cs) + [QUOTE]) && i + |PrintChars(cs)| + 1 <= hi
    ensures ParseChars(t, i, hi) == Some((cs, i + |PrintChars(cs)| + 1))
    decreases |cs|
  {
    if cs == [] {
      assert (PrintChars(cs) + [QUOTE])[0] == QUOTE;
    } else {
      PrintCharsAt(t, i, cs);
      CharsComplete(t, i + |PrintChar(cs[0])|, hi, cs[1..]);
      CharAt(t, i, cs[0]);
      assert [cs[0]] + cs[1..] == cs;
    }
  }

  lemma CharAt(t: Text, i: nat, c: StrChar)
    requires ValidChar(c) && At(t, i, PrintChar(c))
    ensures match c
      case Plain(u) => t[i] == u
      case Short(letter) => t[i] == BACKSLASH && t[i + 1] == letter
      case Hex(a, b, c, d) => t[i] == BACKSLASH && t[i + 1] == LOWER_U && t[i + 2] == a && t[i + 3] == b && t[i + 4] == c && t[i + 5] == d
  {
    var p := PrintChar(c);
    assert t[i + 0] == p[0];
    if |p| > 1 { assert t[i + 1] == p[1]; }
    if |p| > 2 { assert t[i + 2] == p[2] && t[i + 3] == p[3] && t[i + 4] == p[4] && t[i + 5] == p[5]; }
  }

  // ----- Numbers -----

  function Sign(lit: NumberLit): Text {
    if lit.negative then [MINUS] else []
  }

  lemma PrintNumberAt(t: Text, i: nat, lit: NumberLit)
    ensures var j := i + |Sign(lit)|; var k := j + |lit.whole|; var f := k + |PrintFraction(lit.fraction)|;
      && i + |PrintNumber(lit)| == f + |PrintExponent(lit.exponent)|
      && (At(t, i, PrintNumber(lit)) <==>
          At(t, i, Sign(lit)) && At(t, j, lit.whole) && At(t, k, PrintFraction(lit.fraction)) && At(t, f, PrintExponent(lit.exponent)))
  {
    AtConcat(t, i, Sign(lit) + lit.whole + PrintFraction(lit.fraction), PrintExponent(lit.exponent));
    AtConcat(t, i, Sign(lit) + lit.whole, PrintFraction(lit.fraction));
    AtConcat(t, i, Sign(lit), lit.whole);
  }

  lemma PrintExponentAt(t: Text, k: nat, x: Exponent)
    ensures var g := k + 1 + |x.sign|;
      && |PrintExponent(Some(x))| == 1 + |x.sign| + |x.digits|
      && (At(t, k, PrintExponent(Some(x))) <==> At(t, k, [x.marker]) && At(t, k + 1, x.sign) && At(t, g, x.digits))
  {
    hide At;
    AtConcat(t, k, [x.marker] + x.sign, x.digits);
    AtConcat(t, k, [x.marker], x.sign);
  }

  lemma SignAt(t: Text, i: nat, lit: NumberLit)
    requires i <= |t|
    ensures At(t, i, Sign(lit)) <==> (lit.negative ==> i < |t| && t[i] == MINUS)
  {
    if lit.negative && At(t, i, Sign(lit)) { assert t[i + 0] == Sign(lit)[0]; }
  }

  lemma SliceAt(t: Text, i: nat, j: nat)
    requires i <= j <= |t|
    ensures At(t, i, t[i..j])
  {
  }

  lemma ExponentSound(t: Text, k: nat)
    requires k <= |t|
    ensures var (x, e) := ParseExponent(t, k); (x.Some? ==> ValidExponent(x.value)) && At(t, k, PrintExponent(x)) && e == k + |PrintExponent(x)|
  {
    hide At, DigitsEnd;
    var (x, e) := ParseExponent(t, k);
    if x.Some? {
      SliceAt(t, k, k + 1);
      assert t[k..k + 1] == [t[k]];
      SliceAt(t, k + 1, k + 1 + |x.value.sign|);
      SliceAt(t, k + 1 + |x.value.sign|, e);
      PrintExponentAt(t, k, x.value);
    } else {
      SliceAt(t, k, k);
      assert t[k..k] == [];
    }
  }

  lemma FractionSound(t: Text, k: nat)
    requires k <= |t|
    ensures var (f, e) := ParseFraction(t, k); (f.Some? ==> Digits(f.value)) && At(t, k, PrintFraction(f)) && e == k + |PrintFraction(f)|
  {
  }

  lemma NumberSound(t: Text, i: nat)
    requires i <= |t| && ParseNumber(t, i).Some?
    ensures var (lit, e) := ParseNumber(t, i).value; ValidNumber(lit) && At(t, i, PrintNumber(lit)) && e == i + |PrintNumber(lit)|
  {
    hide At, PrintNumber, PrintFraction, PrintExponent, ParseFraction, ParseExponent, DigitsEnd, WholeEnd;
    var (lit, e) := ParseNumber(t, i).value;
    var j := i + |Sign(lit)|;
    var k := WholeEnd(t, j);
    assert lit.whole == t[j..k];
    SignAt(t, i, lit);
    SliceAt(t, j, k);
    FractionSound(t, k);
    ExponentSound(t, ParseFraction(t, k).1);
    PrintNumberAt(t, i, lit);
  }

  // What may follow a number: anything that cannot continue it.
  predicate EndsNumber(t: Text, e: nat) {
    e >= |t| || (!IsDigit(t[e]) && t[e] != POINT && t[e] != LOWER_E && t[e] != UPPER_E)
  }

  lemma FractionComplete(t: Text, k: nat, f: Option<Text>)
    requires At(t, k, PrintFraction(f)) && (f.Some? ==> Digits(f.value))
    requires var e := k + |PrintFraction(f)|; e >= |t| || (!IsDigit(t[e]) && t[e] != POINT)
    ensures ParseFraction(t, k) == (f, k + |PrintFraction(f)|)
  {
    if f.Some? {
      AtConcat(t, k, [POINT], f.value);
      assert t[k + 0] == [POINT][0];
      assert t[k + 1 + 0] == f.value[0];
      DigitsAt(t, k + 1, f.value);
      AtIsSlice(t, k + 1, f.value);
    }
  }

  lemma ExponentComplete(t: Text, k: nat, x: Option<Exponent>)
    requires At(t, k, PrintExponent(x)) && (x.Some? ==> ValidExponent(x.value))
    requires EndsNumber(t, k + |PrintExponent(x)|)
    ensures ParseExponent(t, k) == (x, k + |PrintExponent(x)|)
  {
    if x.Some? {
      var v := x.value;
      PrintExponentAt(t, k, v);
      var g := k + 1 + |v.sign|;
      assert t[k + 0] == [v.marker][0];
      assert t[g + 0] == v.digits[0];
      if v.sign != [] { assert t[k + 1 + 0] == v.sign[0]; }
      DigitsAt(t, g, v.digits);
      AtIsSlice(t, g, v.digits);
      AtIsSlice(t, k + 1, v.sign);
    }
  }

  lemma ExponentStart(t: Text, k: nat, x: Option<Exponent>)
    requires At(t, k, PrintExponent(x)) && (x.Some? ==> ValidExponent(x.value))
    ensures if x.Some? then k < |t| && (t[k] == LOWER_E || t[k] == UPPER_E) else |PrintExponent(x)| == 0
  {
    if x.Some? { assert t[k + 0] == PrintExponent(x)[0]; }
  }

  lemma FractionStart(t: Text, k: nat, f: Option<Text>)
    requires At(t, k, PrintFraction(f))
    ensures if f.Some? then k < |t| && t[k] == POINT else |PrintFraction(f)| == 0
  {
    if f.Some? { assert t[k + 0] == PrintFraction(f)[0]; }
  }

  lemma WholeComplete(t: Text, j: nat, whole: Text)
    requires At(t, j, whole) && Digits(whole) && (whole[0] == ZERO ==> |whole| == 1)
    requires j + |whole| == |t| || !IsDigit(t[j + |whole|])
    ensures IsDigit(t[j]) && WholeEnd(t, j) == j + |whole| && t[j..j + |whole|] == whole
  {
    assert t[j + 0] == whole[0];
    AtIsSlice(t, j, whole);
    AtConcat(t, j, whole[..1], whole[1..]);
    assert whole[..1] + whole[1..] == whole;
    if t[j] != ZERO {
      DigitsAt(t, j + 1, whole[1..]);
    }
  }

  lemma NumberComplete(t: Text, i: nat, lit: NumberLit)
    requires i <= |t| && ValidNumber(lit) && At(t, i, PrintNumber(lit)) && EndsNumber(t, i + |PrintNumber(lit)|)
    ensures ParseNumber(t, i) == Some((lit, i + |PrintNumber(lit)|))
    ensures t[i] == MINUS || IsDigit(t[i])
  {
    hide At, PrintNumber, PrintFraction, PrintExponent, ParseFraction, ParseExponent, DigitsEnd, WholeEnd;
    PrintNumberAt(t, i, lit);
    var j := i + |Sign(lit)|;
    var k := j + |lit.whole|;
    var f := k + |PrintFraction(lit.fraction)|;
    ExponentComplete(t, f, lit.exponent);
    ExponentStart(t, f, lit.exponent);
    FractionComplete(t, k, lit.fraction);
    FractionStart(t, k, lit.fraction);
    WholeComplete(t, j, lit.whole);
    SignAt(t, i, lit);
  }
}
