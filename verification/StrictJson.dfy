/**
 The scanner that reads raw arguments before JSON.parse does: a mutable index and
 node count that move through the text, with an error for a repeated member name.
 Each method returns what it throws; the state it leaves is that of the parse.
 */
module StrictJson {
  import opened Common
  import opened JsonText
  import opened JsonParser
  import opened JsonParserProofs
  import opened JsonTree

  datatype Outcome = Done | Thrown(why: Failure)

  // Where a parse stops, or what it fails with.
  datatype End = Stop(next: nat, nodes: nat) | Raise(why: Failure)

  function EndOf<T>(p: Parsed<T>): End {
    match p
    case Failed(why) => Raise(why)
    case Parsed(_, next, nodes) => Stop(next, nodes)
  }

  predicate IsJsonWhitespace(token: Option<CodeUnit>) {
    token == Some(0x20) || token == Some(0x09) || token == Some(0x0A) || token == Some(0x0D)
  }

  // ----- The string scan: find the closing quote first, then parse the slice -----

  // Where the scan for a closing quote stops, skipping the unit after each backslash.
  function CloseQuote(t: Text, i: nat): (r: Option<nat>)
    ensures r.Some? ==> i < r.value <= |t|
    decreases |t| - i
  {
    if i >= |t| then None
    else if t[i] == QUOTE then Some(i + 1)
    else if t[i] == BACKSLASH then CloseQuote(t, i + 2)
    else CloseQuote(t, i + 1)
  }

  // JSON.parse of a slice that starts and ends at the quotes the scan found.
  function JsonParseString(slice: Text): (r: Option<seq<StrChar>>)
    ensures r.Some? ==> ValidChars(r.value)
  {
    var p := ParseString(slice, 0);
    if p.Some? && p.value.1 == |slice| then Some(p.value.0) else None
  }

  // A closing quote is where the literal ends, and the literal needs nothing after it.
  lemma {:induction false} ParseFindsClose(t: Text, i: nat)
    requires ParseChars(t, i, |t|).Some?
    ensures CloseQuote(t, i) == Some(ParseChars(t, i, |t|).value.1)
    decreases |t| - i
  {
    if t[i] == BACKSLASH {
      if IsShort(t[i + 1]) {
        ParseFindsClose(t, i + 2);
      } else {
        assert t[i + 1] == LOWER_U && IsHex(t[i + 2]) && IsHex(t[i + 3]) && IsHex(t[i + 4]) && IsHex(t[i + 5]);
        assert CloseQuote(t, i) == CloseQuote(t, i + 2);
        assert CloseQuote(t, i + 2) == CloseQuote(t, i + 3) && CloseQuote(t, i + 3) == CloseQuote(t, i + 4);
        assert CloseQuote(t, i + 4) == CloseQuote(t, i + 5) && CloseQuote(t, i + 5) == CloseQuote(t, i + 6);
        ParseFindsClose(t, i + 6);
      }
    } else if t[i] != QUOTE {
      ParseFindsClose(t, i + 1);
    }
  }

  // Parsing up to a bound and parsing the slice up to it agree.
  lemma {:induction false} ParseCharsShift(t: Text, a: nat, i: nat, hi: nat)
    requires a <= i && a <= hi <= |t|
    ensures var p, q := ParseChars(t, i, hi), ParseChars(t[a..hi], i - a, hi - a);
      p.Some? == q.Some? && (p.Some? ==> p.value.0 == q.value.0 && p.value.1 == q.value.1 + a)
    decreases hi - i
  {
    hide IsShort, IsHex, IsPlain;
    if i < hi {
      UnitsShift(t, a, i, hi);
      if t[i] == BACKSLASH {
        if i + 1 < hi && IsShort(t[i + 1]) {
          ParseCharsShift(t, a, i + 2, hi);
        } else {
          ParseCharsShift(t, a, i + 6, hi);
        }
      } else if t[i] != QUOTE {
        ParseCharsShift(t, a, i + 1, hi);
      }
    }
  }

  // The next six units, in the text and in the slice.
  lemma UnitsShift(t: Text, a: nat, i: nat, hi: nat)
    requires a <= i < hi <= |t|
    ensures t[a..hi][i - a] == t[i] && (i + 1 < hi ==> t[a..hi][i + 1 - a] == t[i + 1])
    ensures i + 5 < hi ==> t[a..hi][i + 2 - a] == t[i + 2] && t[a..hi][i + 3 - a] == t[i + 3]
    ensures i + 5 < hi ==> t[a..hi][i + 4 - a] == t[i + 4] && t[a..hi][i + 5 - a] == t[i + 5]
  {
  }

  // Text after the bound does not matter to a literal that ends before it.
  lemma {:induction false} ParseCharsWidens(t: Text, i: nat, hi: nat)
    requires hi <= |t|
    ensures ParseChars(t, i, hi).Some? ==> ParseChars(t, i, |t|) == ParseChars(t, i, hi)
    ensures ParseChars(t, i, |t|).Some? && ParseChars(t, i, |t|).value.1 <= hi ==> ParseChars(t, i, hi) == ParseChars(t, i, |t|)
    decreases hi - i
  {
    if i < hi {
      ParseCharsWidens(t, i + 1, hi);
      ParseCharsWidens(t, i + 2, hi);
      ParseCharsWidens(t, i + 6, hi);
    }
  }

  // Scanning for the closing quote and parsing the slice is the same as parsing the literal in place.
  lemma ScanIsParse(t: Text, i: nat)
    requires i < |t| && t[i] == QUOTE
    ensures var close := CloseQuote(t, i + 1);
      var slice := if close.Some? then JsonParseString(t[i..close.value]) else None;
      && ParseString(t, i).Some? == slice.Some?
      && (slice.Some? ==> ParseString(t, i) == Some((slice.value, close.value)))
  {
    if ParseString(t, i).Some? {
      ParseFindsClose(t, i + 1);
    }
    var close := CloseQuote(t, i + 1);
    if close.Some? {
      ParseCharsShift(t, i, i + 1, close.value);
      ParseCharsWidens(t, i + 1, close.value);
    }
  }

  class UniqueKeyScanner {
    const source: Text
    const maxNodes: int
    const maxDepth: int
    var index: nat
    var nodes: nat

    constructor (source: Text, maxNodes: int, maxDepth: int)
      ensures this.source == source && this.maxNodes == maxNodes && this.maxDepth == maxDepth
      ensures index == 0 && nodes == 0
    {
      this.source, this.maxNodes, this.maxDepth := source, maxNodes, maxDepth;
      index, nodes := 0, 0;
    }

    function Lim(): Limits {
      Limits(maxNodes, maxDepth)
    }

    // The scanner has stopped where a parse stops, or thrown what it fails with.
    ghost predicate Reached(e: End, r: Outcome)
      reads this
    {
      match e
      case Raise(why) => r == Thrown(why)
      case Stop(next, total) => r == Done && index == next && nodes == total
    }

    method SkipWhitespace()
      requires index <= |source|
      modifies this`index
      ensures index == SkipWs(source, old(index))
    {
      while index < |source| && IsJsonWhitespace(Some(source[index]))
        invariant index <= |source|
        invariant SkipWs(source, index) == SkipWs(source, old(index))
      {
        index := index + 1;
      }
    }

    method Consume(expected: CodeUnit) returns (taken: bool)
      requires index <= |source|
      modifies this`index
      ensures taken == (old(index) < |source| && source[old(index)] == expected)
      ensures index == if taken then old(index) + 1 else old(index)
    {
      taken := index < |source| && source[index] == expected;
      if taken {
        index := index + 1;
      }
    }

    method ScanString() returns (r: Outcome, key: Text)
      requires index < |source| && source[index] == QUOTE
      modifies this`index
      ensures match ParseString(source, old(index))
        case None => r == Thrown(Syntax)
        case Some((cs, next)) => r == Done && key == Decode(cs) && index == next
    {
      var start := index;
      index := index + 1;
      ScanIsParse(source, start);
      while index < |source|
        invariant start < index
        invariant CloseQuote(source, index) == CloseQuote(source, start + 1)
        decreases |source| - index
      {
        var token := source[index];
        if token == QUOTE {
          index := index + 1;
          var parsed := JsonParseString(source[start..index]);
          if parsed.None? { return Thrown(Syntax), []; }
          return Done, Decode(parsed.value);
        }
        if token == BACKSLASH { index := index + 1; }
        index := index + 1;
      }
      return Thrown(Syntax), [];
    }

    method ScanValue(depth: nat) returns (r: Outcome)
      requires index <= |source|
      modifies this
      ensures Reached(EndOf(ParseValue(source, old(index), old(nodes), depth, Lim())), r)
      decreases |source| - index, 1
    {
      nodes := nodes + 1;
      if nodes > maxNodes || depth > maxDepth { return Thrown(LimitExceeded); }
      SkipWhitespace();
      if index < |source| && source[index] == OPEN_OBJECT {
        r := ScanObject(depth);
        return;
      }
      if index < |source| && source[index] == OPEN_ARRAY {
        r := ScanArray(depth);
        return;
      }
      if index < |source| && source[index] == QUOTE {
        var key;
        r, key := ScanString();
        return;
      }
      var primitive := ParsePrimitive(source, index);
      if primitive.None? { return Thrown(Syntax); }
      index := primitive.value.1;
      return Done;
    }

    method ScanArray(depth: nat) returns (r: Outcome)
      requires index < |source|
      modifies this
      ensures Reached(EndOf(ParseArray(source, old(index) + 1, old(nodes), depth, Lim())), r)
      decreases |source| - index, 0
    {
      hide ParseItems, ParseValue, SkipWs;
      index := index + 1;
      ghost var i0 := index;
      SkipWhitespace();
      var closed := Consume(CLOSE_ARRAY);
      if closed { return Done; }
      ghost var end := EndOf(ParseItems(source, i0, nodes, depth, Lim()));
      SkipBeforeItems(source, i0, nodes, depth, Lim());
      while true
        invariant i0 <= index <= |source|
        invariant end == EndOf(ParseItems(source, index, nodes, depth, Lim()))
        decreases |source| - index
      {
        ItemsStep(source, index, nodes, depth, Lim());
        r := ScanValue(depth + 1);
        if r != Done { return; }
        SkipWhitespace();
        closed := Consume(CLOSE_ARRAY);
        if closed { return Done; }
        var comma := Consume(COMMA);
        if !comma { return Thrown(Syntax); }
        SkipBeforeItems(source, index, nodes, depth, Lim());
        SkipWhitespace();
      }
    }

    method ScanObject(depth: nat) returns (r: Outcome)
      requires index < |source|
      modifies this
      ensures Reached(EndOf(ParseObject(source, old(index) + 1, old(nodes), depth, Lim())), r)
      decreases |source| - index, 0
    {
      hide ParseObject, ParseMembers, ParseEntry, SkipWs, Decode, EndOf;
      index := index + 1;
      ghost var i0 := index;
      ObjectStep(source, index, nodes, depth, Lim());
      SkipWhitespace();
      var closed := Consume(CLOSE_OBJECT);
      if closed { return Done; }
      var keys: set<Text> := {};
      ghost var end := EndOf(ParseMembers(source, i0, nodes, depth, {}, Lim()));
      SkipBeforeMembers(source, i0, nodes, depth, keys, Lim());
      while true
        invariant i0 <= index <= |source| && SkipWs(source, index) == index
        invariant end == EndOf(ParseMembers(source, index, nodes, depth, keys, Lim()))
        decreases |source| - index
      {
        AfterEntry(source, index, nodes, depth, keys, Lim());
        var key;
        r, key := ScanMember(depth, keys);
        if r != Done { return; }
        keys := keys + {key};
        SkipWhitespace();
        closed := Consume(CLOSE_OBJECT);
        if closed { return Done; }
        var comma := Consume(COMMA);
        if !comma { return Thrown(Syntax); }
        SkipBeforeMembers(source, index, nodes, depth, keys, Lim());
        SkipWhitespace();
      }
    }

    // The name, which must not be repeated, the colon and the value of one member.
    method ScanMember(depth: nat, keys: set<Text>) returns (r: Outcome, key: Text)
      requires index <= |source| && SkipWs(source, index) == index
      modifies this
      ensures match ParseEntry(source, old(index), old(nodes), depth, keys, Lim())
        case Failed(why) => r == Thrown(why)
        case Parsed(entry, next, total) => r == Done && index == next && nodes == total && key == Decode(entry.name) && old(index) < index <= |source|
      decreases |source| - index, 2
    {
      hide ParseEntry, ParseValue, ParseString, SkipWs, Decode;
      EntryStep(source, index, nodes, depth, keys, Lim());
      QuoteStarts(source, index);
      if index == |source| || source[index] != QUOTE { return Thrown(Syntax), []; }
      r, key := ScanString();
      if r != Done { return; }
      if key in keys { return Thrown(Duplicate), key; }
      SkipWhitespace();
      var colon := Consume(COLON);
      if !colon { return Thrown(Syntax), key; }
      r := ScanValue(depth + 1);
    }

    method Scan() returns (r: Outcome)
      requires index == 0 && nodes == 0
      modifies this
      ensures Reached(EndOf(ParseText(source, Lim())), r)
    {
      SkipWhitespace();
      r := ScanValue(0);
      if r != Done { return; }
      SkipWhitespace();
      if index != |source| { return Thrown(Syntax); }
      return Done;
    }
  }

  // ----- Parsing raw arguments -----

  // The limit check on characters, then the scan, then JSON.parse of what the scan accepted.
  method ParseUnambiguousJson(source: Text, maxCharacters: int, maxNodes: int, maxDepth: int) returns (r: Outcome, value: Json)
    ensures r == Done <==> |source| <= maxCharacters && exists v :: TextOf(source, v) && WithinLimits(v, Limits(maxNodes, maxDepth))
    ensures r == Done ==> forall v :: TextOf(source, v) && UniqueNames(v) ==> value == Denote(v)
    ensures r == Done ==> Size(value) <= maxNodes && Height(value) <= maxDepth
  {
    value := Null;
    if |source| > maxCharacters { return Thrown(LimitExceeded), Null; }
    var lim := Limits(maxNodes, maxDepth);
    ParsesExactly(source, lim);
    var scanner := new UniqueKeyScanner(source, maxNodes, maxDepth);
    r := scanner.Scan();
    if r == Done {
      TextSound(source, lim);
      var tree := ParseText(source, lim).value;
      forall v | TextOf(source, v) && UniqueNames(v) ensures v == tree {
        Unambiguous(source, v, tree);
      }
      DenoteMeasures(tree);
      value := Denote(tree);
    }
  }

  // ----- One step of the loops -----

  // After a value: the closing bracket ends the items, a comma goes on to the next.
  lemma ItemsStep(t: Text, i: nat, n: nat, d: nat, lim: Limits)
    requires i <= |t|
    ensures var end := EndOf(ParseItems(t, i, n, d, lim));
      match EndOf(ParseValue(t, i, n, d + 1, lim))
      case Raise(why) => end == Raise(why)
      case Stop(e, nodes) =>
        i < e <= |t| &&
        var p := SkipWs(t, e);
        if p < |t| && t[p] == CLOSE_ARRAY then end == Stop(p + 1, nodes)
        else if p < |t| && t[p] == COMMA then end == EndOf(ParseItems(t, p + 1, nodes, d, lim))
        else end == Raise(Syntax)
  {
    hide ParseValue, SkipWs;
  }

  lemma EntryStep(t: Text, i: nat, n: nat, d: nat, keys: set<Text>, lim: Limits)
    requires i <= |t| && SkipWs(t, i) == i
    ensures var p := ParseEntry(t, i, n, d, keys, lim);
      match ParseString(t, i)
      case None => p == Failed(Syntax)
      case Some((cs, k)) =>
        if Decode(cs) in keys then p == Failed(Duplicate)
        else
          var m := SkipWs(t, k);
          if m == |t| || t[m] != COLON then p == Failed(Syntax)
          else EndOf(p) == EndOf(ParseValue(t, m + 1, n, d + 1, lim)) && (p.Parsed? ==> p.value.name == cs)
  {
    hide ParseValue, ParseString, SkipWs, Decode;
  }

  lemma ObjectStep(t: Text, i: nat, n: nat, d: nat, lim: Limits)
    requires i <= |t|
    ensures var end := EndOf(ParseObject(t, i, n, d, lim)); var j := SkipWs(t, i);
      if j < |t| && t[j] == CLOSE_OBJECT then end == Stop(j + 1, n) else end == EndOf(ParseMembers(t, i, n, d, {}, lim))
  {
    hide ParseMembers, SkipWs;
  }

  // From where a member's name must start: after the member, a brace or a comma.
  lemma AfterEntry(t: Text, i: nat, n: nat, d: nat, keys: set<Text>, lim: Limits)
    requires i <= |t|
    ensures var end := EndOf(ParseMembers(t, i, n, d, keys, lim));
      match ParseEntry(t, i, n, d, keys, lim)
      case Failed(why) => end == Raise(why)
      case Parsed(entry, e, nodes) =>
        i < e <= |t| &&
        var p := SkipWs(t, e);
        if p < |t| && t[p] == CLOSE_OBJECT then end == Stop(p + 1, nodes)
        else if p < |t| && t[p] == COMMA then end == EndOf(ParseMembers(t, p + 1, nodes, d, keys + {Decode(entry.name)}, lim))
        else end == Raise(Syntax)
  {
    hide ParseEntry, SkipWs, Decode;
  }

  lemma QuoteStarts(t: Text, i: nat)
    ensures i >= |t| || t[i] != QUOTE ==> ParseString(t, i).None?
  {
  }

  // Whitespace skipped before an item or a member changes nothing but where its leading gap starts.
  lemma SkipBeforeItems(t: Text, i: nat, n: nat, d: nat, lim: Limits)
    requires i <= |t|
    ensures EndOf(ParseItems(t, SkipWs(t, i), n, d, lim)) == EndOf(ParseItems(t, i, n, d, lim))
  {
    hide ParseItems, ParseValue, SkipWs;
    SkipBeforeValue(t, i, n, d + 1, lim);
    ItemsStep(t, i, n, d, lim);
    ItemsStep(t, SkipWs(t, i), n, d, lim);
  }

  lemma SkipBeforeValue(t: Text, i: nat, n: nat, d: nat, lim: Limits)
    requires i <= |t|
    ensures SkipWs(t, SkipWs(t, i)) == SkipWs(t, i)
    ensures ParseValue(t, SkipWs(t, i), n, d, lim) == ParseValue(t, i, n, d, lim)
  {
    hide ParseObject, ParseArray, ParsePrimitive, ParseString, SkipWs;
    SkipWsTwice(t, i);
  }

  lemma SkipBeforeMembers(t: Text, i: nat, n: nat, d: nat, keys: set<Text>, lim: Limits)
    requires i <= |t|
    ensures SkipWs(t, SkipWs(t, i)) == SkipWs(t, i)
    ensures EndOf(ParseMembers(t, SkipWs(t, i), n, d, keys, lim)) == EndOf(ParseMembers(t, i, n, d, keys, lim))
  {
    hide ParseEntry, ParseMembers, SkipWs, Decode;
    SkipWsTwice(t, i);
    SkipBeforeEntry(t, i, n, d, keys, lim);
    AfterEntry(t, i, n, d, keys, lim);
    AfterEntry(t, SkipWs(t, i), n, d, keys, lim);
  }

  lemma SkipBeforeEntry(t: Text, i: nat, n: nat, d: nat, keys: set<Text>, lim: Limits)
    requires i <= |t|
    ensures var p, q := ParseEntry(t, i, n, d, keys, lim), ParseEntry(t, SkipWs(t, i), n, d, keys, lim);
      EndOf(p) == EndOf(q) && (p.Parsed? ==> p.value.name == q.value.name)
  {
    hide ParseValue, ParseString, SkipWs, Decode;
    SkipWsTwice(t, i);
  }
}
