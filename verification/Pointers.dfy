/**
 JSON Pointers: the escaping of reference tokens of RFC 6901 sections 3 and 4, and
 decimal indices.  Different paths have different pointers.
 */
module Pointers {

  // String.replaceAll for a single character.
  function ReplaceChar(s: string, c: char, with: string): string {
    if s == "" then "" else (if s[0] == c then with else [s[0]]) + ReplaceChar(s[1..], c, with)
  }

  // String.replaceAll for a pair of characters, scanning from the left.
  function ReplacePair(s: string, a: char, b: char, with: char): string {
    if |s| < 2 then s
    else if s[0] == a && s[1] == b then [with] + ReplacePair(s[2..], a, b, with)
    else [s[0]] + ReplacePair(s[1..], a, b, with)
  }

  function Escape(key: string): string {
    ReplaceChar(ReplaceChar(key, '~', "~0"), '/', "~1")
  }

  function Unescape(token: string): string {
    ReplacePair(ReplacePair(token, '~', '1', '/'), '~', '0', '~')
  }

  // Both replacements at once, character by character.
  function EscapeChar(c: char): string {
    if c == '~' then "~0" else if c == '/' then "~1" else [c]
  }

  lemma ReplaceAppends(s: string, t: string, c: char, with: string)
    ensures ReplaceChar(s + t, c, with) == ReplaceChar(s, c, with) + ReplaceChar(t, c, with)
  {
    if s == "" {
      assert s + t == t;
    } else {
      ReplaceAppends(s[1..], t, c, with);
      assert (s + t)[1..] == s[1..] + t;
    }
  }

  lemma {:induction false} EscapeCons(key: string)
    requires key != ""
    ensures Escape(key) == EscapeChar(key[0]) + Escape(key[1..])
  {
    var head := if key[0] == '~' then "~0" else [key[0]];
    ReplaceAppends(head, ReplaceChar(key[1..], '~', "~0"), '/', "~1");
    assert ReplaceChar(head, '/', "~1") == EscapeChar(key[0]) by {
      assert head[1..] == (if key[0] == '~' then "0" else "");
      assert "0"[1..] == "";
    }
  }

  // Escaped tokens hold no slash.
  lemma {:induction false} EscapeNoSlash(key: string)
    ensures '/' !in Escape(key)
  {
    if key != "" {
      EscapeCons(key);
      EscapeNoSlash(key[1..]);
    }
  }

  // Undoing ~1 before ~0 gives the key back.
  lemma {:induction false} UnescapeEscape(key: string)
    ensures Unescape(Escape(key)) == key
  {
    FirstPass(key);
    SecondPass(key);
  }

  // After the first pass only the tildes are still escaped.
  lemma {:induction false} FirstPass(key: string)
    ensures ReplacePair(Escape(key), '~', '1', '/') == ReplaceChar(key, '~', "~0")
  {
    if key != "" {
      EscapeCons(key);
      FirstPass(key[1..]);
      var rest := Escape(key[1..]);
      var out := ReplacePair(rest, '~', '1', '/');
      if key[0] == '~' {
        assert Escape(key) == ['~', '0'] + rest;
        assert Escape(key)[1..] == ['0'] + rest;
        ZeroFirst(rest);
      } else if key[0] == '/' {
        assert Escape(key) == ['~', '1'] + rest && Escape(key)[2..] == rest;
      } else {
        assert Escape(key) == [key[0]] + rest && Escape(key)[1..] == rest;
        if |rest| == 0 { assert Escape(key) == [key[0]]; }
      }
    }
  }

  lemma ZeroFirst(rest: string)
    ensures ReplacePair(['0'] + rest, '~', '1', '/') == ['0'] + ReplacePair(rest, '~', '1', '/')
    ensures ReplacePair(['~', '0'] + rest, '~', '1', '/') == ['~', '0'] + ReplacePair(rest, '~', '1', '/')
  {
    assert (['0'] + rest)[1..] == rest;
    assert (['~', '0'] + rest)[1..] == ['0'] + rest;
  }

  lemma {:induction false} SecondPass(key: string)
    ensures ReplacePair(ReplaceChar(key, '~', "~0"), '~', '0', '~') == key
  {
    if key != "" {
      SecondPass(key[1..]);
      var rest := ReplaceChar(key[1..], '~', "~0");
      if key[0] == '~' {
        assert ReplaceChar(key, '~', "~0") == ['~', '0'] + rest;
        assert (['~', '0'] + rest)[2..] == rest;
      } else {
        assert ReplaceChar(key, '~', "~0") == [key[0]] + rest && ([key[0]] + rest)[1..] == rest;
      }
      assert key == [key[0]] + key[1..];
    }
  }

  // ----- Decimal indices -----

  function Digit(d: nat): char
    requires d < 10
  {
    "0123456789"[d]
  }

  function Decimal(n: nat): (s: string)
    ensures s != ""
  {
    if n < 10 then [Digit(n)] else Decimal(n / 10) + [Digit(n % 10)]
  }

  lemma DigitsDiffer(a: nat, b: nat)
    requires a < 10 && b < 10 && Digit(a) == Digit(b)
    ensures a == b
  {
  }

  lemma {:induction false} DecimalInjective(m: nat, n: nat)
    requires Decimal(m) == Decimal(n)
    ensures m == n
  {
    var s, t := Decimal(m), Decimal(n);
    assert s[|s| - 1] == Digit(m % 10) && t[|t| - 1] == Digit(n % 10);
    DigitsDiffer(m % 10, n % 10);
    if m >= 10 && n >= 10 {
      assert s[..|s| - 1] == Decimal(m / 10) && t[..|t| - 1] == Decimal(n / 10);
      DecimalInjective(m / 10, n / 10);
    }
  }

  lemma {:induction false} DecimalPlain(n: nat)
    ensures forall i :: 0 <= i < |Decimal(n)| ==> '0' <= Decimal(n)[i] <= '9'
    ensures '/' !in Decimal(n)
  {
    if n >= 10 { DecimalPlain(n / 10); }
  }

  // ----- Pointers -----

  datatype Token = Index(i: nat) | Key(key: string)
  type Path = seq<Token>

  function TokenText(t: Token): string {
    match t
    case Index(i) => Decimal(i)
    case Key(key) => Escape(key)
  }

  function Render(path: Path): string {
    if path == [] then "" else "/" + (TokenText(path[0]) + Render(path[1..]))
  }

  lemma TokenNoSlash(t: Token)
    ensures '/' !in TokenText(t)
  {
    match t
    case Index(i) => DecimalPlain(i);
    case Key(key) => EscapeNoSlash(key);
  }

  // The token texts of a pointer can be read off it.
  lemma {:induction false} RenderInjective(p: Path, q: Path)
    requires Render(p) == Render(q)
    ensures |p| == |q| && forall i :: 0 <= i < |p| ==> TokenText(p[i]) == TokenText(q[i])
  {
    hide TokenText;
    if p != [] && q != [] {
      HeadInjective(p, q);
      RenderInjective(p[1..], q[1..]);
      assert forall i :: 1 <= i < |p| ==> p[i] == p[1..][i - 1] && q[i] == q[1..][i - 1];
    }
  }

  lemma HeadInjective(p: Path, q: Path)
    requires p != [] && q != [] && Render(p) == Render(q)
    ensures TokenText(p[0]) == TokenText(q[0]) && Render(p[1..]) == Render(q[1..])
  {
    hide TokenText;
    TokenNoSlash(p[0]);
    TokenNoSlash(q[0]);
    var a, x, b, y := TokenText(p[0]), Render(p[1..]), TokenText(q[0]), Render(q[1..]);
    assert Render(p)[1..] == a + x && Render(q)[1..] == b + y;
    StartsWithSlash(p[1..]);
    StartsWithSlash(q[1..]);
    SplitAtSlash(a, x, b, y);
  }

  lemma StartsWithSlash(p: Path)
    ensures Render(p) == "" || Render(p)[0] == '/'
  {
  }

  lemma {:induction false} SplitAtSlash(a: string, x: string, b: string, y: string)
    requires a + x == b + y && '/' !in a && '/' !in b
    requires (x == "" || x[0] == '/') && (y == "" || y[0] == '/')
    ensures a == b && x == y
  {
    if |a| < |b| {
      LongerHasSlash(a, x, b, y);
    } else if |b| < |a| {
      LongerHasSlash(b, y, a, x);
    } else {
      assert a == (a + x)[..|a|] && b == (b + y)[..|b|];
      assert x == (a + x)[|a|..] && y == (b + y)[|b|..];
    }
  }

  lemma LongerHasSlash(a: string, x: string, b: string, y: string)
    requires a + x == b + y && |a| < |b| && (x == "" || x[0] == '/')
    ensures '/' in b
  {
    assert |a + x| == |b + y|;
    assert b[|a|] == (b + y)[|a|] == (a + x)[|a|] == x[0];
  }

  lemma KeysDiffer(j: string, k: string)
    requires Escape(j) == Escape(k)
    ensures j == k
  {
    UnescapeEscape(j);
    UnescapeEscape(k);
  }
}
