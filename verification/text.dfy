/** String helpers with the meaning JavaScript gives them: whitespace is the
    `\s` class of ECMAScript regular expressions (also what `trim` removes),
    `split` on one character, `join`, and number-to-string for integers. */
module Text {

  /** The ECMAScript WhiteSpace and LineTerminator characters (`\s`). */
  predicate IsSpace(c: char) {
    c == ' ' || c == '\t' || c == '\n' || c == '\r' || c == '\U{B}' || c == '\U{C}'
    || c == '\U{A0}' || c == '\U{1680}' || ('\U{2000}' <= c <= '\U{200A}')
    || c == '\U{2028}' || c == '\U{2029}' || c == '\U{202F}' || c == '\U{205F}'
    || c == '\U{3000}' || c == '\U{FEFF}'
  }

  /** The `\w` class: ASCII letters, digits and underscore. */
  predicate IsWordChar(c: char) {
    ('a' <= c <= 'z') || ('A' <= c <= 'Z') || ('0' <= c <= '9') || c == '_'
  }

  /** Characters that `.` in a regular expression does not match. */
  predicate IsLineTerminator(c: char) {
    c == '\n' || c == '\r' || c == '\U{2028}' || c == '\U{2029}'
  }

  predicate NoSpace(s: string) {
    forall i :: 0 <= i < |s| ==> !IsSpace(s[i])
  }

  lemma NoSpaceConcat(a: string, b: string)
    ensures NoSpace(a + b) <==> NoSpace(a) && NoSpace(b)
  {
    if NoSpace(a) && NoSpace(b) {
      forall i | 0 <= i < |a + b| ensures !IsSpace((a + b)[i]) {
        if i >= |a| { assert (a + b)[i] == b[i - |a|]; }
      }
    }
    if NoSpace(a + b) {
      forall i | 0 <= i < |a| ensures !IsSpace(a[i]) { assert (a + b)[i] == a[i]; }
      forall i | 0 <= i < |b| ensures !IsSpace(b[i]) { assert (a + b)[|a| + i] == b[i]; }
    }
  }

  /** `s.indexOf(c)`: the first position of `c`, or -1. */
  function IndexOf(s: string, c: char): (r: int)
    ensures -1 <= r < |s|
    ensures r == -1 <==> c !in s
    ensures r >= 0 ==> s[r] == c && c !in s[..r]
  {
    if |s| == 0 then -1
    else if s[0] == c then 0
    else
      var k := IndexOf(s[1..], c);
      if k == -1 then -1
      else
        assert s[..k + 1] == [s[0]] + s[1..][..k];
        k + 1
  }

  /** `xs.join(sep)`. */
  function Join(xs: seq<string>, sep: string): string {
    if |xs| == 0 then ""
    else if |xs| == 1 then xs[0]
    else xs[0] + sep + Join(xs[1..], sep)
  }

  /** `s.split(c)` for a one-character separator: the pieces between the
      occurrences of `c`, never an empty list. */
  function Split(s: string, c: char): (r: seq<string>)
    ensures |r| >= 1
    ensures forall k :: 0 <= k < |r| ==> c !in r[k]
    ensures Join(r, [c]) == s
    ensures |r| == 1 <==> c !in s
    decreases |s|
  {
    var i := IndexOf(s, c);
    if i == -1 then [s]
    else
      var rest := Split(s[i + 1..], c);
      assert s == s[..i] + [c] + s[i + 1..];
      [s[..i]] + rest
  }

  /** Number of leading whitespace characters. */
  function LeadingSpaces(s: string): (k: nat)
    ensures k <= |s|
    ensures forall i :: 0 <= i < k ==> IsSpace(s[i])
    ensures k < |s| ==> !IsSpace(s[k])
  {
    if |s| > 0 && IsSpace(s[0]) then 1 + LeadingSpaces(s[1..]) else 0
  }

  /** Length of `s` once its trailing whitespace is cut off. */
  function EndOfText(s: string): (k: nat)
    ensures k <= |s|
    ensures forall i :: k <= i < |s| ==> IsSpace(s[i])
    ensures k > 0 ==> !IsSpace(s[k - 1])
  {
    if |s| > 0 && IsSpace(s[|s| - 1]) then EndOfText(s[..|s| - 1]) else |s|
  }

  /** `s.trim()`: the slice of `s` between its leading and trailing whitespace. */
  function Trim(s: string): (r: string)
    ensures |r| == 0 || (!IsSpace(r[0]) && !IsSpace(r[|r| - 1]))
    ensures NoSpace(s) ==> r == s
    ensures |r| == 0 <==> forall i :: 0 <= i < |s| ==> IsSpace(s[i])
  {
    var a := LeadingSpaces(s);
    var t := s[a..];
    t[..EndOfText(t)]
  }

  /** Every whitespace character is a single ' ', never followed by another
      whitespace character. */
  predicate Collapsed(s: string) {
    forall i :: 0 <= i < |s| && IsSpace(s[i]) ==> s[i] == ' ' && (i + 1 < |s| ==> !IsSpace(s[i + 1]))
  }

  /** The non-whitespace characters of `s`, in order. */
  function RemoveSpaces(s: string): string {
    if |s| == 0 then ""
    else (if IsSpace(s[0]) then "" else [s[0]]) + RemoveSpaces(s[1..])
  }

  lemma {:induction false} RemoveLeadingRun(s: string, k: nat)
    requires k <= |s| && forall i :: 0 <= i < k ==> IsSpace(s[i])
    ensures RemoveSpaces(s) == RemoveSpaces(s[k..])
    decreases k
  {
    if k > 0 {
      RemoveLeadingRun(s[1..], k - 1);
      assert s[1..][k - 1..] == s[k..];
    }
  }

  lemma RemoveSpacesCons(c: char, t: string)
    ensures RemoveSpaces([c] + t) == (if IsSpace(c) then "" else [c]) + RemoveSpaces(t)
  {
    assert ([c] + t)[1..] == t;
  }

  lemma CollapsedCons(c: char, t: string)
    requires Collapsed(t) && (IsSpace(c) ==> c == ' ' && (|t| == 0 || !IsSpace(t[0])))
    ensures Collapsed([c] + t)
  {
    var u := [c] + t;
    forall i | 0 <= i < |u| && IsSpace(u[i]) ensures u[i] == ' ' && (i + 1 < |u| ==> !IsSpace(u[i + 1])) {
      if i > 0 { assert u[i] == t[i - 1]; if i + 1 < |u| { assert u[i + 1] == t[i]; } }
      else if i + 1 < |u| { assert u[1] == t[0]; }
    }
  }

  /** `s.replace(/\s+/g, ' ')`: every run of whitespace becomes one space. */
  function CollapseSpaces(s: string): (r: string)
    ensures Collapsed(r)
    ensures RemoveSpaces(r) == RemoveSpaces(s)
    ensures |s| > 0 ==> |r| > 0 && r[0] == (if IsSpace(s[0]) then ' ' else s[0])
    ensures |r| <= |s|
    ensures NoSpace(s) ==> r == s
    ensures NoSpace(s) <==> NoSpace(r)
    decreases |s|
  {
    if |s| == 0 then ""
    else if IsSpace(s[0]) then
      var k := LeadingSpaces(s);
      var rest := CollapseSpaces(s[k..]);
      RemoveLeadingRun(s, k);
      RemoveSpacesCons(' ', rest);
      CollapsedCons(' ', rest);
      var r := " " + rest;
      assert IsSpace(r[0]);
      r
    else
      var rest := CollapseSpaces(s[1..]);
      NoSpaceConcat([s[0]], s[1..]);
      NoSpaceConcat([s[0]], rest);
      RemoveSpacesCons(s[0], s[1..]);
      RemoveSpacesCons(s[0], rest);
      CollapsedCons(s[0], rest);
      assert s == [s[0]] + s[1..];
      [s[0]] + rest
  }

  /** The leading whitespace run of `a + b` stops inside `a` when `a` holds
      non-whitespace, and otherwise runs on into `b`. */
  lemma {:induction false} LeadingSpacesAppend(a: string, b: string)
    ensures LeadingSpaces(a + b) == if LeadingSpaces(a) < |a| then LeadingSpaces(a) else |a| + LeadingSpaces(b)
    decreases |a|
  {
    if |a| == 0 {
      assert a + b == b;
    } else {
      assert (a + b)[0] == a[0] && (a + b)[1..] == a[1..] + b;
      if IsSpace(a[0]) {
        LeadingSpacesAppend(a[1..], b);
      }
    }
  }

  /** A non-empty run of whitespace collapses to one space. */
  lemma CollapseSpacesRun(w: string)
    requires |w| > 0 && forall i :: 0 <= i < |w| ==> IsSpace(w[i])
    ensures CollapseSpaces(w) == " "
  {
    assert LeadingSpaces(w) == |w|;
    assert w[|w|..] == "";
  }

  /** Collapsing works piece by piece wherever the cut does not fall inside
      a whitespace run; with `CollapseSpacesRun` this fixes the result: each
      run becomes one space where it stood, and everything else is kept. */
  lemma {:induction false} CollapseSpacesAppend(a: string, b: string)
    requires a == "" || b == "" || !IsSpace(a[|a| - 1]) || !IsSpace(b[0])
    ensures CollapseSpaces(a + b) == CollapseSpaces(a) + CollapseSpaces(b)
    decreases |a|
  {
    if |a| == 0 {
      assert a + b == b;
    } else if |b| == 0 {
      assert a + b == a;
    } else if !IsSpace(a[0]) {
      assert (a + b)[0] == a[0] && (a + b)[1..] == a[1..] + b;
      assert |a| > 1 ==> a[1..][|a[1..]| - 1] == a[|a| - 1];
      CollapseSpacesAppend(a[1..], b);
      Regroup([a[0]], CollapseSpaces(a[1..]), CollapseSpaces(b), CollapseSpaces(a + b), CollapseSpaces(a));
    } else {
      var k := LeadingSpaces(a);
      LeadingSpacesAppend(a, b);
      assert (a + b)[0] == a[0];
      if k < |a| {
        assert (a + b)[k..] == a[k..] + b;
        assert a[k..][|a[k..]| - 1] == a[|a| - 1];
        CollapseSpacesAppend(a[k..], b);
        Regroup(" ", CollapseSpaces(a[k..]), CollapseSpaces(b), CollapseSpaces(a + b), CollapseSpaces(a));
      } else {
        assert LeadingSpaces(b) == 0;
        assert (a + b)[k..] == b;
        CollapseSpacesRun(a);
      }
    }
  }

  /** The regrouping that closes each step of `CollapseSpacesAppend`. */
  lemma Regroup(h: string, x: string, y: string, whole: string, left: string)
    requires whole == h + (x + y) && left == h + x
    ensures whole == left + y
  {
  }

  /** `s.replace(/c/g, rep)`. */
  function ReplaceChar(s: string, c: char, rep: string): (r: string)
    ensures c !in s ==> r == s
  {
    if |s| == 0 then ""
    else (if s[0] == c then rep else [s[0]]) + ReplaceChar(s[1..], c, rep)
  }

  function UpperChar(c: char): char {
    if 'a' <= c <= 'z' then (c as int - 32) as char else c
  }

  /** `s.toUpperCase()` restricted to ASCII letters. */
  function ToUpper(s: string): (r: string)
    ensures |r| == |s|
    ensures forall i :: 0 <= i < |s| ==> r[i] == UpperChar(s[i])
  {
    if |s| == 0 then "" else [UpperChar(s[0])] + ToUpper(s[1..])
  }

  function DigitChar(d: nat): char
    requires d < 10
  {
    ('0' as int + d) as char
  }

  function NatToString(n: nat): (r: string)
    ensures |r| >= 1
    ensures forall i :: 0 <= i < |r| ==> '0' <= r[i] <= '9'
  {
    if n < 10 then [DigitChar(n)] else NatToString(n / 10) + [DigitChar(n % 10)]
  }

  /** `String(n)` for an integer: decimal digits, with '-' for negatives. */
  function IntToString(n: int): (r: string)
    ensures |r| >= 1
    ensures (r[0] == '-') <==> n < 0
  {
    if n < 0 then "-" + NatToString(-n) else NatToString(n)
  }

  /** Each string mapped through `f`, in order. */
  function Map(f: string -> string, xs: seq<string>): (r: seq<string>)
    ensures |r| == |xs| && forall k :: 0 <= k < |xs| ==> r[k] == f(xs[k])
  {
    seq(|xs|, k requires 0 <= k < |xs| => f(xs[k]))
  }

  lemma MapAppend(f: string -> string, a: seq<string>, b: seq<string>)
    ensures Map(f, a + b) == Map(f, a) + Map(f, b)
  {
  }

  lemma AppendAssoc(a: seq<string>, b: seq<string>, c: seq<string>)
    ensures a + b + c == a + (b + c)
  {
  }

  // ------------------------------------------------------------ escape()

  /** The characters the global `escape` function leaves as they are
      (section B.2.1.1 of ECMA-262): ASCII letters, digits and `@*_+-./`. */
  predicate Unescaped(c: char) {
    ('A' <= c <= 'Z') || ('a' <= c <= 'z') || ('0' <= c <= '9') || c in "@*_+-./"
  }

  /** A character `escape` can produce: an unescaped one or '%'. */
  predicate EscapeOutput(c: char) {
    Unescaped(c) || c == '%'
  }

  predicate AllEscapeOutput(s: string) {
    forall i :: 0 <= i < |s| ==> EscapeOutput(s[i])
  }

  lemma AllEscapeOutputConcat(a: string, b: string)
    requires AllEscapeOutput(a) && AllEscapeOutput(b)
    ensures AllEscapeOutput(a + b)
  {
    forall i | 0 <= i < |a + b| ensures EscapeOutput((a + b)[i]) {
      if i >= |a| { assert (a + b)[i] == b[i - |a|]; }
    }
  }

  lemma EscapeOutputHasNoQuote(s: string)
    requires AllEscapeOutput(s)
    ensures '\'' !in s
  {
  }

  /** An uppercase hexadecimal digit. */
  function HexDigit(n: nat): (r: char)
    requires n < 16
    ensures Unescaped(r)
  {
    if n < 10 then (48 + n) as char else (55 + n) as char
  }

  /** A code unit below 256 as two uppercase hexadecimal digits. */
  function Hex2(n: nat): (r: string)
    requires n < 0x100
    ensures |r| == 2 && AllEscapeOutput(r)
  {
    [HexDigit(n / 16), HexDigit(n % 16)]
  }

  /** A code unit as four uppercase hexadecimal digits. */
  function Hex4(n: nat): (r: string)
    requires n < 0x10000
    ensures |r| == 4 && AllEscapeOutput(r)
  {
    AllEscapeOutputConcat(Hex2(n / 0x100), Hex2(n % 0x100));
    Hex2(n / 0x100) + Hex2(n % 0x100)
  }

  /** `escape` on one UTF-16 code unit: an unescaped ASCII character stays,
      a unit below 256 becomes `%XX`, any other `%uXXXX`. */
  function EscapeUnit(u: nat): (r: string)
    requires u < 0x10000
    ensures AllEscapeOutput(r)
    ensures u < 0x80 && Unescaped(u as char) ==> r == [u as char]
  {
    if u < 0x80 && Unescaped(u as char) then [u as char]
    else if u < 0x100 then
      AllEscapeOutputConcat("%", Hex2(u));
      "%" + Hex2(u)
    else
      AllEscapeOutputConcat("%u", Hex4(u));
      "%u" + Hex4(u)
  }

  /** `escape` on one character, through the one or two UTF-16 code units
      (a surrogate pair above U+FFFF) a JavaScript string holds it as. */
  function EscapeChar(c: char): (r: string)
    ensures AllEscapeOutput(r)
    ensures Unescaped(c) ==> r == [c]
  {
    var n := c as int;
    if n < 0x10000 then EscapeUnit(n)
    else
      var hi, lo := 0xD800 + (n - 0x10000) / 0x400, 0xDC00 + (n - 0x10000) % 0x400;
      AllEscapeOutputConcat(EscapeUnit(hi), EscapeUnit(lo));
      EscapeUnit(hi) + EscapeUnit(lo)
  }

  /** The global `escape` function: each character escaped in turn. Its
      output holds only unescaped characters and '%', so never a quote or a
      backslash, and a string of unescaped characters is returned as it is. */
  function JsEscape(s: string): (r: string)
    ensures AllEscapeOutput(r)
    ensures (forall i :: 0 <= i < |s| ==> Unescaped(s[i])) ==> r == s
    ensures |r| >= |s|
    decreases |s|
  {
    if |s| == 0 then ""
    else
      var rest := JsEscape(s[1..]);
      AllEscapeOutputConcat(EscapeChar(s[0]), rest);
      assert (forall i :: 0 <= i < |s| ==> Unescaped(s[i])) ==> (forall i :: 0 <= i < |s[1..]| ==> Unescaped(s[1..][i])) by {
        forall i | 0 <= i < |s[1..]| ensures s[1..][i] == s[i + 1] { }
      }
      assert s == [s[0]] + s[1..];
      EscapeChar(s[0]) + rest
  }

  /** `escape` works character by character, so it distributes over
      concatenation. */
  lemma {:induction false} JsEscapeAppend(a: string, b: string)
    ensures JsEscape(a + b) == JsEscape(a) + JsEscape(b)
    decreases |a|
  {
    if |a| > 0 {
      assert (a + b)[1..] == a[1..] + b;
      assert (a + b)[0] == a[0];
      JsEscapeAppend(a[1..], b);
    } else {
      assert a + b == b;
    }
  }

  /** The apostrophe is escaped as `%27`. */
  lemma JsEscapeQuote()
    ensures JsEscape("'") == "%27"
  {
    assert "'"[1..] == "";
    assert !Unescaped('\'');
    assert Hex2(39) == "27";
  }

  /** An apostrophe between two runs of unescaped characters is the one
      thing escaped: `escape("O'Brien")` is `O%27Brien`. */
  lemma JsEscapeApostrophe(a: string, b: string)
    requires forall i :: 0 <= i < |a| ==> Unescaped(a[i])
    requires forall i :: 0 <= i < |b| ==> Unescaped(b[i])
    ensures JsEscape(a + "'" + b) == a + "%27" + b
  {
    JsEscapeAppend(a + "'", b);
    JsEscapeAppend(a, "'");
    JsEscapeQuote();
  }
}
