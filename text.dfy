/** String helpers standing in for the Python `str` methods the quality-control
    engine uses: `strip`, `lower`, `upper`, `lstrip(ch)`, `in` (substring),
    `join`, and the two-digit hexadecimal parsing and formatting of colours.
    Case mapping and whitespace cover the ASCII and Latin-1 characters, as
    Python's `str.lower`, `str.upper` and `str.isspace` treat them. */
module Text {

  /** Whitespace as Python's `str.strip()` removes it (ASCII and Latin-1 part). */
  predicate IsSpace(c: char)
  {
    c == ' ' || c == '\t' || c == '\n' || c == '\r' || c == '\U{0B}' || c == '\U{0C}'
    || ('\U{1C}' <= c <= '\U{1F}') || c == '\U{85}' || c == '\U{A0}'
  }

  /** Python's `s.lstrip()`: drops the leading whitespace. */
  function TrimStart(s: string): (r: string)
    ensures |r| <= |s| && r == s[|s| - |r|..]
    ensures r == [] || !IsSpace(r[0])
    ensures forall i :: 0 <= i < |s| - |r| ==> IsSpace(s[i])
  {
    if s != [] && IsSpace(s[0]) then TrimStart(s[1..]) else s
  }

  /** Python's `s.rstrip()`: drops the trailing whitespace. */
  function TrimEnd(s: string): (r: string)
    ensures |r| <= |s| && r == s[..|r|]
    ensures r == [] || !IsSpace(r[|r| - 1])
    ensures forall i :: |r| <= i < |s| ==> IsSpace(s[i])
  {
    if s != [] && IsSpace(s[|s| - 1]) then TrimEnd(s[..|s| - 1]) else s
  }

  /** Python's `s.strip()`: empty exactly for text that is all whitespace. */
  function Strip(s: string): (r: string)
    ensures r == [] <==> forall i :: 0 <= i < |s| ==> IsSpace(s[i])
  {
    var t := TrimStart(s);
    assert t != [] ==> t[0] == s[|s| - |t|];
    TrimEnd(t)
  }

  /** A string `strip` leaves as it is. */
  predicate IsStripped(s: string)
  {
    s == [] || (!IsSpace(s[0]) && !IsSpace(s[|s| - 1]))
  }

  lemma StripIsStripped(s: string)
    ensures IsStripped(Strip(s))
    ensures |Strip(s)| <= |s|
  {
    var t := TrimStart(s);
    var r := TrimEnd(t);
    if r != [] {
      assert r[0] == t[0];
    }
  }

  /** `strip` returns a contiguous slice of its argument. */
  lemma StripIsSlice(s: string) returns (a: nat)
    ensures a + |Strip(s)| <= |s| && Strip(s) == s[a..a + |Strip(s)|]
  {
    var t := TrimStart(s);
    a := |s| - |t|;
    assert TrimEnd(t) == t[..|TrimEnd(t)|];
  }

  lemma StrippedIsFixed(s: string)
    requires IsStripped(s)
    ensures Strip(s) == s
  {
  }

  /** A character `lower()` changes: the ASCII and Latin-1 capitals. */
  predicate IsCapital(c: char)
  {
    ('A' <= c <= 'Z') || ('\U{C0}' <= c <= '\U{D6}') || ('\U{D8}' <= c <= '\U{DE}')
  }

  /** A character `upper()` changes: the ASCII and Latin-1 small letters,
      including 'µ', 'ß' and 'ÿ', whose capitals lie outside Latin-1. */
  predicate IsSmall(c: char)
  {
    ('a' <= c <= 'z') || c == '\U{B5}' || ('\U{DF}' <= c <= '\U{F6}') || ('\U{F8}' <= c <= '\U{FF}')
  }

  /** What `lower()` makes of one character: a capital becomes the small
      letter 32 code points above it. */
  function LowerChar(c: char): (d: char)
    ensures !IsCapital(d)
    ensures IsCapital(c) ==> d as int == c as int + 32
    ensures !IsCapital(c) ==> d == c
  {
    if IsCapital(c) then (c as int + 32) as char else c
  }

  /** What `upper()` makes of one character: 'ß' becomes "SS", 'µ' the Greek
      capital mu, 'ÿ' the capital Y with diaeresis, and every other small
      letter the capital 32 code points below it. */
  function UpperOf(c: char): (u: string)
    ensures 1 <= |u| <= 2 && (|u| == 2 <==> c == '\U{DF}')
    ensures forall i :: 0 <= i < |u| ==> !IsSmall(u[i])
    ensures !IsSmall(c) ==> u == [c]
    ensures IsSmall(c) && c != '\U{B5}' && c < '\U{DF}' ==> u == [(c as int - 32) as char]
  {
    if c == '\U{DF}' then "SS"
    else if c == '\U{B5}' then ['\U{39C}']
    else if c == '\U{FF}' then ['\U{178}']
    else if IsSmall(c) then [(c as int - 32) as char]
    else [c]
  }

  /** Python's `s.lower()`: one character for each, capitals lowered. */
  function Lower(s: string): (r: string)
    ensures |r| == |s|
    ensures forall i :: 0 <= i < |s| ==> r[i] == LowerChar(s[i])
  {
    if s == [] then [] else [LowerChar(s[0])] + Lower(s[1..])
  }

  /** Python's `s.upper()`: every character's capital, in order; only 'ß'
      grows, into two characters. */
  function Upper(s: string): (r: string)
    ensures |s| <= |r| <= 2 * |s|
    ensures (forall i :: 0 <= i < |s| ==> s[i] != '\U{DF}') ==>
              |r| == |s| && forall i :: 0 <= i < |s| ==> [r[i]] == UpperOf(s[i])
  {
    if s == [] then [] else UpperOf(s[0]) + Upper(s[1..])
  }

  predicate IsLower(s: string)
  {
    forall i :: 0 <= i < |s| ==> !IsCapital(s[i])
  }

  predicate IsUpper(s: string)
  {
    forall i :: 0 <= i < |s| ==> !IsSmall(s[i])
  }

  lemma UpperFixed(s: string)
    requires IsUpper(s)
    ensures Upper(s) == s
  {
  }

  lemma LowerFixed(s: string)
    requires IsLower(s)
    ensures Lower(s) == s
  {
  }

  lemma {:induction false} UpperIsUpper(s: string)
    ensures IsUpper(Upper(s))
  {
    if s != [] {
      UpperIsUpper(s[1..]);
      var u, t := UpperOf(s[0]), Upper(s[1..]);
      assert forall i :: 0 <= i < |u + t| ==> (u + t)[i] == if i < |u| then u[i] else t[i - |u|];
    }
  }

  lemma LowerIsLower(s: string)
    ensures IsLower(Lower(s))
  {
    forall i | 0 <= i < |s| ensures !IsCapital(Lower(s)[i]) {
      assert Lower(s)[i] == LowerChar(s[i]);
    }
  }

  /** `strip` after `upper`, as Peca normalises its ID, returns its own result unchanged. */
  lemma StripUpperIdempotent(s: string)
    ensures IsUpper(Strip(Upper(s))) && IsStripped(Strip(Upper(s)))
    ensures Strip(Upper(Strip(Upper(s)))) == Strip(Upper(s))
  {
    var u := Upper(s);
    var t := Strip(u);
    UpperIsUpper(s);
    StripKeepsUpper(u);
    StripIsStripped(u);
    UpperFixed(t);
    StrippedIsFixed(t);
  }

  /** `strip` only cuts the ends off, so it keeps text upper-case. */
  lemma StripKeepsUpper(s: string)
    requires IsUpper(s)
    ensures IsUpper(Strip(s))
  {
    var t := Strip(s);
    var a := StripIsSlice(s);
    assert forall i :: 0 <= i < |t| ==> t[i] == s[a + i];
  }

  /** `strip` after `lower`, as Peca normalises its colour, returns its own result unchanged. */
  lemma StripLowerIdempotent(s: string)
    ensures IsLower(Strip(Lower(s))) && IsStripped(Strip(Lower(s)))
    ensures Strip(Lower(Strip(Lower(s)))) == Strip(Lower(s))
  {
    var l := Lower(s);
    var t := Strip(l);
    LowerIsLower(s);
    StripKeepsLower(l);
    StripIsStripped(l);
    LowerFixed(t);
    StrippedIsFixed(t);
  }

  /** `strip` only cuts the ends off, so it keeps text lower-case. */
  lemma StripKeepsLower(s: string)
    requires IsLower(s)
    ensures IsLower(Strip(s))
  {
    var t := Strip(s);
    var a := StripIsSlice(s);
    assert forall i :: 0 <= i < |t| ==> t[i] == s[a + i];
  }


  /** Python's `s.upper().strip()`, as a part's ID is normalised: stripped
      upper-case text. */
  function UpperStrip(s: string): (r: string)
    ensures IsUpper(r) && IsStripped(r)
  {
    StripUpperIdempotent(s);
    Strip(Upper(s))
  }

  /** Python's `s.lower().strip()`, as a part's colour is normalised: stripped
      lower-case text. */
  function LowerStrip(s: string): (r: string)
    ensures IsLower(r) && IsStripped(r)
  {
    StripLowerIdempotent(s);
    Strip(Lower(s))
  }

  /** Normalising an ID twice gives what normalising it once does. */
  lemma UpperStripStable(s: string)
    ensures UpperStrip(UpperStrip(s)) == UpperStrip(s)
  {
    StripUpperIdempotent(s);
  }

  /** Normalising a colour twice gives what normalising it once does. */
  lemma LowerStripStable(s: string)
    ensures LowerStrip(LowerStrip(s)) == LowerStrip(s)
  {
    StripLowerIdempotent(s);
  }

  /** Stripped upper-case text, which `upper().strip()` leaves unchanged. */
  lemma UpperStripFixed(s: string)
    requires IsUpper(s) && IsStripped(s)
    ensures UpperStrip(s) == s
  {
    UpperFixed(s);
    StrippedIsFixed(s);
  }

  /** Stripped lower-case text, which `lower().strip()` leaves unchanged. */
  lemma LowerStripFixed(s: string)
    requires IsLower(s) && IsStripped(s)
    ensures LowerStrip(s) == s
  {
    LowerFixed(s);
    StrippedIsFixed(s);
  }

  /** Python's `s.lstrip(ch)`: drops every leading copy of `ch`. */
  function DropLeading(s: string, ch: char): (r: string)
    ensures |r| <= |s| && r == s[|s| - |r|..]
    ensures r == [] || r[0] != ch
    ensures forall i :: 0 <= i < |s| - |r| ==> s[i] == ch
  {
    if s != [] && s[0] == ch then DropLeading(s[1..], ch) else s
  }

  predicate StartsWith(s: string, prefix: string)
  {
    |prefix| <= |s| && s[..|prefix|] == prefix
  }

  /** `sub` occurs in `s` starting at position `i`. */
  predicate OccursAt(s: string, sub: string, i: int)
  {
    0 <= i <= |s| - |sub| && s[i..i + |sub|] == sub
  }

  /** Python's `sub in s`: `sub` occurs in `s` at some position. */
  function Contains(s: string, sub: string): (b: bool)
    ensures b <==> exists i :: OccursAt(s, sub, i)
    decreases |s|
  {
    if StartsWith(s, sub) then
      assert OccursAt(s, sub, 0);
      true
    else if s == [] then false
    else
      ContainsShift(s, sub);
      Contains(s[1..], sub)
  }

  /** Past a position where `sub` does not start, the occurrences in `s` are
      those in its tail, one position further on. */
  lemma ContainsShift(s: string, sub: string)
    requires s != [] && !StartsWith(s, sub)
    ensures (exists i :: OccursAt(s, sub, i)) <==> (exists j :: OccursAt(s[1..], sub, j))
  {
    if exists i :: OccursAt(s, sub, i) {
      var i :| OccursAt(s, sub, i);
      assert s[0..|sub|] == s[..|sub|];
      assert i != 0;
      assert s[1..][i - 1..i - 1 + |sub|] == s[i..i + |sub|];
      assert OccursAt(s[1..], sub, i - 1);
    }
    if exists j :: OccursAt(s[1..], sub, j) {
      var j :| OccursAt(s[1..], sub, j);
      assert s[j + 1..j + 1 + |sub|] == s[1..][j..j + |sub|];
      assert OccursAt(s, sub, j + 1);
    }
  }

  lemma PrefixContained(prefix: string, rest: string)
    ensures Contains(prefix + rest, prefix)
  {
    assert (prefix + rest)[..|prefix|] == prefix;
  }

  /** A string in which `c` does not occur contains no text that holds `c`. */
  lemma {:induction false} AbsentCharNotContained(s: string, sub: string, k: nat)
    requires k < |sub|
    requires forall i :: 0 <= i < |s| ==> s[i] != sub[k]
    ensures !Contains(s, sub)
    decreases |s|
  {
    if |sub| <= |s| {
      assert s[..|sub|][k] == s[k] != sub[k];
    }
    if s != [] {
      AbsentCharNotContained(s[1..], sub, k);
    }
  }

  /** Python's `sep.join(xs)`. */
  function Join(xs: seq<string>, sep: string): (r: string)
    ensures xs == [] ==> r == []
    ensures |xs| == 1 ==> r == xs[0]
  {
    if xs == [] then [] else if |xs| == 1 then xs[0] else xs[0] + sep + Join(xs[1..], sep)
  }

  /** No character of `s` is `c`. */
  predicate Lacks(s: string, c: char)
  {
    forall i :: 0 <= i < |s| ==> s[i] != c
  }

  lemma {:induction false} JoinLacks(xs: seq<string>, sep: string, c: char)
    requires Lacks(sep, c)
    requires forall i :: 0 <= i < |xs| ==> Lacks(xs[i], c)
    ensures Lacks(Join(xs, sep), c)
  {
    if |xs| > 1 {
      JoinLacks(xs[1..], sep, c);
    }
  }

  /** Lower-cased text holds no upper-case letter. */
  lemma LowerLacks(s: string, c: char)
    requires IsLower(s) && IsCapital(c)
    ensures Lacks(s, c)
  {
  }

  // ------------------------------------------------------------------------
  // Hexadecimal digits, as Python's int(s, 16) reads and f'{n:02x}' writes them

  predicate IsHexDigit(c: char)
  {
    ('0' <= c <= '9') || ('a' <= c <= 'f') || ('A' <= c <= 'F')
  }

  function HexValue(c: char): (v: nat)
    requires IsHexDigit(c)
    ensures v < 16
  {
    if '0' <= c <= '9' then c as int - '0' as int
    else if 'a' <= c <= 'f' then c as int - 'a' as int + 10
    else c as int - 'A' as int + 10
  }

  /** The lower-case digit for 0..15. */
  function HexDigit(d: nat): (c: char)
    requires d < 16
    ensures IsHexDigit(c) && !('A' <= c <= 'F')
    ensures HexValue(c) == d
  {
    if d < 10 then ('0' as int + d) as char else ('a' as int + d - 10) as char
  }

  /** The value of a two-digit hexadecimal string. */
  function HexPair(s: string): (v: nat)
    requires |s| == 2 && IsHexDigit(s[0]) && IsHexDigit(s[1])
    ensures v < 256
  {
    16 * HexValue(s[0]) + HexValue(s[1])
  }

  /** Python's f'{n:02x}' for 0 <= n < 256. */
  function Hex2(n: nat): (s: string)
    requires n < 256
    ensures |s| == 2 && IsHexDigit(s[0]) && IsHexDigit(s[1]) && IsLower(s)
    ensures HexPair(s) == n
  {
    [HexDigit(n / 16), HexDigit(n % 16)]
  }
}
