/** The JavaScript string primitives the application relies on:
    `String.prototype.trim` and `String.prototype.toLowerCase`. */
module JsStrings {

  /** ECMAScript WhiteSpace or LineTerminator: what `trim` strips and what the
      regular-expression class `\s` matches. */
  predicate IsSpace(c: char) {
    || c == '\t' || c == '\n' || c == '\U{B}' || c == '\U{C}' || c == '\r' || c == ' '
    || c == '\U{A0}' || c == '\U{1680}' || ('\U{2000}' <= c <= '\U{200A}')
    || c == '\U{2028}' || c == '\U{2029}' || c == '\U{202F}' || c == '\U{205F}'
    || c == '\U{3000}' || c == '\U{FEFF}'
  }

  /** Empty or whitespace only: the strings for which `!s.trim()` holds. */
  predicate IsBlank(s: string) {
    forall i :: 0 <= i < |s| ==> IsSpace(s[i])
  }

  /** The number of whitespace characters at the front of s. */
  function LeadingSpaces(s: string): (n: nat)
    ensures n <= |s|
    ensures IsBlank(s[..n])
    ensures n < |s| ==> !IsSpace(s[n])
  {
    if s != [] && IsSpace(s[0]) then
      var n := 1 + LeadingSpaces(s[1..]);
      assert forall i :: 1 <= i < n ==> s[..n][i] == s[1..][..n - 1][i - 1];
      n
    else 0
  }

  /** The number of whitespace characters at the back of s. */
  function TrailingSpaces(s: string): (n: nat)
    ensures n <= |s|
    ensures IsBlank(s[|s| - n..])
    ensures n < |s| ==> !IsSpace(s[|s| - n - 1])
  {
    if s != [] && IsSpace(s[|s| - 1]) then
      var n := 1 + TrailingSpaces(s[..|s| - 1]);
      assert forall i :: |s| - n <= i < |s| - 1 ==> s[i] == s[..|s| - 1][i];
      n
    else 0
  }

  /** `String.prototype.trim`. */
  function Trim(s: string): (r: string)
    ensures |r| <= |s|
    ensures r == [] <==> IsBlank(s)
    ensures r != [] ==> !IsSpace(r[0]) && !IsSpace(r[|r| - 1])
    ensures exists i, j :: 0 <= i <= j <= |s| && r == s[i..j] && IsBlank(s[..i]) && IsBlank(s[j..])
  {
    var i := LeadingSpaces(s);
    var rest := s[i..];
    var j := TrailingSpaces(rest);
    TrimEmpty(s, i, j);
    TrimTight(s, i, j);
    TrimSlice(s, i, j);
    rest[..|rest| - j]
  }

  /** Trim's result is empty exactly for a blank input. */
  lemma TrimEmpty(s: string, i: nat, j: nat)
    requires i <= |s| && j <= |s| - i
    requires IsBlank(s[..i]) && (i < |s| ==> !IsSpace(s[i]))
    requires IsBlank(s[i..][|s| - i - j..])
    ensures s[i..][..|s| - i - j] == [] <==> IsBlank(s)
  {
    assert i < |s| ==> j < |s| - i;
    assert i == |s| ==> s[..i] == s;
  }

  /** A non-empty result of Trim starts and ends with a non-space character. */
  lemma TrimTight(s: string, i: nat, j: nat)
    requires i <= |s| && j <= |s| - i
    requires i < |s| ==> !IsSpace(s[i])
    requires j < |s| - i ==> !IsSpace(s[i..][|s| - i - j - 1])
    ensures s[i..][..|s| - i - j] != [] ==> !IsSpace(s[i]) && !IsSpace(s[|s| - j - 1])
  {
    if i + j < |s| {
      assert s[i..][|s| - i - j - 1] == s[|s| - j - 1];
    }
  }

  /** Trim's result is the input with a blank prefix and a blank suffix cut off. */
  lemma TrimSlice(s: string, i: nat, j: nat)
    requires i <= |s| && j <= |s| - i && IsBlank(s[..i]) && IsBlank(s[i..][|s| - i - j..])
    ensures exists a, b :: 0 <= a <= b <= |s| && s[i..][..|s| - i - j] == s[a..b] && IsBlank(s[..a]) && IsBlank(s[b..])
  {
    assert s[i..][..|s| - i - j] == s[i..|s| - j];
    assert s[|s| - j..] == s[i..][|s| - i - j..];
  }

  lemma TrimIdempotent(s: string)
    ensures Trim(Trim(s)) == Trim(s)
  {
    var r := Trim(s);
    if r != [] {
      assert LeadingSpaces(r) == 0;
      assert TrailingSpaces(r) == 0;
      assert r[0..][..|r| - 0] == r;
    }
  }

  /** Trimming a string that starts and ends with a non-space character changes nothing. */
  lemma TrimKeepsTight(s: string)
    requires s != [] && !IsSpace(s[0]) && !IsSpace(s[|s| - 1])
    ensures Trim(s) == s
  {
    assert LeadingSpaces(s) == 0;
    assert TrailingSpaces(s) == 0;
    assert s[0..][..|s|] == s;
  }

  /** `toLowerCase` on one character, for Basic Latin, Latin-1 and Latin
      Extended-A (which holds every Czech letter); other characters unchanged. */
  function LowerChar(c: char): char {
    if 'A' <= c <= 'Z' then (c as int + 32) as char
    else if '\U{C0}' <= c <= '\U{DE}' && c != '\U{D7}' then (c as int + 32) as char
    else if '\U{100}' <= c <= '\U{137}' && c != '\U{130}' && c as int % 2 == 0 then (c as int + 1) as char
    else if '\U{139}' <= c <= '\U{148}' && c as int % 2 == 1 then (c as int + 1) as char
    else if '\U{14A}' <= c <= '\U{177}' && c as int % 2 == 0 then (c as int + 1) as char
    else if c == '\U{178}' then '\U{FF}'
    else if '\U{179}' <= c <= '\U{17E}' && c as int % 2 == 1 then (c as int + 1) as char
    else c
  }

  /** `String.prototype.toLowerCase`, with the coverage of LowerChar. */
  function ToLower(s: string): (r: string)
    ensures |r| == |s|
    ensures forall i :: 0 <= i < |s| ==> r[i] == LowerChar(s[i])
  {
    seq(|s|, i requires 0 <= i < |s| => LowerChar(s[i]))
  }

}
