/** String helpers standing in for the JavaScript built-ins the application calls. */
module Text {

  // ---------------------------------------------------------------------------
  // Case mapping (ASCII only)
  // ---------------------------------------------------------------------------

  /** `toLowerCase` on one character, restricted to ASCII letters. */
  function LowerChar(c: char): char {
    if 'A' <= c <= 'Z' then (c as int + 32) as char else c
  }

  /** `toUpperCase` on one character, restricted to ASCII letters. */
  function UpperChar(c: char): char {
    if 'a' <= c <= 'z' then (c as int - 32) as char else c
  }

  /** `String.prototype.toLowerCase`: keeps the length, lowers each ASCII capital. */
  function Lower(s: string): (r: string)
    ensures |r| == |s|
    ensures forall i :: 0 <= i < |s| ==> r[i] == LowerChar(s[i])
  {
    if |s| == 0 then [] else [LowerChar(s[0])] + Lower(s[1..])
  }

  /** `String.prototype.toUpperCase`: keeps the length, raises each ASCII small letter. */
  function Upper(s: string): (r: string)
    ensures |r| == |s|
    ensures forall i :: 0 <= i < |s| ==> r[i] == UpperChar(s[i])
  {
    if |s| == 0 then [] else [UpperChar(s[0])] + Upper(s[1..])
  }

  // ---------------------------------------------------------------------------
  // Substring search
  // ---------------------------------------------------------------------------

  /** `q` is a prefix of `s`. */
  predicate IsPrefix(q: string, s: string) {
    |q| <= |s| && s[..|q|] == q
  }

  /** `s.includes(q)`: `q` occurs in `s` at some offset. */
  predicate Contains(s: string, q: string) {
    exists i :: 0 <= i <= |s| && IsPrefix(q, s[i..])
  }

  // ---------------------------------------------------------------------------
  // trim(): blank strings
  // ---------------------------------------------------------------------------

  /** The characters `String.prototype.trim` removes: ECMAScript WhiteSpace and LineTerminator. */
  predicate IsJsWhitespace(c: char) {
    var u := c as int;
    || u == 0x09 || u == 0x0B || u == 0x0C || u == 0x20 || u == 0xA0 || u == 0xFEFF
    || u == 0x1680 || 0x2000 <= u <= 0x200A || u == 0x202F || u == 0x205F || u == 0x3000
    || u == 0x0A || u == 0x0D || u == 0x2028 || u == 0x2029
  }

  /** `s.trimStart()`: the suffix left once the leading whitespace is dropped. */
  function TrimStart(s: string): (r: string)
    ensures |r| <= |s| && r == s[|s| - |r|..]
    ensures forall i :: 0 <= i < |s| - |r| ==> IsJsWhitespace(s[i])
    ensures r == [] || !IsJsWhitespace(r[0])
  {
    if |s| == 0 || !IsJsWhitespace(s[0]) then s else TrimStart(s[1..])
  }

  /**
   * `!s.trim()`: trimming leaves the empty string, which happens exactly when trimming the
   * start alone does.
   */
  function IsBlank(s: string): (blank: bool)
    ensures blank <==> forall i :: 0 <= i < |s| ==> IsJsWhitespace(s[i])
  {
    TrimStart(s) == []
  }

  // ---------------------------------------------------------------------------
  // split(' ') and join
  // ---------------------------------------------------------------------------

  /** `s.split(' ')`: the pieces between single spaces; `k` spaces give `k + 1` pieces. */
  function SplitOnSpace(s: string): (r: seq<string>)
    ensures |r| >= 1
    ensures forall i :: 0 <= i < |r| ==> ' ' !in r[i]
  {
    if |s| == 0 then [""]
    else
      var rest := SplitOnSpace(s[1..]);
      if s[0] == ' ' then [""] + rest else [[s[0]] + rest[0]] + rest[1..]
  }

  /** `words.join(' ')`. */
  function JoinWithSpace(words: seq<string>): string
    requires |words| >= 1
  {
    if |words| == 1 then words[0] else words[0] + " " + JoinWithSpace(words[1..])
  }

  /** Splitting on spaces loses nothing: joining the pieces back gives the string. */
  lemma {:induction false} JoinSplit(s: string)
    ensures JoinWithSpace(SplitOnSpace(s)) == s
  {
    if |s| > 0 {
      var rest := SplitOnSpace(s[1..]);
      JoinSplit(s[1..]);
      if s[0] == ' ' {
        assert SplitOnSpace(s) == [""] + rest;
        assert JoinWithSpace(SplitOnSpace(s)) == "" + " " + JoinWithSpace(rest);
        assert s == [s[0]] + s[1..];
      } else {
        var words := SplitOnSpace(s);
        assert words == [[s[0]] + rest[0]] + rest[1..];
        if |rest| == 1 {
          assert JoinWithSpace(words) == [s[0]] + rest[0];
          assert s == [s[0]] + s[1..];
        } else {
          assert words[1..] == rest[1..];
          assert JoinWithSpace(rest) == rest[0] + " " + JoinWithSpace(rest[1..]);
          assert JoinWithSpace(words) == [s[0]] + rest[0] + " " + JoinWithSpace(rest[1..]);
          assert s == [s[0]] + s[1..];
        }
      }
    }
  }

  // ---------------------------------------------------------------------------
  // replace(from, to) with a one-character pattern
  // ---------------------------------------------------------------------------

  /** Index of the first `c` in `s`, or `|s|` when there is none. */
  function FirstIndex(s: string, c: char): (k: nat)
    ensures k <= |s|
    ensures k == |s| <==> c !in s
    ensures k < |s| ==> s[k] == c
    ensures forall i :: 0 <= i < k ==> s[i] != c
  {
    if |s| == 0 then 0 else if s[0] == c then 0 else 1 + FirstIndex(s[1..], c)
  }

  /**
   * `s.replace(from, to)` with a one-character string pattern: the first occurrence of the
   * pattern, if any, becomes the replacement and every other character stays.
   */
  function ReplaceFirst(s: string, from: char, to: char): (r: string)
    ensures |r| == |s|
    ensures forall i :: 0 <= i < |s| ==> r[i] == if i == FirstIndex(s, from) then to else s[i]
    ensures from !in s ==> r == s
  {
    var k := FirstIndex(s, from);
    if k < |s| then s[..k] + [to] + s[k + 1..] else s
  }

  /** The first occurrence is the one replaced, whatever follows it. */
  lemma ReplaceFirstAt(before: string, after: string, from: char, to: char)
    requires from !in before
    ensures ReplaceFirst(before + [from] + after, from, to) == before + [to] + after
  {
    var s := before + [from] + after;
    var k := FirstIndex(s, from);
    assert s[|before|] == from;
    assert k == |before|;
    assert ReplaceFirst(s, from, to) == s[..k] + [to] + s[k + 1..];
    assert s[..k] == before && s[k + 1..] == after;
  }

  /** A string without the pattern is left alone. */
  lemma ReplaceFirstOfAbsent(s: string, from: char, to: char)
    requires from !in s
    ensures ReplaceFirst(s, from, to) == s
  {
  }

  // ---------------------------------------------------------------------------
  // Decimal rendering of counts
  // ---------------------------------------------------------------------------

  function DigitChar(d: nat): char
    requires d < 10
  {
    ('0' as int + d) as char
  }

  function DigitValue(c: char): int {
    c as int - '0' as int
  }

  /** How a non-negative number renders in text: decimal digits, no leading zeros. */
  function Decimal(n: nat): (r: string)
    ensures |r| >= 1
    ensures forall i :: 0 <= i < |r| ==> '0' <= r[i] <= '9'
    ensures |r| > 1 ==> r[0] != '0'
  {
    if n < 10 then [DigitChar(n)] else Decimal(n / 10) + [DigitChar(n % 10)]
  }

  /** Reads a run of decimal digits back as a number. */
  function ParseDecimal(s: string): int {
    if |s| == 0 then 0 else ParseDecimal(s[..|s| - 1]) * 10 + DigitValue(s[|s| - 1])
  }

  /** Reading the rendered digits gives the number back. */
  lemma {:induction false} ParseDecimalRoundTrip(n: nat)
    ensures ParseDecimal(Decimal(n)) == n
  {
    if n >= 10 {
      var s := Decimal(n);
      assert s[..|s| - 1] == Decimal(n / 10);
      ParseDecimalRoundTrip(n / 10);
    }
  }
}
