/** String primitives of the JavaScript runtime that the application relies
    on: `String.prototype.trim`, `split(" ")`, ASCII case mapping and hex
    digits. Strings are `seq<char>` (UTF-16 code units in the source). */
module Text {
  import opened Wrappers

  /** The characters `trim` and `parseInt` skip: ECMAScript WhiteSpace and
      LineTerminator code points. */
  predicate IsWhitespace(c: char) {
    || c == ' ' || c == '\t' || c == '\n' || c == '\r'
    || c == '\U{000B}' || c == '\U{000C}' || c == '\U{00A0}' || c == '\U{1680}'
    || ('\U{2000}' <= c <= '\U{200A}')
    || c == '\U{2028}' || c == '\U{2029}' || c == '\U{202F}' || c == '\U{205F}'
    || c == '\U{3000}' || c == '\U{FEFF}'
  }

  predicate AllWhitespace(s: string) {
    forall i :: 0 <= i < |s| ==> IsWhitespace(s[i])
  }

  /** Number of leading whitespace characters. */
  function LeadingWhitespace(s: string): (k: nat)
    ensures k <= |s|
    ensures AllWhitespace(s[..k])
    ensures k < |s| ==> !IsWhitespace(s[k])
  {
    if |s| == 0 || !IsWhitespace(s[0]) then 0
    else
      var k' := LeadingWhitespace(s[1..]);
      assert s[1..][..k'] == s[1..k' + 1];
      1 + k'
  }

  /** Number of trailing whitespace characters. */
  function TrailingWhitespace(s: string): (k: nat)
    ensures k <= |s|
    ensures AllWhitespace(s[|s| - k..])
    ensures k < |s| ==> !IsWhitespace(s[|s| - k - 1])
  {
    if |s| == 0 || !IsWhitespace(s[|s| - 1]) then 0
    else
      var k' := TrailingWhitespace(s[..|s| - 1]);
      assert s[..|s| - 1][|s| - 1 - k'..] == s[|s| - 1 - k'..|s| - 1];
      1 + k'
  }

  /** `String.prototype.trimStart`. */
  function TrimStart(s: string): (r: string)
    ensures |r| <= |s| && r == s[|s| - |r|..]
    ensures AllWhitespace(s[..|s| - |r|])
    ensures r != [] ==> !IsWhitespace(r[0])
  {
    s[LeadingWhitespace(s)..]
  }

  /** `String.prototype.trim`: whitespace removed from both ends. */
  function Trim(s: string): (r: string)
    ensures |r| <= |s|
    ensures r == [] <==> AllWhitespace(s)
    ensures r != [] ==> !IsWhitespace(r[0]) && !IsWhitespace(r[|r| - 1])
    ensures var k := LeadingWhitespace(s);
            k + |r| <= |s| && s[k..k + |r|] == r && AllWhitespace(s[k + |r|..])
  {
    var k := LeadingWhitespace(s);
    var rest := s[k..];
    var j := TrailingWhitespace(rest);
    var r := rest[..|rest| - j];
    assert s[k..k + |r|] == r;
    assert s[k + |r|..] == rest[|rest| - j..];
    if k < |s| then
      assert rest[0] == s[k];
      assert j < |rest|;
      assert r[0] == s[k];
      assert r[|r| - 1] == rest[|rest| - j - 1];
      r
    else
      assert s[..k] == s;
      r
  }

  /** Trimming a trimmed string changes nothing. */
  lemma TrimIdempotent(s: string)
    ensures Trim(Trim(s)) == Trim(s)
  {
    var t := Trim(s);
    assert LeadingWhitespace(t) == 0;
    if t != [] {
      assert t[..|t| - 0] == t;
    }
  }

  function UpperChar(c: char): char {
    if 'a' <= c <= 'z' then (c as int - 32) as char else c
  }

  function LowerChar(c: char): char {
    if 'A' <= c <= 'Z' then (c as int + 32) as char else c
  }

  /** `toUpperCase`, restricted to the ASCII letters. */
  function ToUpper(s: string): (r: string)
    ensures |r| == |s|
    ensures forall i :: 0 <= i < |s| ==> r[i] == UpperChar(s[i])
  {
    seq(|s|, i requires 0 <= i < |s| => UpperChar(s[i]))
  }

  /** `toLowerCase`, restricted to the ASCII letters. */
  function ToLower(s: string): (r: string)
    ensures |r| == |s|
    ensures forall i :: 0 <= i < |s| ==> r[i] == LowerChar(s[i])
  {
    seq(|s|, i requires 0 <= i < |s| => LowerChar(s[i]))
  }

  /** Position of the first occurrence of `c` in `s`. */
  function IndexOf(s: string, c: char): (i: nat)
    requires c in s
    ensures i < |s| && s[i] == c && c !in s[..i]
  {
    if s[0] == c then 0
    else
      var i' := IndexOf(s[1..], c);
      assert s[..i' + 1] == [s[0]] + s[1..][..i'];
      1 + i'
  }

  /** `s.split(" ")`: the pieces between single spaces, empty pieces kept. */
  function Split(s: string): (r: seq<string>)
    ensures |r| >= 1
    ensures forall i :: 0 <= i < |r| ==> ' ' !in r[i]
    ensures |r| == 1 <==> ' ' !in s
    decreases |s|
  {
    if ' ' in s then
      var i := IndexOf(s, ' ');
      [s[..i]] + Split(s[i + 1..])
    else [s]
  }

  /** `words.join(" ")`. */
  function Join(words: seq<string>): string
    requires |words| >= 1
  {
    if |words| == 1 then words[0] else words[0] + " " + Join(words[1..])
  }

  /** Splitting at spaces loses nothing: joining the pieces restores the
      string. */
  lemma {:induction false} JoinSplit(s: string)
    ensures Join(Split(s)) == s
    decreases |s|
  {
    if ' ' in s {
      var i := IndexOf(s, ' ');
      var tail := Split(s[i + 1..]);
      JoinSplit(s[i + 1..]);
      assert Split(s) == [s[..i]] + tail;
      calc {
        Join(Split(s));
        s[..i] + " " + Join(tail);
        s[..i] + " " + s[i + 1..];
        { assert s == s[..i] + [s[i]] + s[i + 1..]; }
        s;
      }
    }
  }

  /** A split at a known first space. */
  lemma SplitAt(s: string, i: nat)
    requires i < |s| && s[i] == ' ' && ' ' !in s[..i]
    ensures Split(s) == [s[..i]] + Split(s[i + 1..])
  {
    var j := IndexOf(s, ' ');
    forall k | 0 <= k < j ensures s[k] != ' ' {
      assert s[k] == s[..j][k];
    }
    forall k | 0 <= k < i ensures s[k] != ' ' {
      assert s[k] == s[..i][k];
    }
    assert j == i;
    assert Split(s) == [s[..j]] + Split(s[j + 1..]);
  }

  /** A space after a piece without spaces ends that piece. */
  lemma SplitConcat(a: string, b: string)
    requires ' ' !in a
    ensures Split(a + " " + b) == [a] + Split(b)
  {
    var s := a + " " + b;
    assert s[..|a|] == a && s[|a| + 1..] == b;
    SplitAt(s, |a|);
  }

  /** A string without spaces is one piece. */
  lemma SplitNoSpace(a: string)
    requires ' ' !in a
    ensures Split(a) == [a]
  {
  }

  /** The first piece is empty exactly when the string starts with a space;
      otherwise it starts with the string's first character. */
  lemma SplitFirstPiece(s: string)
    ensures |Split(s)[0]| == 0 <==> |s| == 0 || s[0] == ' '
    ensures |Split(s)[0]| > 0 ==> Split(s)[0][0] == s[0]
  {
    if ' ' in s {
      var i := IndexOf(s, ' ');
      assert Split(s)[0] == s[..i];
    }
  }

  /** The last element of a non-empty sequence. */
  function Last<T>(w: seq<T>): T
    requires |w| > 0
  {
    w[|w| - 1]
  }

  /** The last piece is empty exactly when the string ends with a space (or
      is empty). */
  lemma {:induction false} SplitLastPiece(s: string)
    ensures |Last(Split(s))| == 0 <==> |s| == 0 || s[|s| - 1] == ' '
    decreases |s|
  {
    if ' ' in s {
      var i := IndexOf(s, ' ');
      SplitLastStep(s);
      SplitLastPiece(s[i + 1..]);
      LastCharAfterSpace(s, i);
    } else {
      assert Last(Split(s)) == s;
      assert |s| > 0 ==> s[|s| - 1] in s;
    }
  }

  /** With a space in `s`, the last piece is as long as the last piece of
      what follows the first space. */
  lemma SplitLastStep(s: string)
    requires ' ' in s
    ensures |Last(Split(s))| == |Last(Split(s[IndexOf(s, ' ') + 1..]))|
  {
    var i := IndexOf(s, ' ');
    SplitAt(s, i);
    LastOfCons(Split(s), s[..i], Split(s[i + 1..]));
  }

  lemma LastOfCons<T>(v: seq<T>, x: T, w: seq<T>)
    requires |w| > 0 && v == [x] + w
    ensures |v| > 0 && Last(v) == Last(w)
  {
  }

  /** After a space at `i`, the rest ends in a space or is empty exactly when
      `s` ends in a space. */
  lemma LastCharAfterSpace(s: string, i: nat)
    requires i < |s| && s[i] == ' '
    ensures var rest := s[i + 1..];
            (|rest| == 0 || rest[|rest| - 1] == ' ') <==> s[|s| - 1] == ' '
  {
    var rest := s[i + 1..];
    if |rest| > 0 {
      assert rest[|rest| - 1] == s[|s| - 1];
    }
  }

  predicate IsHexDigit(c: char) {
    ('0' <= c <= '9') || ('a' <= c <= 'f') || ('A' <= c <= 'F')
  }

  function HexValue(c: char): (v: nat)
    requires IsHexDigit(c)
    ensures v < 16
  {
    if '0' <= c <= '9' then c as int - '0' as int
    else if 'a' <= c <= 'f' then c as int - 'a' as int + 10
    else c as int - 'A' as int + 10
  }

  /** The lower-case hex digit `Number.prototype.toString(16)` writes. */
  function HexChar(v: nat): (c: char)
    requires v < 16
    ensures IsHexDigit(c) && HexValue(c) == v
    ensures !('A' <= c <= 'Z')
  {
    if v < 10 then ('0' as int + v) as char else ('a' as int + v - 10) as char
  }

  /** Reading a digit back and writing it again gives its lower-case form. */
  lemma HexCharOfValue(c: char)
    requires IsHexDigit(c)
    ensures HexChar(HexValue(c)) == LowerChar(c)
  {
  }
}
