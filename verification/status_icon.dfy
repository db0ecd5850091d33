/** The status icon colours: a fill colour per status and a stroke that is the
    fill darkened by 20 percent. `darkenColor` parses a hex colour with
    `parseInt(_, 16)`, splits it into bytes with 32-bit shifts and masks,
    scales each byte, rounds, clamps and writes it back as lower-case hex. */
module StatusIcon {
  import opened Wrappers
  import opened Text
  import opened Schemas

  /** The value of a string of hex digits, most significant first. */
  function HexNumber(digits: string): (n: nat)
    requires forall i :: 0 <= i < |digits| ==> IsHexDigit(digits[i])
    ensures n < Pow16(|digits|)
  {
    if |digits| == 0 then 0
    else
      var init := digits[..|digits| - 1];
      HexNumber(init) * 16 + HexValue(digits[|digits| - 1])
  }

  function Pow16(k: nat): (p: nat)
    ensures p >= 1
  {
    if k == 0 then 1 else 16 * Pow16(k - 1)
  }

  /** Length of the longest prefix made of hex digits. */
  function HexPrefixLength(s: string): (k: nat)
    ensures k <= |s|
    ensures forall i :: 0 <= i < k ==> IsHexDigit(s[i])
    ensures k < |s| ==> !IsHexDigit(s[k])
  {
    if |s| == 0 || !IsHexDigit(s[0]) then 0 else 1 + HexPrefixLength(s[1..])
  }

  /** `parseInt(s, 16)`: leading whitespace skipped, an optional sign, an
      optional `0x`/`0X` prefix, then the longest run of hex digits; `None`
      stands for `NaN` (no digit at all). */
  function ParseHex(s: string): (r: Option<int>)
    ensures r.None? <==>
              var t := TrimStart(s);
              var u := if |t| > 0 && (t[0] == '-' || t[0] == '+') then t[1..] else t;
              var v := if |u| >= 2 && u[0] == '0' && (u[1] == 'x' || u[1] == 'X') then u[2..] else u;
              v == [] || !IsHexDigit(v[0])
  {
    var t := TrimStart(s);
    var negative := |t| > 0 && t[0] == '-';
    var u := if |t| > 0 && (t[0] == '-' || t[0] == '+') then t[1..] else t;
    var v := if |u| >= 2 && u[0] == '0' && (u[1] == 'x' || u[1] == 'X') then u[2..] else u;
    var k := HexPrefixLength(v);
    if k == 0 then None
    else
      var n: int := HexNumber(v[..k]);
      Some(if negative then -n else n)
  }

  /** `(num >> shift) & 255` on the 32-bit integer `ToInt32(num)`; `NaN`
      converts to 0. */
  function Byte(num: Option<int>, shift: nat): (b: int)
    ensures 0 <= b < 256
  {
    match num
    case None => 0
    case Some(n) => (n % 0x1_0000_0000) / Pow2(shift) % 256
  }

  function Pow2(k: nat): (p: nat)
    ensures p >= 1
  {
    if k == 0 then 1 else 2 * Pow2(k - 1)
  }

  /** `Math.round` on an exact rational: halves round up. */
  function Round(x: real): int {
    (x + 0.5).Floor
  }

  function Clamp(v: int): (c: int)
    ensures 0 <= c <= 255
    ensures 0 <= v <= 255 ==> c == v
  {
    if v < 0 then 0 else if v > 255 then 255 else v
  }

  /** One channel scaled by `1 - percent / 100`, rounded and clamped. */
  function Darken(c: int, percent: real): (d: int)
    ensures 0 <= d <= 255
  {
    Clamp(Round(c as real * (1.0 - percent / 100.0)))
  }

  /** `Number.prototype.toString(16)` on a non-negative integer. */
  function ToHexString(n: nat): (s: string)
    ensures |s| >= 1
    ensures forall i :: 0 <= i < |s| ==> IsLowerHexDigit(s[i])
  {
    if n < 16 then [HexChar(n)] else ToHexString(n / 16) + [HexChar(n % 16)]
  }

  /** `s.padStart(width, "0")`. */
  function PadStart(s: string, width: nat): (r: string)
    ensures |r| == if |s| >= width then |s| else width
    ensures r[|r| - |s|..] == s
    ensures forall i :: 0 <= i < |r| - |s| ==> r[i] == '0'
  {
    if |s| >= width then s else seq(width - |s|, _ => '0') + s
  }

  /** The `toHex` helper: a byte as exactly two lower-case hex digits (see
      `ToHex2IsPaddedHexString` for its relation to `toString(16)` and
      `padStart`). */
  function ToHex2(c: int): (s: string)
    requires 0 <= c <= 255
    ensures |s| == 2
    ensures IsLowerHexDigit(s[0]) && IsLowerHexDigit(s[1])
    ensures HexValue(s[0]) * 16 + HexValue(s[1]) == c
  {
    [HexChar(c / 16), HexChar(c % 16)]
  }

  /** `c.toString(16).padStart(2, "0")` spells the byte as `ToHex2` does. */
  lemma ToHex2IsPaddedHexString(c: int)
    requires 0 <= c <= 255
    ensures PadStart(ToHexString(c), 2) == ToHex2(c)
  {
    if c < 16 {
      assert ToHexString(c) == [HexChar(c)];
      assert HexChar(0) == '0';
    } else {
      assert ToHexString(c / 16) == [HexChar(c / 16)];
    }
  }

  /** The colour part of the input: a leading `#` removed if present. */
  function StripHash(hex: string): (color: string)
    ensures |hex| > 0 && hex[0] == '#' ==> hex == "#" + color
    ensures !(|hex| > 0 && hex[0] == '#') ==> color == hex
  {
    if |hex| > 0 && hex[0] == '#' then hex[1..] else hex
  }

  /** The red, green and blue bytes of the parsed input. */
  function Channels(hex: string): (rgb: (int, int, int)) {
    var num := ParseHex(StripHash(hex));
    (Byte(num, 16), Byte(num, 8), Byte(num, 0))
  }

  /** The two hex digits of `s` starting at `i`, read as a byte. */
  function ByteAt(s: string, i: nat): int
    requires i + 1 < |s|
    requires IsHexDigit(s[i]) && IsHexDigit(s[i + 1])
  {
    HexValue(s[i]) * 16 + HexValue(s[i + 1])
  }

  predicate IsLowerHexDigit(c: char) {
    IsHexDigit(c) && !('A' <= c <= 'Z')
  }

  /** A `#` followed by six lower-case hex digits. */
  predicate IsColorCode(s: string) {
    && |s| == 7 && s[0] == '#'
    && forall i :: 1 <= i < 7 ==> IsLowerHexDigit(s[i])
  }

  /** The output template `#${toHex(r)}${toHex(g)}${toHex(b)}`. */
  function EncodeColor(red: int, green: int, blue: int): (code: string)
    requires 0 <= red <= 255 && 0 <= green <= 255 && 0 <= blue <= 255
    ensures IsColorCode(code)
    ensures ByteAt(code, 1) == red && ByteAt(code, 3) == green && ByteAt(code, 5) == blue
  {
    var r := ToHex2(red);
    var g := ToHex2(green);
    var b := ToHex2(blue);
    var code := "#" + r + g + b;
    assert code[1] == r[0] && code[2] == r[1];
    assert code[3] == g[0] && code[4] == g[1];
    assert code[5] == b[0] && code[6] == b[1];
    code
  }

  /** `darkenColor`: the result is a colour code whose bytes are the input's
      bytes, each darkened by `percent`. */
  function DarkenColor(hex: string, percent: real): (r: string)
    ensures IsColorCode(r)
    ensures var (red, green, blue) := Channels(hex);
            && ByteAt(r, 1) == Darken(red, percent)
            && ByteAt(r, 3) == Darken(green, percent)
            && ByteAt(r, 5) == Darken(blue, percent)
  {
    var (red, green, blue) := Channels(hex);
    EncodeColor(Darken(red, percent), Darken(green, percent), Darken(blue, percent))
  }

  /** For a percentage between 0 and 100 no channel gets brighter. */
  lemma DarkenNeverBrightens(hex: string, percent: real)
    requires 0.0 <= percent <= 100.0
    ensures var (red, green, blue) := Channels(hex);
            var r := DarkenColor(hex, percent);
            ByteAt(r, 1) <= red && ByteAt(r, 3) <= green && ByteAt(r, 5) <= blue
  {
    var (red, green, blue) := Channels(hex);
    DarkenChannelBound(red, percent);
    DarkenChannelBound(green, percent);
    DarkenChannelBound(blue, percent);
  }

  lemma DarkenChannelBound(c: int, percent: real)
    requires 0 <= c <= 255
    requires 0.0 <= percent <= 100.0
    ensures Darken(c, percent) <= c
  {
    var f := 1.0 - percent / 100.0;
    assert 0.0 <= f <= 1.0;
    var cr := c as real;
    var x := cr * f;
    assert cr * (percent / 100.0) >= 0.0;
    assert x == cr - cr * (percent / 100.0);
    assert Round(x) as real <= x + 0.5 < (c + 1) as real;
  }

  /** Darkening by 100 percent always yields black. */
  lemma DarkenFullyIsBlack(hex: string)
    ensures DarkenColor(hex, 100.0) == "#000000"
  {
    var (red, green, blue) := Channels(hex);
    DarkenFully(red);
    DarkenFully(green);
    DarkenFully(blue);
    BlackCode();
  }

  /** Any channel darkened by 100 percent is 0. */
  lemma DarkenFully(c: int)
    ensures Darken(c, 100.0) == 0
  {
    assert c as real * (1.0 - 100.0 / 100.0) == 0.0;
  }

  /** Three zero bytes are written as `#000000`. */
  lemma BlackCode()
    ensures EncodeColor(0, 0, 0) == "#000000"
  {
    assert ToHex2(0) == "00";
    assert "#" + "00" + "00" + "00" == "#000000";
  }

  /** A `#` and six hex digits, letters in either case. */
  predicate IsSixDigitCode(hex: string) {
    |hex| == 7 && hex[0] == '#' && forall i :: 1 <= i < 7 ==> IsHexDigit(hex[i])
  }

  /** Darkening by 0 percent writes a six-digit colour back unchanged, up to
      letter case. */
  lemma DarkenByZeroIsLowercase(hex: string)
    requires IsSixDigitCode(hex)
    ensures DarkenColor(hex, 0.0) == ToLower(hex)
  {
    CodeChannels(hex);
    var (red, green, blue) := Channels(hex);
    DarkenByZero(red);
    DarkenByZero(green);
    DarkenByZero(blue);
    assert DarkenColor(hex, 0.0) == EncodeColor(red, green, blue);
    EncodeDigits(hex);
  }

  /** The channels of a six-digit code are its digit pairs. */
  lemma CodeChannels(hex: string)
    requires IsSixDigitCode(hex)
    ensures Channels(hex) == (ByteAt(hex, 1), ByteAt(hex, 3), ByteAt(hex, 5))
  {
    var digits := hex[1..];
    assert StripHash(hex) == digits;
    SixDigitChannels(digits);
    var num := ParseHex(digits);
    assert Channels(hex) == (Byte(num, 16), Byte(num, 8), Byte(num, 0));
    assert ByteAt(digits, 0) == ByteAt(hex, 1);
    assert ByteAt(digits, 2) == ByteAt(hex, 3);
    assert ByteAt(digits, 4) == ByteAt(hex, 5);
  }

  /** Encoding the digit pairs of a code gives the code in lower case. */
  lemma EncodeDigits(hex: string)
    requires IsSixDigitCode(hex)
    ensures EncodeColor(ByteAt(hex, 1), ByteAt(hex, 3), ByteAt(hex, 5)) == ToLower(hex)
  {
    PairSpelled(hex, 1);
    PairSpelled(hex, 3);
    PairSpelled(hex, 5);
    var r := ToHex2(ByteAt(hex, 1));
    var g := ToHex2(ByteAt(hex, 3));
    var b := ToHex2(ByteAt(hex, 5));
    EncodeSpelled(r, g, b);
    LowerCode(hex);
  }

  /** The byte two digits spell is written back as those digits in lower
      case. */
  lemma PairSpelled(hex: string, i: nat)
    requires i + 1 < |hex| && IsHexDigit(hex[i]) && IsHexDigit(hex[i + 1])
    ensures ToHex2(ByteAt(hex, i)) == [LowerChar(hex[i]), LowerChar(hex[i + 1])]
  {
    ToHex2OfDigits(hex[i], hex[i + 1]);
  }

  lemma EncodeSpelled(r: string, g: string, b: string)
    requires |r| == 2 && |g| == 2 && |b| == 2
    ensures "#" + r + g + b == ['#', r[0], r[1], g[0], g[1], b[0], b[1]]
  {
  }

  lemma LowerCode(hex: string)
    requires IsSixDigitCode(hex)
    ensures ToLower(hex) == ['#', LowerChar(hex[1]), LowerChar(hex[2]), LowerChar(hex[3]),
                             LowerChar(hex[4]), LowerChar(hex[5]), LowerChar(hex[6])]
  {
    assert LowerChar('#') == '#';
  }

  /** Writing back the byte two digits spell gives the digits in lower case. */
  lemma ToHex2OfDigits(a: char, b: char)
    requires IsHexDigit(a) && IsHexDigit(b)
    ensures ToHex2(HexValue(a) * 16 + HexValue(b)) == [LowerChar(a), LowerChar(b)]
  {
    HexCharOfValue(a);
    HexCharOfValue(b);
    DivMod16(HexValue(a), HexValue(b));
  }

  lemma DivMod16(q: int, r: int)
    requires 0 <= r < 16
    ensures (q * 16 + r) / 16 == q && (q * 16 + r) % 16 == r
  {
  }

  lemma DarkenByZero(c: int)
    requires 0 <= c <= 255
    ensures Darken(c, 0.0) == c
  {
    assert c as real * (1.0 - 0.0 / 100.0) == c as real;
  }

  /** Two more digits of a hex string append one byte to its value. */
  lemma HexNumberStep(s: string, k: nat)
    requires k + 2 <= |s|
    requires forall i :: 0 <= i < |s| ==> IsHexDigit(s[i])
    ensures HexNumber(s[..k + 2]) == HexNumber(s[..k]) * 256 + ByteAt(s, k)
  {
    assert s[..k + 2][..k + 1] == s[..k + 1];
    assert s[..k + 1][..k] == s[..k];
    assert HexNumber(s[..k + 1]) == HexNumber(s[..k]) * 16 + HexValue(s[k]);
  }

  lemma DivMod256(q: int, r: int)
    requires 0 <= r < 256
    ensures (q * 256 + r) / 256 == q && (q * 256 + r) % 256 == r
  {
  }

  /** `parseInt` reads all six digits of a six-digit colour. */
  lemma ParseSixDigits(digits: string)
    requires |digits| == 6
    requires forall i :: 0 <= i < 6 ==> IsHexDigit(digits[i])
    ensures ParseHex(digits) == Some(HexNumber(digits))
  {
    assert !IsWhitespace(digits[0]);
    assert LeadingWhitespace(digits) == 0;
    assert TrimStart(digits) == digits;
    assert !(digits[0] == '-' || digits[0] == '+');
    assert !(digits[1] == 'x' || digits[1] == 'X');
    HexPrefixOfDigits(digits);
    assert digits[..6] == digits;
  }

  /** A string of hex digits is read to its end. */
  lemma {:induction false} HexPrefixOfDigits(s: string)
    requires forall i :: 0 <= i < |s| ==> IsHexDigit(s[i])
    ensures HexPrefixLength(s) == |s|
  {
    if |s| > 0 {
      assert forall i :: 0 <= i < |s[1..]| ==> s[1..][i] == s[i + 1];
      HexPrefixOfDigits(s[1..]);
    }
  }

  /** The number six digits spell, byte by byte. */
  lemma SixDigitValue(digits: string)
    requires |digits| == 6
    requires forall i :: 0 <= i < 6 ==> IsHexDigit(digits[i])
    ensures HexNumber(digits) == (ByteAt(digits, 0) * 256 + ByteAt(digits, 2)) * 256 + ByteAt(digits, 4)
  {
    var two, four := digits[..2], digits[..4];
    HexNumberStep(digits, 0);
    HexNumberStep(digits, 2);
    HexNumberStep(digits, 4);
    assert digits[..6] == digits && digits[..0] == [];
    ThreeBytes(HexNumber(digits), HexNumber(four), HexNumber(two),
               ByteAt(digits, 0), ByteAt(digits, 2), ByteAt(digits, 4));
  }

  /** Three steps of `n = prefix * 256 + byte`, starting from an empty prefix. */
  lemma ThreeBytes(n: int, n4: int, n2: int, hi: int, mid: int, lo: int)
    requires n == n4 * 256 + lo && n4 == n2 * 256 + mid && n2 == 0 * 256 + hi
    ensures n == (hi * 256 + mid) * 256 + lo
  {
  }

  /** Shifting and masking a 24-bit number recovers its three bytes. */
  lemma ByteSplit(hi: int, mid: int, lo: int)
    requires 0 <= hi < 256 && 0 <= mid < 256 && 0 <= lo < 256
    ensures var n := (hi * 256 + mid) * 256 + lo;
            && Byte(Some(n), 16) == hi && Byte(Some(n), 8) == mid && Byte(Some(n), 0) == lo
  {
    var top := hi * 256 + mid;
    var n := top * 256 + lo;
    assert 0 <= n < 0x1_0000_0000;
    assert n % 0x1_0000_0000 == n;
    assert Pow2(16) == 65536 && Pow2(8) == 256 && Pow2(0) == 1;
    DivMod256(top, lo);
    DivMod256(hi, mid);
    assert n / 65536 == n / 256 / 256;
  }

  /** The bytes of a six-digit colour are its digit pairs. */
  lemma SixDigitChannels(digits: string)
    requires |digits| == 6
    requires forall i :: 0 <= i < 6 ==> IsHexDigit(digits[i])
    ensures Byte(ParseHex(digits), 16) == ByteAt(digits, 0)
    ensures Byte(ParseHex(digits), 8) == ByteAt(digits, 2)
    ensures Byte(ParseHex(digits), 0) == ByteAt(digits, 4)
  {
    ParseSixDigits(digits);
    SixDigitBytes(digits);
  }

  /** The three bytes of the number six digits spell are its digit pairs. */
  lemma SixDigitBytes(digits: string)
    requires |digits| == 6
    requires forall i :: 0 <= i < 6 ==> IsHexDigit(digits[i])
    ensures Byte(Some(HexNumber(digits)), 16) == ByteAt(digits, 0)
    ensures Byte(Some(HexNumber(digits)), 8) == ByteAt(digits, 2)
    ensures Byte(Some(HexNumber(digits)), 0) == ByteAt(digits, 4)
  {
    SixDigitValue(digits);
    ByteSplit(ByteAt(digits, 0), ByteAt(digits, 2), ByteAt(digits, 4));
  }

  /** `statusColors`: the fill colour of each status. */
  function StatusColor(s: ChecklistStatus): (c: string)
    ensures |c| == 7 && c[0] == '#'
  {
    match s
    case NotStarted => "#cfcfcf"
    case InProgress => "#ffbe3f"
    case Blocked => "#ff5252"
    case FinalCheckAwaiting => "#3faeff"
    case Done => "#58e766"
  }

  /** The icon's stroke: the fill darkened by 20 percent. */
  function StrokeColor(s: ChecklistStatus): (c: string)
    ensures IsColorCode(c)
  {
    DarkenColor(StatusColor(s), 20.0)
  }

  /** The stroke colour of each status, computed from its fill. */
  lemma StrokeColors()
    ensures forall s: ChecklistStatus :: IsSixDigitCode(StatusColor(s))
    ensures StrokeColor(NotStarted) == "#a6a6a6"
    ensures StrokeColor(InProgress) == "#cc9832"
    ensures StrokeColor(Blocked) == "#cc4242"
    ensures StrokeColor(FinalCheckAwaiting) == "#328bcc"
    ensures StrokeColor(Done) == "#46b952"
  {
    forall s: ChecklistStatus ensures IsSixDigitCode(StatusColor(s)) {
      StatusColorIsCode(s);
    }
    StrokeNotStarted();
    StrokeInProgress();
    StrokeBlocked();
    StrokeFinalCheck();
    StrokeDone();
  }

  /** Each fill colour is a `#` and six hex digits. */
  lemma StatusColorIsCode(s: ChecklistStatus)
    ensures IsSixDigitCode(StatusColor(s))
  {
    var c := StatusColor(s);
    match s
    case NotStarted => assert c[1] == 'c' && c[2] == 'f';
    case InProgress => assert c[1] == 'f' && c[3] == 'b' && c[4] == 'e' && c[5] == '3';
    case Blocked => assert c[1] == 'f' && c[3] == '5' && c[4] == '2';
    case FinalCheckAwaiting => assert c[1] == '3' && c[2] == 'f' && c[3] == 'a' && c[4] == 'e';
    case Done => assert c[1] == '5' && c[2] == '8' && c[3] == 'e' && c[4] == '7' && c[6] == '6';
  }

  lemma StrokeNotStarted() ensures StrokeColor(NotStarted) == "#a6a6a6" {
    var fill := "#cfcfcf";
    assert IsSixDigitCode(fill);
    assert HexValue('c') == 12 && HexValue('f') == 15;
    assert ByteAt(fill, 1) == 207;
    assert ByteAt(fill, 3) == 207;
    assert ByteAt(fill, 5) == 207;
    assert Round(207.0 * (1.0 - 20.0 / 100.0)) == 166;
    assert Darken(207, 20.0) == 166;
    assert ToHex2(166) == "a6";
    assert EncodeColor(166, 166, 166) == "#a6a6a6";
    StrokeOf(fill, 207, 207, 207, 166, 166, 166);
  }

  lemma StrokeInProgress() ensures StrokeColor(InProgress) == "#cc9832" {
    var fill := "#ffbe3f";
    assert IsSixDigitCode(fill);
    assert HexValue('3') == 3 && HexValue('b') == 11 && HexValue('e') == 14 && HexValue('f') == 15;
    assert ByteAt(fill, 1) == 255;
    assert ByteAt(fill, 3) == 190;
    assert ByteAt(fill, 5) == 63;
    assert Round(255.0 * (1.0 - 20.0 / 100.0)) == 204;
    assert Darken(255, 20.0) == 204;
    assert ToHex2(204) == "cc";
    assert Round(190.0 * (1.0 - 20.0 / 100.0)) == 152;
    assert Darken(190, 20.0) == 152;
    assert ToHex2(152) == "98";
    assert Round(63.0 * (1.0 - 20.0 / 100.0)) == 50;
    assert Darken(63, 20.0) == 50;
    assert ToHex2(50) == "32";
    assert EncodeColor(204, 152, 50) == "#cc9832";
    StrokeOf(fill, 255, 190, 63, 204, 152, 50);
  }

  lemma StrokeBlocked() ensures StrokeColor(Blocked) == "#cc4242" {
    var fill := "#ff5252";
    assert IsSixDigitCode(fill);
    assert HexValue('2') == 2 && HexValue('5') == 5 && HexValue('f') == 15;
    assert ByteAt(fill, 1) == 255;
    assert ByteAt(fill, 3) == 82;
    assert ByteAt(fill, 5) == 82;
    assert Round(255.0 * (1.0 - 20.0 / 100.0)) == 204;
    assert Darken(255, 20.0) == 204;
    assert ToHex2(204) == "cc";
    assert Round(82.0 * (1.0 - 20.0 / 100.0)) == 66;
    assert Darken(82, 20.0) == 66;
    assert ToHex2(66) == "42";
    assert EncodeColor(204, 66, 66) == "#cc4242";
    StrokeOf(fill, 255, 82, 82, 204, 66, 66);
  }

  lemma StrokeFinalCheck() ensures StrokeColor(FinalCheckAwaiting) == "#328bcc" {
    var fill := "#3faeff";
    assert IsSixDigitCode(fill);
    assert HexValue('3') == 3 && HexValue('a') == 10 && HexValue('e') == 14 && HexValue('f') == 15;
    assert ByteAt(fill, 1) == 63;
    assert ByteAt(fill, 3) == 174;
    assert ByteAt(fill, 5) == 255;
    assert Round(63.0 * (1.0 - 20.0 / 100.0)) == 50;
    assert Darken(63, 20.0) == 50;
    assert ToHex2(50) == "32";
    assert Round(174.0 * (1.0 - 20.0 / 100.0)) == 139;
    assert Darken(174, 20.0) == 139;
    assert ToHex2(139) == "8b";
    assert Round(255.0 * (1.0 - 20.0 / 100.0)) == 204;
    assert Darken(255, 20.0) == 204;
    assert ToHex2(204) == "cc";
    assert EncodeColor(50, 139, 204) == "#328bcc";
    StrokeOf(fill, 63, 174, 255, 50, 139, 204);
  }

  lemma StrokeDone() ensures StrokeColor(Done) == "#46b952" {
    var fill := "#58e766";
    assert IsSixDigitCode(fill);
    assert HexValue('5') == 5 && HexValue('6') == 6 && HexValue('7') == 7 && HexValue('8') == 8 && HexValue('e') == 14;
    assert ByteAt(fill, 1) == 88;
    assert ByteAt(fill, 3) == 231;
    assert ByteAt(fill, 5) == 102;
    assert Round(88.0 * (1.0 - 20.0 / 100.0)) == 70;
    assert Darken(88, 20.0) == 70;
    assert ToHex2(70) == "46";
    assert Round(231.0 * (1.0 - 20.0 / 100.0)) == 185;
    assert Darken(231, 20.0) == 185;
    assert ToHex2(185) == "b9";
    assert Round(102.0 * (1.0 - 20.0 / 100.0)) == 82;
    assert Darken(102, 20.0) == 82;
    assert ToHex2(82) == "52";
    assert EncodeColor(70, 185, 82) == "#46b952";
    StrokeOf(fill, 88, 231, 102, 70, 185, 82);
  }

  /** Darkening a fill by 20 percent, given its bytes and their darkened
      values. */
  lemma StrokeOf(fill: string, r: int, g: int, b: int, r': int, g': int, b': int)
    requires IsSixDigitCode(fill)
    requires ByteAt(fill, 1) == r && ByteAt(fill, 3) == g && ByteAt(fill, 5) == b
    requires 0 <= r' <= 255 && 0 <= g' <= 255 && 0 <= b' <= 255
    requires Darken(r, 20.0) == r' && Darken(g, 20.0) == g' && Darken(b, 20.0) == b'
    ensures DarkenColor(fill, 20.0) == EncodeColor(r', g', b')
  {
    CodeChannels(fill);
  }
}
