/**
 * The non-drawing helpers of the graphics layer: the "#rrggbb" colour
 * encoder and decoder, the normalisation of arc endpoints, the key-state
 * bookkeeping fed by the key events, and the selection of a pending click.
 */
module GraphicsUtils {
  import opened Options

  // ---------------------------------------------------------------
  // Colours
  // ---------------------------------------------------------------

  /** Python's int() on a float: truncation toward zero. */
  function Trunc(x: real): (n: int)
    ensures x >= 0.0 ==> n as real <= x < n as real + 1.0
    ensures x < 0.0 ==> n as real - 1.0 < x <= n as real
  {
    if x >= 0.0 then x.Floor else -((-x).Floor)
  }

  /** A lowercase hex digit, as format(n, 'x') writes them. */
  predicate IsLowerHex(c: char)
  {
    '0' <= c <= '9' || 'a' <= c <= 'f'
  }

  function HexDigit(d: int): (c: char)
    requires 0 <= d < 16
    ensures IsLowerHex(c)
  {
    if d < 10 then ('0' as int + d) as char else ('a' as int + d - 10) as char
  }

  /** The value of a hex digit of either case, or None for any other character. */
  function DigitValue(c: char): (d: Option<int>)
    ensures d.Some? ==> 0 <= d.value < 16
    ensures IsLowerHex(c) ==> d.Some? && HexDigit(d.value) == c
  {
    if '0' <= c <= '9' then Some(c as int - '0' as int)
    else if 'a' <= c <= 'f' then Some(c as int - 'a' as int + 10)
    else if 'A' <= c <= 'F' then Some(c as int - 'A' as int + 10)
    else None
  }

  lemma DigitValueOfHexDigit(d: int)
    requires 0 <= d < 16
    ensures DigitValue(HexDigit(d)) == Some(d)
  {
  }

  /** The shortest lowercase hex numeral of n (format(n, 'x')). */
  function Hex(n: nat): (s: string)
    ensures |s| >= 1 && forall i :: 0 <= i < |s| ==> IsLowerHex(s[i])
    ensures n < 16 ==> s == [HexDigit(n)]
    ensures n >= 16 ==> |s| >= 2
  {
    if n < 16 then [HexDigit(n)] else Hex(n / 16) + [HexDigit(n % 16)]
  }

  /** A byte as two lowercase hex digits. */
  function HexPair(n: int): (s: string)
    requires 0 <= n < 256
  {
    [HexDigit(n / 16), HexDigit(n % 16)]
  }

  /** The "{:02x}" format: at least two characters, zero-padded, with a leading '-' for negatives. */
  function Hex02(n: int): (s: string)
    ensures |s| >= 2
    ensures 0 <= n < 256 ==> s == HexPair(n)
  {
    if n < 0 then "-" + Hex(-n)
    else if n < 16 then "0" + Hex(n)
    else Hex(n)
  }

  /** The byte a colour component is encoded as: int(c * 255). */
  function Byte(c: real): int
  {
    Trunc(c * 255.0)
  }

  /** A component in [0, 1] gives a byte, the integer part of c * 255. */
  lemma ByteRange(c: real)
    requires 0.0 <= c <= 1.0
    ensures 0 <= Byte(c) < 256
    ensures Byte(c) as real <= c * 255.0 < Byte(c) as real + 1.0
  {
  }

  /** A Tk colour string "#rrggbb" in lowercase hex. */
  predicate IsColorString(s: string)
  {
    |s| == 7 && s[0] == '#' && forall i :: 1 <= i < 7 ==> IsLowerHex(s[i])
  }

  /** The "#rrggbb" encoding of three bytes. */
  function EncodeBytes(r: int, g: int, b: int): (s: string)
    requires 0 <= r < 256 && 0 <= g < 256 && 0 <= b < 256
    ensures IsColorString(s)
    ensures s[1..3] == HexPair(r) && s[3..5] == HexPair(g) && s[5..7] == HexPair(b)
  {
    "#" + HexPair(r) + HexPair(g) + HexPair(b)
  }

  /** formatColor: '#' and int(c * 255) of each component as two lowercase hex digits. */
  function FormatColor(r: real, g: real, b: real): (s: string)
    ensures |s| >= 7 && s[0] == '#'
    ensures 0.0 <= r <= 1.0 && 0.0 <= g <= 1.0 && 0.0 <= b <= 1.0 ==>
      0 <= Byte(r) < 256 && 0 <= Byte(g) < 256 && 0 <= Byte(b) < 256
      && s == EncodeBytes(Byte(r), Byte(g), Byte(b)) && IsColorString(s)
  {
    "#" + Hex02(Byte(r)) + Hex02(Byte(g)) + Hex02(Byte(b))
  }

  /** s[i:j] with Python's clamping of the bounds to the string. */
  function Slice(s: string, i: nat, j: nat): (t: string)
    ensures |t| <= j - i || j < i
  {
    var lo := if i <= |s| then i else |s|;
    var hi := if j <= |s| then j else |s|;
    if lo <= hi then s[lo..hi] else ""
  }

  /** The whitespace int() strips from both ends (the ASCII part of Python's set). */
  predicate IsSpace(c: char)
  {
    c == ' ' || c == '\t' || c == '\n' || c == '\r' || c == '\U{B}' || c == '\U{C}'
  }

  function DigitsValue(s: string): (v: Option<nat>)
    ensures v.Some? <==> |s| >= 1 && forall i :: 0 <= i < |s| ==> DigitValue(s[i]).Some?
    ensures v.Some? && |s| == 1 ==> v.value < 16
    ensures v.Some? && |s| == 2 ==> v.value < 256
  {
    if |s| == 0 then None
    else
      var d := DigitValue(s[|s| - 1]);
      if d.None? then None
      else if |s| == 1 then Some(d.value)
      else
        var hi := DigitsValue(s[..|s| - 1]);
        if hi.None? then None else Some(hi.value * 16 + d.value)
  }

  /**
   * int(s, 16) on a slice of at most two characters: surrounding whitespace
   * is stripped, then an optional sign and at least one hex digit must
   * remain; anything else raises ValueError (None). (Underscores and the
   * "0x" prefix need more than two characters.)
   */
  function ParseHex(s: string): (v: Option<int>)
    requires |s| <= 2
    ensures v.Some? ==> -15 <= v.value <= 255
    ensures |s| == 0 ==> v == None
  {
    var t := if |s| > 0 && IsSpace(s[0]) then s[1..] else s;
    var t := if |t| > 0 && IsSpace(t[|t| - 1]) then t[..|t| - 1] else t;
    if |t| > 0 && (t[0] == '+' || t[0] == '-') then
      var mag := DigitsValue(t[1..]);
      if mag.None? then None
      else if t[0] == '-' then Some(-(mag.value as int))
      else Some(mag.value)
    else
      var mag := DigitsValue(t);
      if mag.None? then None else Some(mag.value)
  }

  /**
   * What int(s, 16) returns on each input of at most two characters: one
   * hex digit; two digits; a sign and a digit; a digit with a space on
   * either side. Every other input raises ValueError.
   */
  lemma ParseHexCases(s: string)
    requires |s| <= 2
    ensures |s| == 1 ==> (ParseHex(s).Some? <==> DigitValue(s[0]).Some?)
    ensures |s| == 1 && ParseHex(s).Some? ==> ParseHex(s).value == DigitValue(s[0]).value
    ensures |s| == 2 && DigitValue(s[0]).Some? && DigitValue(s[1]).Some? ==>
      ParseHex(s) == Some(16 * DigitValue(s[0]).value + DigitValue(s[1]).value)
    ensures |s| == 2 && (s[0] == '+' || s[0] == '-') && DigitValue(s[1]).Some? ==>
      ParseHex(s) == Some(if s[0] == '-' then -DigitValue(s[1]).value else DigitValue(s[1]).value)
    ensures |s| == 2 && IsSpace(s[0]) && DigitValue(s[1]).Some? ==> ParseHex(s) == DigitValue(s[1])
    ensures |s| == 2 && DigitValue(s[0]).Some? && IsSpace(s[1]) ==> ParseHex(s) == DigitValue(s[0])
    ensures |s| == 2 && ParseHex(s).Some? ==>
      || (DigitValue(s[0]).Some? && DigitValue(s[1]).Some?)
      || ((s[0] == '+' || s[0] == '-' || IsSpace(s[0])) && DigitValue(s[1]).Some?)
      || (DigitValue(s[0]).Some? && IsSpace(s[1]))
  {
    if |s| == 2 {
      if DigitValue(s[0]).Some? && DigitValue(s[1]).Some? {
        ParseHexPair(s);
      }
      assert s[..1] == [s[0]] && s[1..] == [s[1]];
    }
  }

  /** colorToVector as written: each hex pair's value divided by 256; None when int() raises. */
  function ColorToVector(color: string): (v: Option<seq<real>>)
    ensures v.Some? ==> |v.value| == 3
    ensures v.Some? ==> forall i :: 0 <= i < 3 ==> -1.0 < v.value[i] < 1.0
  {
    var r := ParseHex(Slice(color, 1, 3));
    var g := ParseHex(Slice(color, 3, 5));
    var b := ParseHex(Slice(color, 5, 7));
    if r.None? || g.None? || b.None? then None
    else Some([r.value as real / 256.0, g.value as real / 256.0, b.value as real / 256.0])
  }

  /** Decoding with the divisor formatColor multiplies by. */
  function ColorToVectorBy255(color: string): (v: Option<seq<real>>)
    ensures v.Some? ==> |v.value| == 3
  {
    var r := ParseHex(Slice(color, 1, 3));
    var g := ParseHex(Slice(color, 3, 5));
    var b := ParseHex(Slice(color, 5, 7));
    if r.None? || g.None? || b.None? then None
    else Some([r.value as real / 255.0, g.value as real / 255.0, b.value as real / 255.0])
  }

  /** Two hex digits of either case parse to their value. */
  lemma ParseHexPair(s: string)
    requires |s| == 2 && DigitValue(s[0]).Some? && DigitValue(s[1]).Some?
    ensures ParseHex(s) == Some(DigitValue(s[0]).value * 16 + DigitValue(s[1]).value)
  {
    assert s[..1] == [s[0]];
    assert DigitsValue(s[..1]) == Some(DigitValue(s[0]).value);
  }

  lemma HexPairDecodes(n: int)
    requires 0 <= n < 256
    ensures ParseHex(HexPair(n)) == Some(n)
  {
    DigitValueOfHexDigit(n / 16);
    DigitValueOfHexDigit(n % 16);
    ParseHexPair(HexPair(n));
  }

  lemma SlicesOfEncoding(r: int, g: int, b: int)
    requires 0 <= r < 256 && 0 <= g < 256 && 0 <= b < 256
    ensures Slice(EncodeBytes(r, g, b), 1, 3) == HexPair(r)
    ensures Slice(EncodeBytes(r, g, b), 3, 5) == HexPair(g)
    ensures Slice(EncodeBytes(r, g, b), 5, 7) == HexPair(b)
  {
  }

  /** When the three pairs of s parse, colorToVector divides their values by 256. */
  lemma ParsedPairsBy256(s: string, r: int, g: int, b: int)
    requires ParseHex(Slice(s, 1, 3)) == Some(r)
    requires ParseHex(Slice(s, 3, 5)) == Some(g)
    requires ParseHex(Slice(s, 5, 7)) == Some(b)
    ensures ColorToVector(s) == Some([r as real / 256.0, g as real / 256.0, b as real / 256.0])
  {
  }

  /** When the three pairs of s parse, the corrected decoder divides their values by 255. */
  lemma ParsedPairsBy255(s: string, r: int, g: int, b: int)
    requires ParseHex(Slice(s, 1, 3)) == Some(r)
    requires ParseHex(Slice(s, 3, 5)) == Some(g)
    requires ParseHex(Slice(s, 5, 7)) == Some(b)
    ensures ColorToVectorBy255(s) == Some([r as real / 255.0, g as real / 255.0, b as real / 255.0])
  {
  }

  /** Encoding three bytes and decoding them gives back each byte, divided by 256 (or by 255). */
  lemma BytesRoundTrip(r: int, g: int, b: int)
    requires 0 <= r < 256 && 0 <= g < 256 && 0 <= b < 256
    ensures ColorToVector(EncodeBytes(r, g, b)) == Some([r as real / 256.0, g as real / 256.0, b as real / 256.0])
    ensures ColorToVectorBy255(EncodeBytes(r, g, b)) == Some([r as real / 255.0, g as real / 255.0, b as real / 255.0])
  {
    EncodingParses(r, g, b);
    ParsedPairsBy256(EncodeBytes(r, g, b), r, g, b);
    ParsedPairsBy255(EncodeBytes(r, g, b), r, g, b);
  }

  /** The three hex pairs of an encoding parse back to the three bytes. */
  lemma EncodingParses(r: int, g: int, b: int)
    requires 0 <= r < 256 && 0 <= g < 256 && 0 <= b < 256
    ensures ParseHex(Slice(EncodeBytes(r, g, b), 1, 3)) == Some(r)
    ensures ParseHex(Slice(EncodeBytes(r, g, b), 3, 5)) == Some(g)
    ensures ParseHex(Slice(EncodeBytes(r, g, b), 5, 7)) == Some(b)
  {
    SlicesOfEncoding(r, g, b);
    HexPairDecodes(r);
    HexPairDecodes(g);
    HexPairDecodes(b);
  }

  /** The byte written by the two hex digits at s[i] and s[i+1]. */
  function PairValue(s: string, i: nat): (n: int)
    requires i + 1 < |s| && IsLowerHex(s[i]) && IsLowerHex(s[i + 1])
    ensures 0 <= n < 256
  {
    DigitValue(s[i]).value * 16 + DigitValue(s[i + 1]).value
  }

  lemma PairIsHexPair(s: string, i: nat)
    requires i + 1 < |s| && IsLowerHex(s[i]) && IsLowerHex(s[i + 1])
    ensures s[i..i + 2] == HexPair(PairValue(s, i))
  {
    var n := PairValue(s, i);
    assert n / 16 == DigitValue(s[i]).value;
    assert n % 16 == DigitValue(s[i + 1]).value;
  }

  /** Every colour string is the encoding of the three bytes its hex pairs write. */
  lemma ColorStringIsEncoding(s: string)
    requires IsColorString(s)
    ensures s == EncodeBytes(PairValue(s, 1), PairValue(s, 3), PairValue(s, 5))
  {
    PairIsHexPair(s, 1);
    PairIsHexPair(s, 3);
    PairIsHexPair(s, 5);
    var e := EncodeBytes(PairValue(s, 1), PairValue(s, 3), PairValue(s, 5));
    assert s[1..3] == e[1..3] && s[3..5] == e[3..5] && s[5..7] == e[5..7];
    forall i | 0 <= i < 7 ensures s[i] == e[i] {
      if 1 <= i < 3 { assert s[i] == s[1..3][i - 1]; }
      else if 3 <= i < 5 { assert s[i] == s[3..5][i - 3]; }
      else if 5 <= i { assert s[i] == s[5..7][i - 5]; }
    }
  }

  /** Re-encoding a decoded byte: the /256 decoder loses one unit of every non-zero byte. */
  lemma ByteAfterDecode(n: int)
    requires 0 <= n < 256
    ensures Byte(n as real / 256.0) == if n == 0 then 0 else n - 1
    ensures Byte(n as real / 255.0) == n
  {
    var x := n as real / 256.0 * 255.0;
    assert x == n as real - n as real / 256.0;
    if n > 0 {
      assert (n - 1) as real <= x < n as real;
    }
    assert n as real / 255.0 * 255.0 == n as real;
  }

  /** One unit less, except for zero: what the /256 decoder and formatColor do to a byte. */
  function Darker(n: int): int
  {
    if n == 0 then 0 else n - 1
  }

  /** colorToVector as written decodes every colour string to its bytes divided by 256. */
  lemma DecodeAsWritten(s: string)
    requires IsColorString(s)
    ensures ColorToVector(s)
      == Some([PairValue(s, 1) as real / 256.0, PairValue(s, 3) as real / 256.0, PairValue(s, 5) as real / 256.0])
  {
    ColorStringIsEncoding(s);
    BytesRoundTrip(PairValue(s, 1), PairValue(s, 3), PairValue(s, 5));
  }

  /** As written, formatting decoded bytes gives every non-zero byte one unit darker. */
  lemma FormatBytesBy256(r: int, g: int, b: int)
    requires 0 <= r < 256 && 0 <= g < 256 && 0 <= b < 256
    ensures FormatColor(r as real / 256.0, g as real / 256.0, b as real / 256.0)
      == EncodeBytes(Darker(r), Darker(g), Darker(b))
  {
    ByteAfterDecode(r);
    ByteAfterDecode(g);
    ByteAfterDecode(b);
  }

  /** Decoding "#ffffff" as written and formatting the result gives "#fefefe". */
  lemma WhiteDarkensOnRoundTrip()
    ensures ColorToVector("#ffffff") == Some([255.0 / 256.0, 255.0 / 256.0, 255.0 / 256.0])
    ensures FormatColor(255.0 / 256.0, 255.0 / 256.0, 255.0 / 256.0) == "#fefefe"
  {
    assert EncodeBytes(255, 255, 255) == "#ffffff";
    BytesRoundTrip(255, 255, 255);
    ByteAfterDecode(255);
    assert Hex02(254) == "fe";
  }

  /** Formatting bytes divided by 255 writes those bytes. */
  lemma FormatBytesBy255(r: int, g: int, b: int)
    requires 0 <= r < 256 && 0 <= g < 256 && 0 <= b < 256
    ensures FormatColor(r as real / 255.0, g as real / 255.0, b as real / 255.0) == EncodeBytes(r, g, b)
  {
    ByteAfterDecode(r);
    ByteAfterDecode(g);
    ByteAfterDecode(b);
  }

  /** With the 255 divisor, formatting a decoded colour string gives the string back. */
  lemma DecodeEncodeBy255(s: string)
    requires IsColorString(s)
    ensures ColorToVectorBy255(s).Some?
    ensures var v := ColorToVectorBy255(s).value; FormatColor(v[0], v[1], v[2]) == s
  {
    ColorStringIsEncoding(s);
    RoundTripOfBytes(PairValue(s, 1), PairValue(s, 3), PairValue(s, 5));
  }

  /** Decoding three bytes' encoding by 255 and formatting the components gives the encoding back. */
  lemma RoundTripOfBytes(r: int, g: int, b: int)
    requires 0 <= r < 256 && 0 <= g < 256 && 0 <= b < 256
    ensures ColorToVectorBy255(EncodeBytes(r, g, b)).Some?
    ensures var v := ColorToVectorBy255(EncodeBytes(r, g, b)).value; FormatColor(v[0], v[1], v[2]) == EncodeBytes(r, g, b)
  {
    BytesRoundTrip(r, g, b);
    FormatDecoded(r, g, b, ColorToVectorBy255(EncodeBytes(r, g, b)));
  }

  /** The components r/255, g/255, b/255, read out of their decoded vector, format to the encoding of r, g, b. */
  lemma FormatDecoded(r: int, g: int, b: int, o: Option<seq<real>>)
    requires 0 <= r < 256 && 0 <= g < 256 && 0 <= b < 256
    requires o == Some([r as real / 255.0, g as real / 255.0, b as real / 255.0])
    ensures o.Some? && FormatColor(o.value[0], o.value[1], o.value[2]) == EncodeBytes(r, g, b)
  {
    BytesOfDecoded(r, g, b, o.value);
  }

  /** Each component of the decoded vector re-encodes to its byte. */
  lemma BytesOfDecoded(r: int, g: int, b: int, v: seq<real>)
    requires 0 <= r < 256 && 0 <= g < 256 && 0 <= b < 256
    requires v == [r as real / 255.0, g as real / 255.0, b as real / 255.0]
    ensures Byte(v[0]) == r && Byte(v[1]) == g && Byte(v[2]) == b
  {
    ByteAfterDecode(r);
    ByteAfterDecode(g);
    ByteAfterDecode(b);
  }

  lemma FormatPairsBy255(s: string)
    requires IsColorString(s)
    ensures FormatColor(PairValue(s, 1) as real / 255.0, PairValue(s, 3) as real / 255.0,
                        PairValue(s, 5) as real / 255.0) == s
  {
    FormatBytesBy255(PairValue(s, 1), PairValue(s, 3), PairValue(s, 5));
    ColorStringIsEncoding(s);
  }

  lemma DecodeBy255(s: string)
    requires IsColorString(s)
    ensures ColorToVectorBy255(s)
      == Some([PairValue(s, 1) as real / 255.0, PairValue(s, 3) as real / 255.0, PairValue(s, 5) as real / 255.0])
  {
    ColorStringIsEncoding(s);
    BytesRoundTrip(PairValue(s, 1), PairValue(s, 3), PairValue(s, 5));
  }

  // ---------------------------------------------------------------
  // Arc endpoints (circle / moveCircle)
  // ---------------------------------------------------------------

  /**
   * The endpoint normalisation of circle and moveCircle: without endpoints
   * the arc is 0 to 359; otherwise end is raised by 360 until it is no
   * longer below start. `turns` counts the additions.
   */
  method NormalizeEndpoints(endpoints: Option<(real, real)>) returns (start: real, end: real, ghost turns: nat)
    ensures endpoints.None? ==> start == 0.0 && end == 359.0
    ensures endpoints.Some? ==> (start == endpoints.value.0
                                 && end == endpoints.value.1 + 360.0 * turns as real)
    ensures start <= end
    ensures endpoints.Some? && endpoints.value.0 > endpoints.value.1 ==> end - start < 360.0
    ensures endpoints.Some? && endpoints.value.0 <= endpoints.value.1 ==> turns == 0
  {
    turns := 0;
    if endpoints.None? {
      start, end := 0.0, 359.0;
    } else {
      start, end := endpoints.value.0, endpoints.value.1;
      while start > end
        invariant end == endpoints.value.1 + 360.0 * turns as real
        invariant turns > 0 ==> end - start < 360.0
        decreases (start - end).Floor
      {
        end := end + 360.0;
        turns := turns + 1;
      }
    }
  }

  // ---------------------------------------------------------------
  // Key state (_keysdown, _keyswaiting, _got_release)
  // ---------------------------------------------------------------

  predicate Distinct(s: seq<string>)
  {
    forall i, j :: 0 <= i < j < |s| ==> s[i] != s[j]
  }

  /** d[k] = 1 on a dict used as an ordered set: a new key goes last, an old one keeps its place. */
  function AddKey(s: seq<string>, k: string): (r: seq<string>)
    ensures forall x :: x in r <==> x in s || x == k
    ensures Distinct(s) ==> Distinct(r)
    ensures k in s ==> r == s
  {
    if k in s then s else s + [k]
  }

  /** d.pop(k, None): the key leaves, the others keep their order. */
  function RemoveKey(s: seq<string>, k: string): (r: seq<string>)
    ensures forall x :: x in r <==> x in s && x != k
    ensures Distinct(s) ==> Distinct(r)
    ensures k !in s ==> r == s
  {
    if s == [] then []
    else
      var rest := RemoveKey(s[1..], k);
      if s[0] == k then rest
      else
        assert Distinct(s) ==> s[0] !in s[1..];
        [s[0]] + rest
  }

  class KeyState {
    /** The keys held down, in the order they were pressed. */
    var keysDown: seq<string>
    /** The keys pressed since keys_waiting last ran. */
    var keysWaiting: seq<string>
    /** _got_release: true after a release, false (None) after a press or a clear. */
    var gotRelease: bool

    ghost predicate Valid()
      reads this
    {
      Distinct(keysDown) && Distinct(keysWaiting)
    }

    constructor ()
      ensures Valid() && keysDown == [] && keysWaiting == [] && !gotRelease
    {
      keysDown := [];
      keysWaiting := [];
      gotRelease := false;
    }

    /** _keypress: the key is held and waiting, and the release flag is cleared. */
    method KeyPress(k: string)
      requires Valid()
      modifies this
      ensures Valid()
      ensures keysDown == AddKey(old(keysDown), k) && keysWaiting == AddKey(old(keysWaiting), k)
      ensures !gotRelease
    {
      keysDown := AddKey(keysDown, k);
      keysWaiting := AddKey(keysWaiting, k);
      gotRelease := false;
    }

    /** _keyrelease: the key is no longer held, still waiting if it was, and the flag is set. */
    method KeyRelease(k: string)
      requires Valid()
      modifies this
      ensures Valid()
      ensures keysDown == RemoveKey(old(keysDown), k) && keysWaiting == old(keysWaiting)
      ensures gotRelease
    {
      keysDown := RemoveKey(keysDown, k);
      gotRelease := true;
    }

    /** _clear_keys: both sets emptied, flag cleared. */
    method ClearKeys()
      modifies this
      ensures Valid() && keysDown == [] && keysWaiting == [] && !gotRelease
    {
      keysDown := [];
      keysWaiting := [];
      gotRelease := false;
    }

    /** keys_waiting: returns the waiting keys and empties the waiting set. */
    method KeysWaiting() returns (keys: seq<string>)
      requires Valid()
      modifies this`keysWaiting
      ensures Valid() && keys == old(keysWaiting) && keysWaiting == []
    {
      keys := keysWaiting;
      keysWaiting := [];
    }

    /** keys_pressed: the held keys (the Tk event pumping is not modelled). */
    method KeysPressed() returns (keys: seq<string>)
      ensures keys == keysDown
    {
      keys := keysDown;
    }
  }

  /** A key pressed and released before the next poll is still reported by keys_waiting. */
  lemma TapStillWaiting(down: seq<string>, waiting: seq<string>, k: string)
    ensures k in AddKey(waiting, k)
    ensures k !in RemoveKey(AddKey(down, k), k)
    ensures forall x :: x != k ==> (x in RemoveKey(AddKey(down, k), k) <==> x in down)
  {
  }

  // ---------------------------------------------------------------
  // Clicks
  // ---------------------------------------------------------------

  datatype Button = Left | Right | CtrlLeft

  type Location = (int, int)

  class ClickState {
    var leftClick: Option<Location>
    var rightClick: Option<Location>
    var ctrlLeftClick: Option<Location>

    constructor ()
      ensures leftClick == None && rightClick == None && ctrlLeftClick == None
    {
      leftClick, rightClick, ctrlLeftClick := None, None, None;
    }

    method LeftClick(loc: Location)
      modifies this`leftClick
      ensures leftClick == Some(loc)
    {
      leftClick := Some(loc);
    }

    method RightClick(loc: Location)
      modifies this`rightClick
      ensures rightClick == Some(loc)
    {
      rightClick := Some(loc);
    }

    method CtrlLeftClick(loc: Location)
      modifies this`ctrlLeftClick
      ensures ctrlLeftClick == Some(loc)
    {
      ctrlLeftClick := Some(loc);
    }

    /**
     * One pass of wait_for_click's loop: the left click wins over the right
     * one, which wins over the ctrl-left one, and only the returned slot is
     * cleared. None means no click is pending (the loop would sleep and
     * poll again).
     */
    method PollClick() returns (r: Option<(Location, Button)>)
      modifies this
      ensures old(leftClick).Some? ==>
        (r == Some((old(leftClick).value, Left))
         && leftClick == None && rightClick == old(rightClick) && ctrlLeftClick == old(ctrlLeftClick))
      ensures old(leftClick).None? && old(rightClick).Some? ==>
        (r == Some((old(rightClick).value, Right))
         && leftClick == None && rightClick == None && ctrlLeftClick == old(ctrlLeftClick))
      ensures old(leftClick).None? && old(rightClick).None? && old(ctrlLeftClick).Some? ==>
        (r == Some((old(ctrlLeftClick).value, CtrlLeft))
         && leftClick == None && rightClick == None && ctrlLeftClick == None)
      ensures old(leftClick).None? && old(rightClick).None? && old(ctrlLeftClick).None? ==>
        (r == None && leftClick == None && rightClick == None && ctrlLeftClick == None)
    {
      if leftClick.Some? {
        var loc := leftClick.value;
        leftClick := None;
        return Some((loc, Left));
      }
      if rightClick.Some? {
        var loc := rightClick.value;
        rightClick := None;
        return Some((loc, Right));
      }
      if ctrlLeftClick.Some? {
        var loc := ctrlLeftClick.value;
        ctrlLeftClick := None;
        return Some((loc, CtrlLeft));
      }
      r := None;
    }
  }
}
