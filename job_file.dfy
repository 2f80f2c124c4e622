/** Helpers of the Gerber job-file writer
    (GERBER_JOBFILE_WRITER in pcbnew/exporters/gerber_jobfile_writer.cpp):
    the escaping of file names into JSON text, the side flags of the
    silk-screen and solder-mask layers, the trailing-separator removal of
    the JSON buffer, and the layer to FileFunction/FilePolarity mapping. */
module JobFile {
  import opened Wrappers
  import opened Layers

  // ---------------------------------------------------------------
  // Hexadecimal and decimal text
  // ---------------------------------------------------------------

  function HexChar(d: nat): char
    requires d < 16
  {
    "0123456789ABCDEF"[d]
  }

  /** A hexadecimal digit as a JSON reader accepts it, in either case. */
  predicate IsHexChar(c: char) { '0' <= c <= '9' || 'A' <= c <= 'F' || 'a' <= c <= 'f' }

  function HexCharValue(c: char): (d: nat)
    requires IsHexChar(c)
    ensures d < 16
  {
    if c <= '9' then (c as int) - ('0' as int)
    else if c <= 'F' then (c as int) - ('A' as int) + 10
    else (c as int) - ('a' as int) + 10
  }

  lemma HexCharRoundTrip(d: nat)
    requires d < 16
    ensures IsHexChar(HexChar(d)) && HexCharValue(HexChar(d)) == d
  {
  }

  /** printf's "%w.wlX": v in upper-case hexadecimal, zero-padded to at
      least w digits. */
  function HexDigits(v: nat, w: nat): (r: string)
    ensures forall i :: 0 <= i < |r| ==> IsHexChar(r[i])
    decreases v + w
  {
    if v == 0 && w == 0 then ""
    else
      HexCharRoundTrip(v % 16);
      HexDigits(v / 16, if w > 0 then w - 1 else 0) + [HexChar(v % 16)]
  }

  /** The value of a string of hexadecimal digits. */
  function HexValue(s: string): nat
    requires forall i :: 0 <= i < |s| ==> IsHexChar(s[i])
  {
    if s == [] then 0 else 16 * HexValue(s[..|s| - 1]) + HexCharValue(s[|s| - 1])
  }

  function Pow16(n: nat): (p: nat)
    ensures p >= 1
  {
    if n == 0 then 1 else 16 * Pow16(n - 1)
  }

  /** The digits read back as v; there are at least w of them, and exactly
      w when v is below 16^w. */
  lemma {:induction false} HexDigitsRoundTrip(v: nat, w: nat)
    ensures HexValue(HexDigits(v, w)) == v
    ensures |HexDigits(v, w)| >= w
    ensures v < Pow16(w) ==> |HexDigits(v, w)| == w
    decreases v + w
  {
    if !(v == 0 && w == 0) {
      var w1 := if w > 0 then w - 1 else 0;
      HexDigitsRoundTrip(v / 16, w1);
      HexCharRoundTrip(v % 16);
      var r := HexDigits(v, w);
      assert r[..|r| - 1] == HexDigits(v / 16, w1);
      if v < Pow16(w) && w > 0 {
        assert v / 16 < Pow16(w1);
      }
    }
  }

  /** Decimal text of a natural number. */
  function NatString(n: nat): (r: string)
    ensures |r| >= 1 && forall i :: 0 <= i < |r| ==> '0' <= r[i] <= '9'
  {
    if n < 10 then ["0123456789"[n]] else NatString(n / 10) + ["0123456789"[n % 10]]
  }

  /** `wxString << int`: decimal text with a leading '-' when negative. */
  function IntString(i: int): string {
    if i < 0 then "-" + NatString(-i) else NatString(i)
  }

  // ---------------------------------------------------------------
  // JSON string text
  // ---------------------------------------------------------------

  /** A Unicode scalar value: a code point that is not a surrogate. */
  predicate IsScalar(c: nat) { c < 0x11_0000 && !(0xD800 <= c < 0xE000) }

  predicate AllHex(s: string) { forall i :: 0 <= i < |s| ==> IsHexChar(s[i]) }

  function Prepend(c: nat, rest: Option<seq<nat>>): Option<seq<nat>> {
    if rest.Some? then Some([c] + rest.value) else None
  }

  /** The code point a two-character escape of section 7 of RFC 8259
      stands for (\" \\ \/ \b \f \n \r \t), 0 for any other. */
  function ShortEscape(c: char): nat {
    match c
    case '"' => 0x22
    case '\\' => 0x5C
    case '/' => 0x2F
    case 'b' => 0x08
    case 'f' => 0x0C
    case 'n' => 0x0A
    case 'r' => 0x0D
    case 't' => 0x09
    case _ => 0
  }

  /** The 16-bit value of a \u escape at the start of the text, if the
      text starts with one. */
  function UnitAt(s: string): Option<nat> {
    if |s| >= 6 && s[0] == '\\' && s[1] == 'u' && AllHex(s[2..6]) then Some(HexValue(s[2..6])) else None
  }

  predicate IsHighSurrogate(u: nat) { 0xD800 <= u < 0xDC00 }

  predicate IsLowSurrogate(u: nat) { 0xDC00 <= u < 0xE000 }

  /** The code point a high and a low surrogate stand for together. */
  function Combine(hi: nat, lo: nat): nat
    requires IsHighSurrogate(hi) && IsLowSurrogate(lo)
  {
    0x1_0000 + (hi - 0xD800) * 0x400 + (lo - 0xDC00)
  }

  /** Reference reading of the characters between the quotes of a JSON
      string (section 7 of RFC 8259): unescaped characters stand for
      themselves, except that a quote or a control character is not
      allowed; a backslash starts an escape, and a \u escape of a high
      surrogate followed by one of a low surrogate is one code point.
      None when the text is not a valid string body. */
  function DecodeJson(s: string): Option<seq<nat>>
    decreases |s|
  {
    if s == [] then Some([])
    else if UnitAt(s).Some? then
      var u := UnitAt(s).value;
      var next := UnitAt(s[6..]);
      if IsHighSurrogate(u) && next.Some? && IsLowSurrogate(next.value)
      then Prepend(Combine(u, next.value), DecodeJson(s[12..]))
      else Prepend(u, DecodeJson(s[6..]))
    else if s[0] == '\\' then
      if |s| >= 2 && ShortEscape(s[1]) != 0 then Prepend(ShortEscape(s[1]), DecodeJson(s[2..]))
      else None
    else if s[0] == '"' || (s[0] as int) < 0x20 then None
    else Prepend(s[0] as nat, DecodeJson(s[1..]))
  }

  /** A reader takes lower-case hexadecimal digits in a \u escape too. */
  lemma LowerCaseEscapeReads()
    ensures DecodeJson("\\u00e9") == Some([0xE9])
  {
    var s := "\\u00e9";
    assert s[2..6] == "00e9";
    assert HexValue("00e9") == 0xE9 by {
      assert "00e9"[..3] == "00e" && "00e"[..2] == "00" && "00"[..1] == "0" && "0"[..0] == "";
      assert HexValue("00e") == 0xE;
    }
    assert UnitAt(s) == Some(0xE9);
    assert s[6..] == [];
    assert DecodeJson(s) == Prepend(0xE9, DecodeJson(s[6..]));
    assert [0xE9] + [] == [0xE9];
  }

  /** One letter as formatStringFromUTF32 writes it: a code point from
      0x20 to 0x7F as that character, any other as \u and at least four
      upper-case hexadecimal digits. */
  function LetterAsWritten(c: nat): string {
    if 0x20 <= c <= 0x7F then [c as char] else "\\u" + HexDigits(c, 4)
  }

  /** formatStringFromUTF32 as the source writes it. */
  function FormatAsWritten(text: seq<nat>): string
    decreases |text|
  {
    if text == [] then "" else LetterAsWritten(text[0]) + FormatAsWritten(text[1..])
  }

  /** The output is ASCII text, a letter from 0x20 to 0x7F is copied as
      one character, and any other letter of a name becomes \u and at
      least four hexadecimal digits whose value is the letter. */
  lemma {:induction false} FormatAsWrittenShape(text: seq<nat>)
    ensures forall i :: 0 <= i < |FormatAsWritten(text)| ==> (FormatAsWritten(text)[i] as int) < 0x80
    ensures forall c: nat :: 0x20 <= c <= 0x7F ==> LetterAsWritten(c) == [c as char]
    ensures forall c: nat :: !(0x20 <= c <= 0x7F) ==>
      var l := LetterAsWritten(c);
      |l| >= 6 && l[..2] == "\\u" && AllHex(l[2..]) && HexValue(l[2..]) == c
    decreases |text|
  {
    forall c: nat | !(0x20 <= c <= 0x7F)
      ensures var l := LetterAsWritten(c);
        |l| >= 6 && l[..2] == "\\u" && AllHex(l[2..]) && HexValue(l[2..]) == c
    {
      HexDigitsRoundTrip(c, 4);
      assert LetterAsWritten(c)[2..] == HexDigits(c, 4);
    }
    if text != [] {
      FormatAsWrittenShape(text[1..]);
      var c := text[0];
      var l := LetterAsWritten(c);
      forall i | 0 <= i < |l| ensures (l[i] as int) < 0x80 {
        if !(0x20 <= c <= 0x7F) && i >= 2 {
          assert l[i] == HexDigits(c, 4)[i - 2];
        }
      }
    }
  }

  /** The name is not JSON compatible as written: a quote in a file name
      is copied as it is and ends the JSON string early. */
  lemma FormatAsWrittenQuote()
    ensures FormatAsWritten([0x22]) == "\""
    ensures DecodeJson(FormatAsWritten([0x22])) == None
  {
    assert [0x22][1..] == [];
  }

  /** A letter above U+FFFF gets five hexadecimal digits. */
  lemma FormatAsWrittenAstralText()
    ensures FormatAsWritten([0x1F600]) == "\\u1F600"
  {
    assert [0x1F600][1..] == [];
    assert HexChar(1) == '1' && HexChar(15) == 'F' && HexChar(6) == '6' && HexChar(0) == '0';
    HexDigitsStep(0x1, 0, 0, 1);
    HexDigitsStep(0x1F, 1, 0x1, 15);
    HexDigitsStep(0x1F6, 2, 0x1F, 6);
    HexDigitsStep(0x1F60, 3, 0x1F6, 0);
    HexDigitsStep(0x1F600, 4, 0x1F60, 0);
  }

  /** One step of HexDigits for v == 16 * q + r: the digits of q, then
      the digit r. */
  lemma HexDigitsStep(v: nat, w: nat, q: nat, r: nat)
    requires v == 16 * q + r && r < 16 && (v != 0 || w != 0)
    ensures HexDigits(v, w) == HexDigits(q, if w > 0 then w - 1 else 0) + [HexChar(r)]
  {
  }

  /** JSON reads four digits of a \u escape: U+1F600 as written reads
      back as U+1F60 followed by '0'. */
  lemma FormatAsWrittenAstral()
    ensures DecodeJson(FormatAsWritten([0x1F600])) == Some([0x1F60, 0x30])
  {
    FormatAsWrittenAstralText();
    var s := "\\u1F600";
    assert s[2..6] == "1F60";
    assert HexValue("1F60") == 0x1F60 by {
      assert "1F60"[..3] == "1F6" && "1F6"[..2] == "1F" && "1F"[..1] == "1" && "1"[..0] == "";
      assert HexValue("1") == 1;
      assert HexValue("1F") == 0x1F;
      assert HexValue("1F6") == 0x1F6;
    }
    assert UnitAt(s) == Some(0x1F60);
    assert s[6..] == "0";
    assert "0"[1..] == [];
    assert ['0' as nat] + [] == [0x30];
    assert DecodeJson("0") == Some([0x30]);
    assert [0x1F60] + [0x30] == [0x1F60, 0x30];
  }

  /** The escaping the writer intends: like the source, except that the
      quote and the backslash are escaped too and a letter above U+FFFF
      becomes a pair of \u escapes of its UTF-16 surrogates. */
  function JsonLetter(c: nat): string {
    if 0x20 <= c <= 0x7F && c != 0x22 && c != 0x5C then [c as char]
    else if c < 0x1_0000 then "\\u" + HexDigits(c, 4)
    else "\\u" + HexDigits(HighSurrogate(c), 4) + "\\u" + HexDigits(LowSurrogate(c), 4)
  }

  /** The UTF-16 high surrogate of a letter above U+FFFF. */
  function HighSurrogate(c: nat): nat
    requires c >= 0x1_0000
  {
    0xD800 + (c - 0x1_0000) / 0x400
  }

  /** The UTF-16 low surrogate of a letter above U+FFFF. */
  function LowSurrogate(c: nat): nat
    requires c >= 0x1_0000
  {
    0xDC00 + (c - 0x1_0000) % 0x400
  }

  /** The intended formatStringFromUTF32. */
  function JsonEscaped(text: seq<nat>): string
    decreases |text|
  {
    if text == [] then "" else JsonLetter(text[0]) + JsonEscaped(text[1..])
  }

  /** A \u escape of a 16-bit value v reads back as v. */
  lemma EscapeReads(v: nat, t: string)
    requires v < 0x1_0000
    ensures var s := "\\u" + HexDigits(v, 4) + t;
      |s| >= 6 && UnitAt(s) == Some(v) && s[6..] == t
  {
    HexDigitsRoundTrip(v, 4);
    var s := "\\u" + HexDigits(v, 4) + t;
    assert s[2..6] == HexDigits(v, 4);
    assert s[6..] == t;
  }

  /** Decoding one escaped letter followed by more text gives the letter
      followed by the decoding of that text. */
  lemma JsonLetterReads(c: nat, t: string)
    requires IsScalar(c)
    ensures DecodeJson(JsonLetter(c) + t) == Prepend(c, DecodeJson(t))
  {
    if 0x20 <= c <= 0x7F && c != 0x22 && c != 0x5C {
      var s := JsonLetter(c) + t;
      assert s[0] == c as char && s[1..] == t;
      assert UnitAt(s).None?;
    } else if c < 0x1_0000 {
      EscapeReads(c, t);
      var s := JsonLetter(c) + t;
      assert !IsHighSurrogate(c);
    } else {
      SurrogatesRead(c, t);
    }
  }

  /** The UTF-16 surrogates of a letter above U+FFFF, and how a reader
      puts them back together. */
  lemma SurrogateArithmetic(c: nat)
    requires IsScalar(c) && c >= 0x1_0000
    ensures IsHighSurrogate(HighSurrogate(c)) && IsLowSurrogate(LowSurrogate(c))
    ensures Combine(HighSurrogate(c), LowSurrogate(c)) == c
  {
  }

  /** Text that starts with the \u escapes of a high and a low surrogate
      reads as their combined code point, then the rest. */
  lemma PairDecodes(s: string, hi: nat, lo: nat)
    requires |s| >= 12 && UnitAt(s) == Some(hi) && UnitAt(s[6..]) == Some(lo)
    requires IsHighSurrogate(hi) && IsLowSurrogate(lo)
    ensures DecodeJson(s) == Prepend(Combine(hi, lo), DecodeJson(s[12..]))
  {
    assert s[6..][6..] == s[12..];
  }

  /** The \u escapes of a high and a low surrogate read back as the code
      point they combine to. */
  lemma PairEscapesRead(hi: nat, lo: nat, t: string)
    requires IsHighSurrogate(hi) && IsLowSurrogate(lo)
    ensures DecodeJson("\\u" + HexDigits(hi, 4) + "\\u" + HexDigits(lo, 4) + t) == Prepend(Combine(hi, lo), DecodeJson(t))
  {
    var rest := "\\u" + HexDigits(lo, 4) + t;
    var s := "\\u" + HexDigits(hi, 4) + rest;
    assert s == "\\u" + HexDigits(hi, 4) + "\\u" + HexDigits(lo, 4) + t;
    EscapeReads(hi, rest);
    EscapeReads(lo, t);
    assert s[12..] == t by {
      assert s[12..] == s[6..][6..];
    }
    PairDecodes(s, hi, lo);
  }

  /** The surrogate pair of a letter above U+FFFF reads back as it. */
  lemma SurrogatesRead(c: nat, t: string)
    requires IsScalar(c) && c >= 0x1_0000
    ensures DecodeJson(JsonLetter(c) + t) == Prepend(c, DecodeJson(t))
  {
    SurrogateArithmetic(c);
    PairEscapesRead(HighSurrogate(c), LowSurrogate(c), t);
  }

  /** Reading the escaped name back as a JSON string gives the name, for
      every name made of Unicode scalar values. */
  lemma {:induction false} JsonEscapedRoundTrip(text: seq<nat>)
    requires forall i :: 0 <= i < |text| ==> IsScalar(text[i])
    ensures DecodeJson(JsonEscaped(text)) == Some(text)
    decreases |text|
  {
    if text != [] {
      var tail := JsonEscaped(text[1..]);
      JsonEscapedRoundTrip(text[1..]);
      JsonLetterReads(text[0], tail);
      assert JsonEscaped(text) == JsonLetter(text[0]) + tail;
      assert Prepend(text[0], Some(text[1..])) == Some(text) by {
        assert [text[0]] + text[1..] == text;
      }
    }
  }

  /** formatStringFromUTF32: the loop over the letters of the name,
      appending the text of each as the source writes it. */
  method FormatStringFromUTF32(text: seq<nat>) returns (fmt: string)
    ensures fmt == FormatAsWritten(text)
  {
    var i := |text|;
    var tail := "";
    while i > 0
      invariant 0 <= i <= |text|
      invariant tail == FormatAsWritten(text[i..])
    {
      i := i - 1;
      assert text[i..][1..] == text[i + 1..];
      tail := LetterAsWritten(text[i]) + tail;
    }
    assert text[0..] == text;
    fmt := tail;
  }

  /** The escaping the writer intends, letter by letter: the same loop
      with the quote, the backslash and letters above U+FFFF escaped so
      that a JSON reader gets the name back. */
  method FormatJsonString(text: seq<nat>) returns (fmt: string)
    ensures fmt == JsonEscaped(text)
  {
    var i := |text|;
    var tail := "";
    while i > 0
      invariant 0 <= i <= |text|
      invariant tail == JsonEscaped(text[i..])
    {
      i := i - 1;
      assert text[i..][1..] == text[i + 1..];
      tail := JsonLetter(text[i]) + tail;
    }
    assert text[0..] == text;
    fmt := tail;
  }

  // ---------------------------------------------------------------
  // Sides
  // ---------------------------------------------------------------

  /** ONSIDE: no side, top only, bottom only, both. */
  const SideNone: int := 0
  const SideTop: int := 1
  const SideBottom: int := 2
  const SideBoth: int := 3

  /** `flag | bit` on the small ONSIDE values. */
  function OrBits(flag: int, bit: int): (r: int)
    requires 0 <= flag < 4 && 0 <= bit < 4
    ensures 0 <= r < 4
  {
    ((flag as bv2) | (bit as bv2)) as int
  }

  /** The side flag a set of layers gives for one bottom and one top layer. */
  function SidesOf(layers: seq<int>, bottom: int, top: int): (flag: int)
    ensures 0 <= flag < 4
  {
    (if bottom in layers then SideBottom else SideNone) + (if top in layers then SideTop else SideNone)
  }

  /** The loop shared by hasSilkLayers and hasSolderMasks. */
  method SideFlags(layers: seq<int>, bottom: int, top: int) returns (flag: int)
    requires bottom != top
    ensures flag == SidesOf(layers, bottom, top)
  {
    flag := SideNone;
    var ii := 0;
    while ii < |layers|
      invariant 0 <= ii <= |layers|
      invariant flag == SidesOf(layers[..ii], bottom, top)
    {
      assert layers[..ii + 1] == layers[..ii] + [layers[ii]];
      if layers[ii] == bottom {
        flag := OrBits(flag, SideBottom);
      }
      if layers[ii] == top {
        flag := OrBits(flag, SideTop);
      }
      ii := ii + 1;
    }
    assert layers[..ii] == layers;
  }

  /** hasSilkLayers: bottom when B_SilkS is plotted, top when F_SilkS is. */
  method HasSilkLayers(layers: seq<int>) returns (flag: int)
    ensures flag == SidesOf(layers, B_SilkS, F_SilkS)
  {
    flag := SideFlags(layers, B_SilkS, F_SilkS);
  }

  /** hasSolderMasks: bottom when B_Mask is plotted, top when F_Mask is. */
  method HasSolderMasks(layers: seq<int>) returns (flag: int)
    ensures flag == SidesOf(layers, B_Mask, F_Mask)
  {
    flag := SideFlags(layers, B_Mask, F_Mask);
  }

  /** sideKeyValue: the job-file word for a side value, None (a null
      pointer) for a value outside the enumeration. */
  function SideKeyValue(v: int): (r: Option<string>)
    ensures r.Some? <==> 0 <= v < 4
    ensures v == SideNone ==> r == Some("No")
    ensures v == SideTop ==> r == Some("TopOnly")
    ensures v == SideBottom ==> r == Some("BotOnly")
    ensures v == SideBoth ==> r == Some("Both")
  {
    if v == SideNone then Some("No")
    else if v == SideTop then Some("TopOnly")
    else if v == SideBottom then Some("BotOnly")
    else if v == SideBoth then Some("Both")
    else None
  }

  /** The side words of the layers a job lists are never null, and say
      "Both" exactly when both layers of the pair are plotted. */
  lemma SideKeyOfLayers(layers: seq<int>, bottom: int, top: int)
    requires bottom != top
    ensures SideKeyValue(SidesOf(layers, bottom, top)).Some?
    ensures SideKeyValue(SidesOf(layers, bottom, top)) == Some("Both") <==> bottom in layers && top in layers
    ensures SideKeyValue(SidesOf(layers, bottom, top)) == Some("No") <==> bottom !in layers && top !in layers
  {
  }

  // ---------------------------------------------------------------
  // The JSON buffer
  // ---------------------------------------------------------------

  /** The text ends with the given characters. */
  predicate EndsIn(s: string, t: string) { |t| <= |s| && s[|s| - |t|..] == t }

  /** The buffer after removeJSONSepararator: a trailing ',' goes, a
      trailing ",\n" becomes "\n", and anything else stays. */
  function WithoutSeparator(buffer: string): (r: string)
    requires |buffer| > 0 && buffer != "\n"
    ensures EndsIn(buffer, ",") ==> r == buffer[..|buffer| - 1]
    ensures EndsIn(buffer, ",\n") ==> r == buffer[..|buffer| - 2] + "\n"
    ensures !EndsIn(buffer, ",") && !EndsIn(buffer, ",\n") ==> r == buffer
  {
    var n := |buffer|;
    if buffer[n - 1] == ',' then buffer[..n - 1]
    else if buffer[n - 1] == '\n' then
      var b := buffer[..n - 1];
      assert |b| > 0;
      assert EndsIn(buffer, ",\n") <==> b[|b| - 1] == ',';
      (if b[|b| - 1] == ',' then b[..|b| - 1] else b) + "\n"
    else buffer
  }

  /** The JSON text of a job file being written. */
  class JobFileWriter {
    var jsonBuffer: string

    constructor ()
      ensures jsonBuffer == ""
    {
      jsonBuffer := "";
    }

    /** removeJSONSepararator. wxString::Last() needs a non-empty string,
        and it is called again after a final '\n' is removed. */
    method RemoveJSONSeparator()
      requires |jsonBuffer| > 0 && jsonBuffer != "\n"
      modifies this
      ensures jsonBuffer == WithoutSeparator(old(jsonBuffer))
    {
      var n := |jsonBuffer|;
      if jsonBuffer[n - 1] == ',' {
        jsonBuffer := jsonBuffer[..n - 1];
        return;
      }
      if jsonBuffer[n - 1] == '\n' {
        jsonBuffer := jsonBuffer[..n - 1];
        if jsonBuffer[|jsonBuffer| - 1] == ',' {
          jsonBuffer := jsonBuffer[..|jsonBuffer| - 1];
        }
        jsonBuffer := jsonBuffer + "\n";
      }
    }
  }

  /** Removing the separator after an item leaves the item: the ',' and
      ",\n" separators written after the last entry of a list vanish. */
  lemma WithoutSeparatorAfterItem(item: string)
    requires |item| > 0
    ensures WithoutSeparator(item + ",") == item
    ensures WithoutSeparator(item + ",\n") == item + "\n"
  {
    assert (item + ",")[..|item|] == item;
    assert (item + ",\n")[..|item| + 1] == item + ",";
  }

  // ---------------------------------------------------------------
  // Layer to FileFunction and FilePolarity
  // ---------------------------------------------------------------

  /** The FileFunction and FilePolarity of one file of the job. */
  datatype FileAttributes = FileAttributes(fileFunction: string, polarity: string)

  predicate IsSkippedLayer(layer: int) {
    layer in {Dwgs_User, Cmts_User, Eco1_User, Eco2_User, Margin, B_CrtYd, F_CrtYd}
  }

  predicate IsMaskLayer(layer: int) { layer == B_Mask || layer == F_Mask }

  /** The non-copper layers the job file names, and their FileFunction. */
  function TechnicalFunction(layer: int): Option<string> {
    if layer == B_Adhes then Some("Glue,Bot")
    else if layer == F_Adhes then Some("Glue,Top")
    else if layer == B_Paste then Some("SolderPaste,Bot")
    else if layer == F_Paste then Some("SolderPaste,Top")
    else if layer == B_SilkS then Some("Legend,Bot")
    else if layer == F_SilkS then Some("Legend,Top")
    else if layer == B_Mask then Some("SolderMask,Bot")
    else if layer == F_Mask then Some("SolderMask,Top")
    else if layer == Edge_Cuts then Some("Profile")
    else if layer == B_Fab then Some("AssemblyDrawing,Bot")
    else if layer == F_Fab then Some("AssemblyDrawing,Top")
    else None
  }

  /** The attributes addJSONFilesAttributes writes for a file of a layer,
      None when the file is skipped (user, comment, eco, margin and
      courtyard layers, and unexpected ids). Every id up to B_Cu, the
      negative UNDEFINED_LAYER included, takes the copper branch. */
  function LayerAttributes(layer: int, copperLayerCount: int): (r: Option<FileAttributes>)
    ensures layer <= B_Cu ==>
      (r.Some? && r.value.polarity == "Positive" &&
       r.value.fileFunction ==
         "Copper,L" + IntString(if layer == B_Cu then copperLayerCount else layer + 1) + "," +
         (if layer == B_Cu then "Bot" else if layer == F_Cu then "Top" else "Inr"))
    ensures layer > B_Cu ==> (r.Some? <==> TechnicalFunction(layer).Some?)
    ensures IsSkippedLayer(layer) ==> r.None?
    ensures r.Some? ==> (r.value.polarity == "Negative" <==> IsMaskLayer(layer))
    ensures r.Some? ==> r.value.polarity in {"Positive", "Negative"}
  {
    if layer <= B_Cu then
      var n := if layer == B_Cu then copperLayerCount else layer + 1;
      var side := if layer == B_Cu then "Bot" else if layer == F_Cu then "Top" else "Inr";
      Some(FileAttributes("Copper,L" + IntString(n) + "," + side, "Positive"))
    else
      match TechnicalFunction(layer)
      case None => None
      case Some(f) => Some(FileAttributes(f, if IsMaskLayer(layer) then "Negative" else "Positive"))
  }

  /** Two different non-copper layers of the job never share a
      FileFunction. */
  lemma TechnicalFunctionsDistinct(a: int, b: int)
    requires a != b && TechnicalFunction(a).Some? && TechnicalFunction(b).Some?
    ensures TechnicalFunction(a).value != TechnicalFunction(b).value
  {
  }
}
