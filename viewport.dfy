/**
 * The `useSyncExternalStore` demo (NetworkStatusDemo): the window-size
 * snapshot, which is the string `{"w":<width>,"h":<height>}`, its parsing,
 * the device class derived from the width, and the values used when
 * rendering on the server. Subscriptions and `navigator.onLine` are not
 * modelled. Only this fixed shape of JSON is.
 */
module Viewport {
  import opened Wrappers
  import opened Text

  /** Window dimensions in CSS pixels. */
  datatype Size = Size(w: nat, h: nat)

  datatype DeviceType = Mobile | Tablet | Desktop

  /** `getDeviceType(width)`. */
  function GetDeviceType(width: int): (d: DeviceType)
    ensures d == Mobile <==> width < 640
    ensures d == Tablet <==> 640 <= width < 1024
    ensures d == Desktop <==> width >= 1024
  {
    if width < 640 then Mobile
    else if width < 1024 then Tablet
    else Desktop
  }

  /** The device classes from narrowest to widest. */
  function Rank(d: DeviceType): nat {
    match d
    case Mobile => 0
    case Tablet => 1
    case Desktop => 2
  }

  /** A wider viewport never yields a narrower device class. */
  lemma DeviceTypeMonotone(w1: int, w2: int)
    requires w1 <= w2
    ensures Rank(GetDeviceType(w1)) <= Rank(GetDeviceType(w2))
  {
  }

  const WidthKey := "{\"w\":"
  const HeightKey := ",\"h\":"
  const Close := "}"

  /** `JSON.stringify({ w, h })`. */
  function EncodeSnapshot(s: Size): string {
    WidthKey + NatToString(s.w) + HeightKey + NatToString(s.h) + Close
  }

  /**
   * `JSON.parse(dimString)` for strings of the snapshot's shape: two
   * decimal numbers without leading zeros, as JSON writes them; anything
   * else is refused.
   */
  function ParseSnapshot(text: string): Option<Size> {
    if !IsPrefix(WidthKey, text) then None
    else
      var afterW := text[|WidthKey|..];
      var n := DigitRun(afterW);
      if n == 0 || (n > 1 && afterW[0] == '0') then None
      else
        var rest := afterW[n..];
        if !IsPrefix(HeightKey, rest) then None
        else
          var afterH := rest[|HeightKey|..];
          var m := DigitRun(afterH);
          if m == 0 || (m > 1 && afterH[0] == '0') || afterH[m..] != Close then None
          else Some(Size(DigitsValue(afterW[..n]), DigitsValue(afterH[..m])))
  }

  /** Parsing an encoded snapshot gives back the same width and height. */
  lemma ParseEncode(s: Size)
    ensures ParseSnapshot(EncodeSnapshot(s)) == Some(s)
  {
    var dw, dh := NatToString(s.w), NatToString(s.h);
    var text := EncodeSnapshot(s);
    assert text == WidthKey + (dw + (HeightKey + dh + Close));
    var afterW := text[|WidthKey|..];
    assert afterW == dw + (HeightKey + dh + Close);
    DigitRunOfDigits(dw, HeightKey + dh + Close);
    assert afterW[..|dw|] == dw;
    var rest := afterW[|dw|..];
    assert rest == HeightKey + (dh + Close);
    var afterH := rest[|HeightKey|..];
    assert afterH == dh + Close;
    DigitRunOfDigits(dh, Close);
    assert afterH[..|dh|] == dh;
    DigitsValueOfNatToString(s.w);
    DigitsValueOfNatToString(s.h);
  }

  /** A string that starts with p is p followed by the rest. */
  lemma PrefixSplit(p: string, s: string)
    requires IsPrefix(p, s)
    ensures s == p + s[|p|..]
  {
    assert s == s[..|p|] + s[|p|..];
  }

  /** The five pieces of a snapshot, joined in order, give its text. */
  lemma Assemble(text: string, afterW: string, dw: string, rest: string, afterH: string, dh: string)
    requires text == WidthKey + afterW && afterW == dw + rest
    requires rest == HeightKey + afterH && afterH == dh + Close
    ensures text == WidthKey + dw + HeightKey + dh + Close
  {
  }

  /** The parser accepts only what the encoder writes: a snapshot that parses is the encoding of its result. */
  lemma EncodeParse(text: string)
    requires ParseSnapshot(text).Some?
    ensures text == EncodeSnapshot(ParseSnapshot(text).value)
  {
    var afterW := text[|WidthKey|..];
    var n := DigitRun(afterW);
    var dw, rest := afterW[..n], afterW[n..];
    var afterH := rest[|HeightKey|..];
    var m := DigitRun(afterH);
    var dh := afterH[..m];
    assert ParseSnapshot(text) == Some(Size(DigitsValue(dw), DigitsValue(dh)));
    assert dw[0] == afterW[0] && dh[0] == afterH[0];
    NatToStringOfDigitsValue(dw);
    NatToStringOfDigitsValue(dh);
    PrefixSplit(WidthKey, text);
    PrefixSplit(HeightKey, rest);
    assert afterW == afterW[..n] + afterW[n..];
    assert afterH == afterH[..m] + afterH[m..];
    Assemble(text, afterW, dw, rest, afterH, dh);
  }

  /** Different sizes have different snapshots, so comparing snapshot strings compares sizes. */
  lemma EncodeInjective(a: Size, b: Size)
    requires EncodeSnapshot(a) == EncodeSnapshot(b)
    ensures a == b
  {
    ParseEncode(a);
    ParseEncode(b);
  }

  /** `getServerSnapshot` of the window store. */
  const ServerSize := Size(1024, 768)

  /** On the server the size snapshot parses to 1024 by 768, which is a desktop. */
  lemma ServerSnapshotIsDesktop()
    ensures ParseSnapshot(EncodeSnapshot(ServerSize)) == Some(Size(1024, 768))
    ensures GetDeviceType(ParseSnapshot(EncodeSnapshot(ServerSize)).value.w) == Desktop
  {
    ParseEncode(ServerSize);
  }
}
