/**
 * helper/uuid: a version 4 UUID made from 16 random bytes. The random source (crypto/rand)
 * is not part of this model: the bytes it would fill in are the input.
 */
module Uuid {

  /**
   * The variant bits of section 4.1.1 and the version number of section 4.1.3 of RFC 4122:
   * byte 8 starts with the bits 10, byte 6 with the nibble 0100, and nothing else changes.
   */
  function WithVersionAndVariant(b: seq<bv8>): (r: seq<bv8>)
    requires |b| == 16
    ensures |r| == 16
    ensures r[6] >> 4 == 4 && r[6] & 0x0F == b[6] & 0x0F
    ensures r[8] >> 6 == 2 && r[8] & 0x3F == b[8] & 0x3F
    ensures forall i :: 0 <= i < 16 && i != 6 && i != 8 ==> r[i] == b[i]
  {
    b[8 := (b[8] & !0xC0) | 0x80][6 := (b[6] & !0xF0) | 0x40]
  }

  /** Fixing the bits of bytes that already have them changes nothing. */
  lemma WithVersionAndVariantIdempotent(b: seq<bv8>)
    requires |b| == 16
    ensures WithVersionAndVariant(WithVersionAndVariant(b)) == WithVersionAndVariant(b)
  {
  }

  predicate IsLowerHex(c: char) {
    '0' <= c <= '9' || 'a' <= c <= 'f'
  }

  /** The lower-case hexadecimal digit for a nibble. */
  function HexDigit(n: bv8): (c: char)
    requires n < 16
    ensures IsLowerHex(c)
  {
    if n < 10 then (48 + n as int) as char else (97 + n as int - 10) as char
  }

  /** The nibble a lower-case hexadecimal digit stands for. */
  function HexValue(c: char): (n: bv8)
    requires IsLowerHex(c)
    ensures n < 16
  {
    if c <= '9' then (c as int - 48) as bv8 else (c as int - 97 + 10) as bv8
  }

  /** The digit of a byte's high nibble. */
  function HighDigit(x: bv8): (c: char)
    ensures IsLowerHex(c)
  {
    HexDigit(x >> 4)
  }

  /** The digit of a byte's low nibble. */
  function LowDigit(x: bv8): (c: char)
    ensures IsLowerHex(c)
  {
    HexDigit(x & 0x0F)
  }

  /** fmt's %x of a byte slice: two lower-case hexadecimal digits per byte, high nibble first. */
  function Hex(bs: seq<bv8>): (s: string)
    ensures |s| == 2 * |bs|
    ensures forall i :: 0 <= i < |bs| ==> s[2 * i] == HighDigit(bs[i]) && s[2 * i + 1] == LowDigit(bs[i])
    ensures forall k :: 0 <= k < |s| ==> IsLowerHex(s[k])
    decreases |bs|
  {
    if |bs| == 0 then "" else [HighDigit(bs[0]), LowDigit(bs[0])] + Hex(bs[1..])
  }

  /** The 8-4-4-4-12 layout: the hexadecimal of bytes 0-3, 4-5, 6-7, 8-9 and 10-15, joined by '-'. */
  function Format(b: seq<bv8>): string
    requires |b| == 16
  {
    Hex(b[0..4]) + "-" + Hex(b[4..6]) + "-" + Hex(b[6..8]) + "-" + Hex(b[8..10]) + "-" + Hex(b[10..16])
  }

  /** Where the two digits of byte i stand in the formatted text. */
  function DigitPos(i: nat): nat
    requires i < 16
  {
    if i < 4 then 2 * i else if i < 6 then 2 * i + 1 else if i < 8 then 2 * i + 2 else if i < 10 then 2 * i + 3 else 2 * i + 4
  }

  predicate IsDashPos(k: int) {
    k == 8 || k == 13 || k == 18 || k == 23
  }

  /** The formatted text: 36 characters, dashes at 8, 13, 18 and 23, hexadecimal digits elsewhere. */
  lemma FormatShape(b: seq<bv8>)
    requires |b| == 16
    ensures IsUuidText(Format(b))
  {
    var h0, h1, h2, h3, h4 := Hex(b[0..4]), Hex(b[4..6]), Hex(b[6..8]), Hex(b[8..10]), Hex(b[10..16]);
    var s := Format(b);
    assert s == h0 + "-" + h1 + "-" + h2 + "-" + h3 + "-" + h4;
    forall k | 0 <= k < 36 ensures (s[k] == '-' <==> IsDashPos(k)) && (!IsDashPos(k) ==> IsLowerHex(s[k])) {
      if k < 8 { assert s[k] == h0[k]; }
      else if k < 13 { if k > 8 { assert s[k] == h1[k - 9]; } }
      else if k < 18 { if k > 13 { assert s[k] == h2[k - 14]; } }
      else if k < 23 { if k > 18 { assert s[k] == h3[k - 19]; } }
      else if k > 23 { assert s[k] == h4[k - 24]; }
    }
  }

  /** Five groups of 8, 4, 4, 4 and 12 characters joined by '-': where each group and dash stands. */
  lemma Layout(h0: string, h1: string, h2: string, h3: string, h4: string)
    requires |h0| == 8 && |h1| == 4 && |h2| == 4 && |h3| == 4 && |h4| == 12
    ensures var s := h0 + "-" + h1 + "-" + h2 + "-" + h3 + "-" + h4;
            && |s| == 36
            && s[0..8] == h0 && s[9..13] == h1 && s[14..18] == h2 && s[19..23] == h3 && s[24..36] == h4
            && s[8] == '-' && s[13] == '-' && s[18] == '-' && s[23] == '-'
  {
    var s := h0 + "-" + h1 + "-" + h2 + "-" + h3 + "-" + h4;
    assert s == h0 + ("-" + (h1 + ("-" + (h2 + ("-" + (h3 + ("-" + h4)))))));
  }

  /** The group byte i belongs to (0 to 4). */
  function GroupOf(i: nat): (g: nat)
    requires i < 16
    ensures g < 5
  {
    if i < 4 then 0 else if i < 6 then 1 else if i < 8 then 2 else if i < 10 then 3 else 4
  }

  /** The first byte of group g, the byte after its last one, and where its digits start. */
  function GroupLo(g: nat): nat requires g < 5 { [0, 4, 6, 8, 10][g] }
  function GroupHi(g: nat): nat requires g < 5 { [4, 6, 8, 10, 16][g] }
  function GroupOffset(g: nat): nat requires g < 5 { [0, 9, 14, 19, 24][g] }

  /** Byte i lies in its group, and its digits start at DigitPos(i). */
  lemma GroupPos(i: nat)
    requires i < 16
    ensures var g := GroupOf(i);
            GroupLo(g) <= i < GroupHi(g) && GroupOffset(g) + 2 * (i - GroupLo(g)) == DigitPos(i)
  {
  }

  /** Group g of the formatted text is the hexadecimal of its bytes. */
  lemma FormatGroup(b: seq<bv8>, g: nat)
    requires |b| == 16 && g < 5
    ensures var s, off, lo, hi := Format(b), GroupOffset(g), GroupLo(g), GroupHi(g);
            |s| == 36 && lo <= hi <= 16 && off + 2 * (hi - lo) <= |s| && s[off..off + 2 * (hi - lo)] == Hex(b[lo..hi])
  {
    Layout(Hex(b[0..4]), Hex(b[4..6]), Hex(b[6..8]), Hex(b[8..10]), Hex(b[10..16]));
  }

  /** The digits of the j-th byte of a group that starts at off. */
  lemma GroupDigits(s: string, off: nat, bs: seq<bv8>, j: nat)
    requires off + 2 * |bs| <= |s| && s[off..off + 2 * |bs|] == Hex(bs) && j < |bs|
    ensures s[off + 2 * j] == HighDigit(bs[j]) && s[off + 2 * j + 1] == LowDigit(bs[j])
  {
    assert s[off..off + 2 * |bs|][2 * j] == s[off + 2 * j];
    assert s[off..off + 2 * |bs|][2 * j + 1] == s[off + 2 * j + 1];
  }

  /** In a text holding byte i's group where the layout puts it, byte i's digits stand at DigitPos(i). */
  lemma DigitsOfGroup(s: string, b: seq<bv8>, i: nat)
    requires |b| == 16 && i < 16
    requires var g := GroupOf(i);
             var off, lo, hi := GroupOffset(g), GroupLo(g), GroupHi(g);
             off + 2 * (hi - lo) <= |s| && s[off..off + 2 * (hi - lo)] == Hex(b[lo..hi])
    ensures DigitPos(i) + 1 < |s| && s[DigitPos(i)] == HighDigit(b[i]) && s[DigitPos(i) + 1] == LowDigit(b[i])
  {
    var g := GroupOf(i);
    var off, lo, hi := GroupOffset(g), GroupLo(g), GroupHi(g);
    GroupPos(i);
    var bs := b[lo..hi];
    assert off + 2 * |bs| == off + 2 * (hi - lo);
    GroupDigits(s, off, bs, i - lo);
    assert bs[i - lo] == b[i];
  }

  /** In the formatted text, byte i's two digits stand at DigitPos(i), high nibble first. */
  lemma FormatDigits(b: seq<bv8>, i: nat)
    requires |b| == 16 && i < 16
    ensures var s := Format(b);
            |s| == 36 && s[DigitPos(i)] == HighDigit(b[i]) && s[DigitPos(i) + 1] == LowDigit(b[i])
  {
    FormatGroup(b, GroupOf(i));
    DigitsOfGroup(Format(b), b, i);
  }

  /** Text with the UUID layout. */
  predicate IsUuidText(s: string) {
    && |s| == 36
    && (forall k :: 0 <= k < 36 ==> (s[k] == '-' <==> IsDashPos(k)))
    && (forall k :: 0 <= k < 36 && !IsDashPos(k) ==> IsLowerHex(s[k]))
  }

  /** The byte whose high nibble is hi and whose low nibble is lo. */
  function ByteOf(hi: bv8, lo: bv8): bv8
    requires hi < 16 && lo < 16
  {
    (hi << 4) | lo
  }

  /** Reads the 16 bytes back from text with the UUID layout. */
  function Parse(s: string): (b: seq<bv8>)
    requires IsUuidText(s)
    ensures |b| == 16
  {
    seq(16, i requires 0 <= i < 16 => ByteOf(HexValue(s[DigitPos(i)]), HexValue(s[DigitPos(i) + 1])))
  }

  lemma HexValueOfDigit(n: bv8)
    requires n < 16
    ensures HexValue(HexDigit(n)) == n
  {
  }

  /** The formatted text reads back as the bytes it was made from. */
  lemma ParseFormat(b: seq<bv8>)
    requires |b| == 16
    ensures IsUuidText(Format(b)) && Parse(Format(b)) == b
  {
    FormatShape(b);
    var s := Format(b);
    forall i | 0 <= i < 16 ensures Parse(s)[i] == b[i] {
      FormatDigits(b, i);
      HexValueOfDigit(b[i] >> 4);
      HexValueOfDigit(b[i] & 0x0F);
      assert ByteOf(b[i] >> 4, b[i] & 0x0F) == b[i];
    }
  }

  /** The text of fixed bytes shows the version digit 4 and a variant digit among 8, 9, a and b. */
  lemma VersionAndVariantDigits(random: seq<bv8>)
    requires |random| == 16
    ensures var s := Format(WithVersionAndVariant(random));
            IsUuidText(s) && Parse(s) == WithVersionAndVariant(random)
            && s[14] == '4' && s[19] in {'8', '9', 'a', 'b'}
  {
    var b := WithVersionAndVariant(random);
    ParseFormat(b);
    FormatDigits(b, 6);
    FormatDigits(b, 8);
    assert DigitPos(6) == 14 && DigitPos(8) == 19;
    assert 8 <= b[8] >> 4 <= 11;
  }

  /** UUIDv4: fix the version and variant bits of the random bytes in place, then format them. */
  method UUIDv4(random: seq<bv8>) returns (s: string)
    requires |random| == 16
    ensures IsUuidText(s) && Parse(s) == WithVersionAndVariant(random)
    ensures s[14] == '4' && s[19] in {'8', '9', 'a', 'b'}
  {
    var uuid := new bv8[16](i => if 0 <= i < |random| then random[i] else 0);
    // Byte 8: the top two bits become 10, the RFC 4122 variant.
    uuid[8] := (uuid[8] & !0xC0) | 0x80;
    // Byte 6: the high nibble becomes 4, the random-number version.
    uuid[6] := (uuid[6] & !0xF0) | 0x40;
    assert uuid[..] == WithVersionAndVariant(random);
    s := Format(uuid[..]);
    VersionAndVariantDigits(random);
  }
}
