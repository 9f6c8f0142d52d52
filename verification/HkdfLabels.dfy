/** The HkdfLabel structure of section 7.1 of RFC 8446, read back from the bytes of an
    HKDF-Expand-Label message. */
module HkdfLabels {
  import opened Bytes
  import opened Hkdf
  import opened TlsWire

  /** The three fields of the structure, and what follows it. */
  datatype HkdfLabel = HkdfLabel(length: nat, full: seq<Byte>, context: seq<Byte>, rest: seq<Byte>)

  /** A string after its one-byte length. */
  function ReadOpaque(s: seq<Byte>): Option<(seq<Byte>, seq<Byte>)> {
    if s == [] || 1 + s[0] > |s| then None else Some((s[1..1 + s[0]], s[1 + s[0]..]))
  }

  /** A two-byte length, the label, the context. */
  function ReadHkdfLabel(s: seq<Byte>): Option<HkdfLabel> {
    if |s| < 2 then None
    else match ReadOpaque(s[2..])
      case None => None
      case Some(full) =>
        match ReadOpaque(full.1)
        case None => None
        case Some(context) => Some(HkdfLabel(256 * (s[0] as int) + s[1] as int, full.0, context.0, context.1))
  }

  /** The label is the bytes of "tls13 ", then those of `name`. */
  predicate IsLabel(full: seq<Byte>, name: string) {
    && |full| == 6 + |name| && full[..6] == [116, 108, 115, 49, 51, 32]
    && forall i :: 0 <= i < |name| ==> full[6 + i] == name[i] as int
  }

  predicate IsAscii(name: string) {
    forall i :: 0 <= i < |name| ==> name[i] as int < 128
  }

  lemma ReadsOpaque(s: seq<Byte>, rest: seq<Byte>)
    requires |s| < 256
    ensures ReadOpaque([|s|] + s + rest) == Some((s, rest))
  {
    var t := [|s|] + s + rest;
    assert t[1..1 + |s|] == s && t[1 + |s|..] == rest;
  }

  lemma TwoBytes(v: nat)
    requires v < 0x1_0000
    ensures BigEndian(2, v) == [v / 256, v % 256]
  {
    assert BigEndian(1, v / 256) == BigEndian(0, v / 256 / 256) + [v / 256 % 256];
  }

  lemma LabelBytes(name: string)
    requires IsAscii(name)
    ensures IsLabel(Ascii("tls13 ") + Ascii(name), name)
  {
    assert Ascii("tls13 ") == [116, 108, 115, 49, 51, 32];
  }

  /** For every name, context and length that fit their fields, the message is that structure
      with the prefixed name for label, followed by the counter byte of the first block. */
  lemma InfoReadsBack(name: string, context: seq<Byte>, length: nat) returns (l: HkdfLabel)
    requires IsAscii(name) && |name| < 250 && |context| < 256 && length < 0x1_0000
    ensures ReadHkdfLabel(ExpandLabelInfo(name, context, length)) == Some(l)
    ensures l.length == length && IsLabel(l.full, name) && l.context == context && l.rest == [1]
  {
    var full := Ascii("tls13 ") + Ascii(name);
    l := HkdfLabel(length, full, context, [1]);
    LabelBytes(name);
    TwoBytes(length);
    InfoGrouped(name, context, length, full);
    var tail := [|context|] + context + [1];
    ReadsOpaque(full, tail);
    ReadsOpaque(context, [1]);
    assert ExpandLabelInfo(name, context, length)[2..] == [|full|] + full + tail;
  }

  lemma InfoGrouped(name: string, context: seq<Byte>, length: nat, full: seq<Byte>)
    requires full == Ascii("tls13 ") + Ascii(name) && |name| < 250 && |context| < 256
    ensures ExpandLabelInfo(name, context, length)
         == BigEndian(2, length) + ([|full|] + full + ([|context|] + context + [1]))
  {}

  /** The messages for the keys and for the IVs, byte by byte. */
  lemma KeyAndIvInfo()
    ensures ExpandLabelInfo("key", [], 16) == [0, 16, 9, 116, 108, 115, 49, 51, 32, 107, 101, 121, 0, 1]
    ensures ExpandLabelInfo("iv", [], 12) == [0, 12, 8, 116, 108, 115, 49, 51, 32, 105, 118, 0, 1]
  {
    TwoBytes(16);
    TwoBytes(12);
    assert Ascii("tls13 ") == [116, 108, 115, 49, 51, 32];
    assert Ascii("key") == [107, 101, 121] && Ascii("iv") == [105, 118];
  }
}
