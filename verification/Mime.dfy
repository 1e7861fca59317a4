/**
 The size of a MIME part without building it, against the part built octet by octet: the
 base64 encoding of section 6.8 of RFC 2045 in 76-column lines, each ended by CR LF.
 */
module Mime {
  import opened Bytes

  function PartBytes(size: nat, headerBytes: nat): nat {
    var encoded := 4 * ((size + 2) / 3);
    encoded + 2 * ((encoded + 75) / 76) + headerBytes
  }

  const COLUMNS: nat := 76

  /** The printable character of a six-bit value. */
  function Digit(v: nat): char
    requires v < 64
  {
    "ABCDEFGHIJKLMNOPQRSTUVWXYZabcdefghijklmnopqrstuvwxyz0123456789+/"[v]
  }

  /** Three octets to four characters; one or two octets are padded with '='. */
  function Group(s: seq<Byte>): (r: string)
    requires 1 <= |s| <= 3
    ensures |r| == 4
  {
    var a := s[0] as int;
    var b := if |s| > 1 then s[1] as int else 0;
    var c := if |s| > 2 then s[2] as int else 0;
    [Digit(a / 4), Digit(a % 4 * 16 + b / 16),
     if |s| > 1 then Digit(b % 16 * 4 + c / 64) else '=',
     if |s| > 2 then Digit(c % 64) else '=']
  }

  function Base64(s: seq<Byte>): string {
    if |s| == 0 then "" else if |s| <= 3 then Group(s) else Group(s[..3]) + Base64(s[3..])
  }

  /** Lines of 76 characters and a shorter last one, each with its CR LF. */
  function Lines(text: string): string {
    if |text| == 0 then ""
    else if |text| <= COLUMNS then text + "\r\n"
    else text[..COLUMNS] + "\r\n" + Lines(text[COLUMNS..])
  }

  lemma GroupThenRest(s: seq<Byte>)
    requires |s| > 3
    ensures |Base64(s)| == 4 + |Base64(s[3..])|
  {
    hide Group;
  }

  lemma {:induction false} Base64Length(s: seq<Byte>)
    ensures |Base64(s)| == 4 * ((|s| + 2) / 3)
  {
    hide Group;
    if |s| > 3 {
      Base64Length(s[3..]);
      GroupThenRest(s);
    }
  }

  lemma LineThenRest(text: string)
    requires |text| > COLUMNS
    ensures |Lines(text)| == COLUMNS + 2 + |Lines(text[COLUMNS..])|
  {
  }

  lemma {:induction false} LinesLength(text: string)
    ensures |Lines(text)| == |text| + 2 * ((|text| + 75) / 76)
  {
    if |text| > COLUMNS {
      LinesLength(text[COLUMNS..]);
      LineThenRest(text);
    }
  }

  /** The closed form is exact for every content. */
  lemma PartBytesExact(content: seq<Byte>, headerBytes: nat)
    ensures PartBytes(|content|, headerBytes) == |Lines(Base64(content))| + headerBytes
  {
    Base64Length(content);
    LinesLength(Base64(content));
  }
}
