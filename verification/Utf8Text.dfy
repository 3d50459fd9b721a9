/** UTF-8 (section 3 of RFC 3629), to say what the byte counts of the changelog collapse count. */
module Utf8Text {
  import opened ChangelogCollapse

  function Encoded(c: char): (bytes: seq<int>)
    ensures bytes != []
  {
    var n := c as int;
    if n < 0x80 then [n]
    else if n < 0x800 then [0xC0 + n / 64, 0x80 + n % 64]
    else if n < 0x10000 then [0xE0 + n / 4096, 0x80 + n / 64 % 64, 0x80 + n % 64]
    else [0xF0 + n / 262144, 0x80 + n / 4096 % 64, 0x80 + n / 64 % 64, 0x80 + n % 64]
  }

  function EncodedText(s: string): seq<int> {
    if s == "" then [] else Encoded(s[0]) + EncodedText(s[1..])
  }

  /** The code point at the start of `bytes`, and the number of bytes it takes; `None` where there is no character. */
  function FirstPoint(bytes: seq<int>): (int, nat) {
    if |bytes| < 1 then (-1, 0)
    else if bytes[0] < 0x80 then (bytes[0], 1)
    else if |bytes| < 2 then (-1, 0)
    else if bytes[0] < 0xE0 then ((bytes[0] - 0xC0) * 64 + (bytes[1] - 0x80), 2)
    else if |bytes| < 3 then (-1, 0)
    else if bytes[0] < 0xF0 then ((bytes[0] - 0xE0) * 4096 + (bytes[1] - 0x80) * 64 + (bytes[2] - 0x80), 3)
    else if |bytes| < 4 then (-1, 0)
    else
      ((bytes[0] - 0xF0) * 262144 + (bytes[1] - 0x80) * 4096 + (bytes[2] - 0x80) * 64 + (bytes[3] - 0x80), 4)
  }

  lemma FirstIsRead(c: char, rest: seq<int>)
    ensures FirstPoint(Encoded(c) + rest) == (c as int, |Encoded(c)|)
    ensures forall b :: b in Encoded(c) ==> 0 <= b < 256
  {
    var n := c as int;
    assert 0 <= n < 0x110000;
    assert n == n / 64 * 64 + n % 64;
    assert n / 64 == n / 64 / 64 * 64 + n / 64 % 64 && n / 64 / 64 == n / 4096;
    assert n / 4096 == n / 4096 / 64 * 64 + n / 4096 % 64 && n / 4096 / 64 == n / 262144;
  }

  /** A character counts with the bytes of its encoding, and the encoding of a text tells the text. */
  lemma {:induction false} SizeInUtf8(a: string, b: string)
    ensures Bytes(a) == |EncodedText(a)|
    ensures EncodedText(a) == EncodedText(b) ==> a == b
  {
    hide Encoded, FirstPoint, Utf8;
    if a != "" {
      CharSize(a[0]);
      FirstIsRead(a[0], EncodedText(a[1..]));
      if b != "" {
        FirstIsRead(b[0], EncodedText(b[1..]));
        SizeInUtf8(a[1..], b[1..]);
        if EncodedText(a) == EncodedText(b) {
          assert a[0] as int == b[0] as int;
          assert EncodedText(a)[|Encoded(a[0])|..] == EncodedText(a[1..]);
          assert EncodedText(b)[|Encoded(b[0])|..] == EncodedText(b[1..]);
          assert a == [a[0]] + a[1..] && b == [b[0]] + b[1..];
        }
      } else {
        SizeInUtf8(a[1..], "");
      }
    } else if b != "" {
      FirstIsRead(b[0], EncodedText(b[1..]));
    }
  }

  lemma CharSize(c: char)
    ensures |Encoded(c)| == Utf8(c)
  {
  }
}
