/**
 * Bytes as seen through Netty buffers: decoding a byte range as US-ASCII text
 * and searching a buffer for the bytes of an ASCII needle.
 */
module Ascii {

  newtype byte = b: int | 0 <= b < 256

  predicate IsAscii(s: string) {
    forall i :: 0 <= i < |s| ==> s[i] as int < 128
  }

  /** The US-ASCII decoder: bytes 0..127 are their own character, every other byte is U+FFFD. */
  function DecodeByte(b: byte): char {
    if b < 128 then b as int as char else '�'
  }

  /** `buf.toString(index, length, US_ASCII)` for the bytes `bytes`. */
  function AsciiString(bytes: seq<byte>): (s: string)
    ensures |s| == |bytes|
    ensures forall i :: 0 <= i < |bytes| ==> s[i] == DecodeByte(bytes[i])
    ensures forall i :: 0 <= i < |bytes| && bytes[i] < 128 ==> s[i] as int == bytes[i] as int
  {
    seq(|bytes|, i requires 0 <= i < |bytes| => DecodeByte(bytes[i]))
  }

  /** `String.getBytes(US_ASCII)` for a string of ASCII characters. */
  function Encode(s: string): (bytes: seq<byte>)
    requires IsAscii(s)
    ensures |bytes| == |s|
  {
    seq(|s|, i requires 0 <= i < |s| => s[i] as int as byte)
  }

  /** `needle` sits in `haystack` starting at offset `i`. */
  predicate OccursAt(haystack: seq<byte>, needle: seq<byte>, i: int) {
    0 <= i && i + |needle| <= |haystack| && haystack[i..i + |needle|] == needle
  }

  predicate Contains(haystack: seq<byte>, needle: seq<byte>) {
    exists i :: 0 <= i <= |haystack| && OccursAt(haystack, needle, i)
  }

  /**
   * `BufferUtil.indexOf(needle, buf)`: the first offset at which `needle`
   * occurs in the readable bytes, or -1 when it occurs nowhere.
   */
  method IndexOf(haystack: seq<byte>, needle: seq<byte>) returns (index: int)
    ensures index == -1 <==> !Contains(haystack, needle)
    ensures index != -1 ==> OccursAt(haystack, needle, index)
    ensures forall j :: 0 <= j < index ==> !OccursAt(haystack, needle, j)
  {
    var i := 0;
    while i + |needle| <= |haystack|
      invariant 0 <= i
      invariant forall j :: 0 <= j < i ==> !OccursAt(haystack, needle, j)
      decreases |haystack| - i
    {
      if haystack[i..i + |needle|] == needle {
        assert OccursAt(haystack, needle, i);
        return i;
      }
      i := i + 1;
    }
    index := -1;
  }
}
