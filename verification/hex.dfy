/**
 * The payload encoder of `publish`: every byte becomes two upper-case
 * hexadecimal digits, high nibble first.
 */
module Hex {
  import opened Types

  predicate IsUpperHex(c: char) {
    '0' <= c <= '9' || 'A' <= c <= 'F'
  }

  /** The value of one upper-case hexadecimal digit: the decoder the device applies. */
  function HexValue(c: char): (v: nat)
    requires IsUpperHex(c)
    ensures v < 16
  {
    if '0' <= c <= '9' then c as int - '0' as int else c as int - 'A' as int + 10
  }

  /** The digit for one nibble, as `octettohex` picks it. */
  function NibbleChar(nibble: nat): (c: char)
    requires nibble < 16
    ensures IsUpperHex(c) && HexValue(c) == nibble
  {
    if nibble < 10 then ('0' as int + nibble) as char else ('A' as int + (nibble - 10)) as char
  }

  /** `octettohex`: the two-character rendering of one byte. */
  function OctetToHex(octet: uint8): (r: string)
    ensures |r| == 2
    ensures IsUpperHex(r[0]) && IsUpperHex(r[1])
    ensures 16 * HexValue(r[0]) + HexValue(r[1]) == octet
  {
    [NibbleChar(octet / 16 % 16), NibbleChar(octet % 16)]
  }

  /** The rendering `publish` writes between the quotes. */
  function HexEncode(data: seq<uint8>): (r: string)
    ensures |r| == 2 * |data|
    ensures forall k :: 0 <= k < |r| ==> IsUpperHex(r[k])
    ensures forall k :: 0 <= k < |data| ==> r[2 * k..2 * k + 2] == OctetToHex(data[k])
  {
    if |data| == 0 then []
    else
      var rest := HexEncode(data[1..]);
      var r := OctetToHex(data[0]) + rest;
      assert forall k :: 1 <= k < |data| ==> r[2 * k..2 * k + 2] == rest[2 * (k - 1)..2 * (k - 1) + 2];
      r
  }

  /** The device's side: pairs of hexadecimal digits back to bytes. */
  function HexDecode(s: string): (r: seq<uint8>)
    requires |s| % 2 == 0
    requires forall k :: 0 <= k < |s| ==> IsUpperHex(s[k])
    ensures |r| == |s| / 2
  {
    if |s| == 0 then [] else [16 * HexValue(s[0]) + HexValue(s[1])] + HexDecode(s[2..])
  }

  /** The encoding is lossless: the device recovers exactly the bytes published. */
  lemma {:induction false} HexRoundTrip(data: seq<uint8>)
    ensures HexDecode(HexEncode(data)) == data
  {
    if |data| > 0 {
      var s := HexEncode(data);
      assert s[0..2] == OctetToHex(data[0]);
      assert s[2..] == HexEncode(data[1..]);
      HexRoundTrip(data[1..]);
    }
  }

  /** No two bytes share a rendering. */
  lemma OctetToHexInjective(a: uint8, b: uint8)
    requires OctetToHex(a) == OctetToHex(b)
    ensures a == b
  {
  }

  /** The boundary values named for the encoder. */
  lemma OctetToHexExamples()
    ensures OctetToHex(0x00) == "00"
    ensures OctetToHex(0xFF) == "FF"
    ensures OctetToHex(0x0A) == "0A"
    ensures HexEncode([0x01, 0x02, 0x03]) == "010203"
  {
    assert HexEncode([0x03]) == "03";
    assert HexEncode([0x02, 0x03]) == "0203" by {
      assert [0x02, 0x03][1..] == [0x03];
    }
    assert [0x01, 0x02, 0x03][1..] == [0x02, 0x03];
  }
}
