/** Values shared by the mappings: optional reads, bytes, and the string forms graph-ts
    gives to integers and byte arrays (entity ids are built from these). */
module GraphValues {

  /** A field that may be unset, or an external read that may have reverted. */
  datatype Option<+T> = None | Some(value: T)

  /** An unset counter reads as zero (the handlers write `BigInt.fromI32(0)` first). */
  function OrZero(o: Option<nat>): nat
  {
    if o.Some? then o.value else 0
  }

  newtype byte = x: int | 0 <= x < 256

  /** Width of the day bucket, in seconds. */
  const SecondsPerDay: nat := 86400

  predicate IsDigit(c: char)
  {
    '0' <= c <= '9'
  }

  function DigitChar(d: nat): (c: char)
    requires d < 10
    ensures IsDigit(c) && c as int - '0' as int == d
  {
    (d + '0' as int) as char
  }

  /** `toString()` of a non-negative integer: its decimal digits, no leading zeros. */
  function NatToString(n: nat): (s: string)
    ensures |s| >= 1
    ensures forall i :: 0 <= i < |s| ==> IsDigit(s[i])
    ensures n >= 10 ==> s[0] != '0'
    decreases n
  {
    if n < 10 then [DigitChar(n)] else NatToString(n / 10) + [DigitChar(n % 10)]
  }

  /** Reads a string of decimal digits back as a number. */
  function ParseNat(s: string): nat
    requires forall i :: 0 <= i < |s| ==> IsDigit(s[i])
  {
    if s == [] then 0
    else
      assert IsDigit(s[|s| - 1]);
      ParseNat(s[..|s| - 1]) * 10 + (s[|s| - 1] as int - '0' as int)
  }

  /** The decimal form loses nothing: distinct numbers give distinct ids. */
  lemma {:induction false} ParseNatToString(n: nat)
    ensures ParseNat(NatToString(n)) == n
    decreases n
  {
    if n >= 10 {
      var s := NatToString(n);
      assert s[..|s| - 1] == NatToString(n / 10);
      ParseNatToString(n / 10);
    }
  }

  /** The id of a per-event entity: `hash.toHex() + '-' + logIndex.toString()`. */
  function EventId(txHash: string, logIndex: nat): string
  {
    txHash + "-" + NatToString(logIndex)
  }

  /** Two events of one transaction get distinct ids whenever their log indexes differ. */
  lemma EventIdInjective(txHash: string, a: nat, b: nat)
    requires EventId(txHash, a) == EventId(txHash, b)
    ensures a == b
  {
    assert NatToString(a) == EventId(txHash, a)[|txHash| + 1..];
    assert NatToString(b) == EventId(txHash, b)[|txHash| + 1..];
    ParseNatToString(a);
    ParseNatToString(b);
  }

  function HexChar(d: nat): (c: char)
    requires d < 16
  {
    "0123456789abcdef"[d]
  }

  /** Distinct digit values give distinct hex characters. */
  lemma HexCharInjective(x: nat, y: nat)
    requires x < 16 && y < 16 && HexChar(x) == HexChar(y)
    ensures x == y
  {
  }

  /** Two lower-case hex digits per byte, high nibble first. */
  function HexDigits(bytes: seq<byte>): (s: string)
    ensures |s| == 2 * |bytes|
  {
    if bytes == [] then ""
    else [HexChar(bytes[0] as int / 16), HexChar(bytes[0] as int % 16)] + HexDigits(bytes[1..])
  }

  /** Byte `i` of the input becomes characters `2i` (high nibble) and `2i + 1` (low nibble). */
  lemma {:induction false} HexDigitsAt(bytes: seq<byte>, i: nat)
    requires i < |bytes|
    ensures HexDigits(bytes)[2 * i] == HexChar(bytes[i] as int / 16)
    ensures HexDigits(bytes)[2 * i + 1] == HexChar(bytes[i] as int % 16)
  {
    if i > 0 {
      HexDigitsAt(bytes[1..], i - 1);
      assert HexDigits(bytes)[2 * i] == HexDigits(bytes[1..])[2 * (i - 1)];
      assert HexDigits(bytes)[2 * i + 1] == HexDigits(bytes[1..])[2 * (i - 1) + 1];
    }
  }

  /** `Bytes.toHexString()`: `0x` followed by two lower-case hex digits per byte. */
  function HexString(bytes: seq<byte>): (s: string)
    ensures |s| == 2 + 2 * |bytes| && s[..2] == "0x"
  {
    "0x" + HexDigits(bytes)
  }

  /** After the `0x` prefix, byte `i` renders as its two lower-case hex digits. */
  lemma HexStringAt(bytes: seq<byte>, i: nat)
    requires i < |bytes|
    ensures HexString(bytes)[2 + 2 * i] == HexChar(bytes[i] as int / 16)
    ensures HexString(bytes)[3 + 2 * i] == HexChar(bytes[i] as int % 16)
  {
    HexDigitsAt(bytes, i);
  }

  /** The hex rendering loses nothing: equal renderings come from equal bytes. */
  lemma HexStringInjective(a: seq<byte>, b: seq<byte>)
    requires HexString(a) == HexString(b)
    ensures a == b
  {
    var s := HexString(a);
    forall i | 0 <= i < |a|
      ensures a[i] == b[i]
    {
      HexStringAt(a, i);
      HexStringAt(b, i);
      HexCharInjective(a[i] as int / 16, b[i] as int / 16);
      HexCharInjective(a[i] as int % 16, b[i] as int % 16);
    }
  }

  predicate IsAscii(s: string)
  {
    forall i :: 0 <= i < |s| ==> s[i] as int < 128
  }

  /** The UTF-8 bytes of an ASCII string: one byte per character. */
  function Ascii(s: string): (u: seq<byte>)
    requires IsAscii(s)
    ensures |u| == |s|
  {
    seq(|s|, i requires 0 <= i < |s| => s[i] as int as byte)
  }
}
