/** `strToBytes` and the `dUSD` currency-key constants (src/common.ts). */
module Common {
  import opened GraphValues

  function Zeros(n: nat): (z: seq<byte>)
    ensures |z| == n && forall i :: 0 <= i < n ==> z[i] == 0
  {
    seq(n, _ => 0)
  }

  /** The fixed-width key a string becomes: its UTF-8 bytes, then zero bytes up to `length`. */
  function Padded(utf8: seq<byte>, length: nat): seq<byte>
    requires |utf8| <= length
  {
    utf8 + Zeros(length - |utf8|)
  }

  /** `strToBytes(string, length)`. The string arrives as its UTF-8 bytes `utf8` (what
      `toUTF8()` yields; `lengthUTF8 - 1` is `|utf8|`, the count without the terminator).
      A zeroed `ByteArray(length)` is allocated and the string's bytes copied to its front;
      a string longer than `length` is not modelled. */
  method StrToBytes(utf8: seq<byte>, length: nat) returns (bytes: seq<byte>)
    requires |utf8| <= length
    ensures |bytes| == length
    ensures bytes[..|utf8|] == utf8
    ensures forall i :: |utf8| <= i < length ==> bytes[i] == 0
    ensures bytes == Padded(utf8, length)
  {
    var a := new byte[length](_ => 0);
    var strLen := |utf8|;
    for i := 0 to strLen
      invariant forall k :: 0 <= k < i ==> a[k] == utf8[k]
      invariant forall k :: i <= k < length ==> a[k] == 0
    {
      a[i] := utf8[i];
    }
    bytes := a[..];
    assert bytes[..|utf8|] == utf8;
    assert bytes[|utf8|..] == Zeros(length - |utf8|);
    assert bytes == bytes[..|utf8|] + bytes[|utf8|..];
  }

  /** The bytes before the first zero byte: one reading of a zero-padded key as text. The rates
      handler receives its keys already decoded and does not use it. A decoding that trims only
      trailing zero bytes agrees with it exactly on keys with no interior zero byte, which is
      the case `UntilZeroOfPadded` covers. */
  function UntilZero(bytes: seq<byte>): (r: seq<byte>)
    ensures |r| <= |bytes| && r == bytes[..|r|]
    ensures forall i :: 0 <= i < |r| ==> r[i] != 0
    ensures |r| < |bytes| ==> bytes[|r|] == 0
  {
    if bytes == [] || bytes[0] == 0 then [] else [bytes[0]] + UntilZero(bytes[1..])
  }

  /** Padding is reversible when the string itself holds no zero byte and `length` leaves room. */
  lemma {:induction false} UntilZeroOfPadded(utf8: seq<byte>, length: nat)
    requires |utf8| <= length
    requires forall i :: 0 <= i < |utf8| ==> utf8[i] != 0
    ensures UntilZero(Padded(utf8, length)) == utf8
  {
    var p := Padded(utf8, length);
    if utf8 == [] {
      assert p == Zeros(length);
    } else {
      assert p[0] == utf8[0] != 0;
      assert p[1..] == Padded(utf8[1..], length - 1);
      UntilZeroOfPadded(utf8[1..], length - 1);
    }
  }

  /** "dUSD" as bytes: 0x64 0x55 0x53 0x44. */
  const DollarKey: seq<byte> := Ascii("dUSD")

  /** `dUSD32 = strToBytes('dUSD', 32)`. */
  const DUSD32: seq<byte> := Padded(DollarKey, 32)

  /** `dUSD4 = strToBytes('dUSD', 4)`. */
  const DUSD4: seq<byte> := Padded(DollarKey, 4)

  lemma DollarKeyConstants()
    ensures DUSD4 == [0x64, 0x55, 0x53, 0x44]
    ensures |DUSD32| == 32 && DUSD32[..4] == DUSD4
    ensures forall i :: 4 <= i < 32 ==> DUSD32[i] == 0
  {
    assert DollarKey == [0x64, 0x55, 0x53, 0x44];
  }
}
