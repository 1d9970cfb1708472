/** Base16 as Go's `encoding/hex` implements it (the alphabet of section 8 of
    RFC 4648): `DecodeString` accepts both letter cases, `EncodeToString`
    produces lower case. Input and output are byte strings. */
module Hex {
  import opened Common

  /** The two errors `hex.DecodeString` can report. */
  datatype HexError = InvalidByte(b: byte) | ErrLength

  /** The value of one hex digit ('0'-'9', 'a'-'f', 'A'-'F'), or None. */
  function FromHexChar(c: byte): (r: Option<byte>)
    ensures r.Some? ==> r.value < 16
  {
    if 48 <= c <= 57 then Some(c - 48)        // '0'..'9'
    else if 97 <= c <= 102 then Some(c - 87)  // 'a'..'f'
    else if 65 <= c <= 70 then Some(c - 55)   // 'A'..'F'
    else None
  }

  /** The lower-case digit for a value below 16. */
  function ToHexChar(v: byte): (c: byte)
    requires v < 16
    ensures FromHexChar(c) == Some(v)
  {
    if v < 10 then v + 48 else v + 87
  }

  /** Every byte of `s` is a hex digit. */
  ghost predicate AllHex(s: Bytes) {
    forall i :: 0 <= i < |s| ==> FromHexChar(s[i]).Some?
  }

  /** The byte that the two digits `hi`, `lo` spell. */
  function Pair(hi: byte, lo: byte): byte
    requires FromHexChar(hi).Some? && FromHexChar(lo).Some?
  {
    (FromHexChar(hi).value as int * 16 + FromHexChar(lo).value as int) as byte
  }

  /** `hex.DecodeString`: pairs are read left to right and the first byte that
      is not a hex digit is reported; a dangling last digit is `ErrLength`. */
  function DecodeString(s: Bytes): (r: Result<Bytes, HexError>)
    decreases |s|
    ensures r.Ok? <==> |s| % 2 == 0 && AllHex(s)
    ensures r == Err(ErrLength) <==> |s| % 2 == 1 && AllHex(s)
    ensures r.Err? && r.error.InvalidByte? ==>
      exists i :: 0 <= i < |s| && s[i] == r.error.b && FromHexChar(s[i]).None? && AllHex(s[..i])
    ensures r.Ok? ==> |r.value| == |s| / 2
    ensures r.Ok? ==> forall k :: 0 <= k < |r.value| ==> r.value[k] == Pair(s[2 * k], s[2 * k + 1])
  {
    if |s| == 0 then Ok([])
    else if FromHexChar(s[0]).None? then
      assert AllHex(s[..0]);
      Err(InvalidByte(s[0]))
    else if |s| == 1 then Err(ErrLength)
    else if FromHexChar(s[1]).None? then
      assert AllHex(s[..1]);
      Err(InvalidByte(s[1]))
    else
      var tail := DecodeString(s[2..]);
      AllHexPairs(s);
      match tail
      case Ok(rest) => Ok([Pair(s[0], s[1])] + rest)
      case Err(e) =>
        assert e.InvalidByte? ==>
          exists i :: 0 <= i < |s| && s[i] == e.b && FromHexChar(s[i]).None? && AllHex(s[..i]) by {
          if e.InvalidByte? {
            var j :| 0 <= j < |s[2..]| && s[2..][j] == e.b && FromHexChar(s[2..][j]).None? && AllHex(s[2..][..j]);
            InvalidAfterPair(s, j);
          }
        }
        Err(e)
  }

  /** A string that starts with two hex digits is all hex exactly when the
      rest is. */
  lemma AllHexPairs(s: Bytes)
    requires |s| >= 2 && FromHexChar(s[0]).Some? && FromHexChar(s[1]).Some?
    ensures AllHex(s) <==> AllHex(s[2..])
  {
    if AllHex(s[2..]) {
      forall i | 2 <= i < |s| ensures FromHexChar(s[i]).Some? {
        assert s[i] == s[2..][i - 2];
      }
    }
  }

  /** The first non-digit of the rest is the first non-digit of the whole. */
  lemma InvalidAfterPair(s: Bytes, j: nat)
    requires |s| >= 2 && FromHexChar(s[0]).Some? && FromHexChar(s[1]).Some?
    requires j < |s| - 2 && AllHex(s[2..][..j])
    ensures AllHex(s[..j + 2])
  {
    assert s[..j + 2][2..] == s[2..][..j];
  }

  /** `hex.EncodeToString`: two lower-case digits per byte, high nibble first. */
  function EncodeToString(b: Bytes): (s: Bytes)
    ensures |s| == 2 * |b|
  {
    if b == [] then []
    else [ToHexChar(b[0] / 16), ToHexChar(b[0] % 16)] + EncodeToString(b[1..])
  }

  /** Decoding an encoding gives back the bytes that were encoded. */
  lemma {:induction false} DecodeEncode(b: Bytes)
    ensures DecodeString(EncodeToString(b)) == Ok(b)
  {
    if b != [] {
      DecodeEncode(b[1..]);
      var s := EncodeToString(b);
      assert s[2..] == EncodeToString(b[1..]);
      assert Pair(s[0], s[1]) == b[0];
      assert [b[0]] + b[1..] == b;
    }
  }

  /** A string of `2 * n` hex digits decodes to exactly `n` bytes, so a 64-digit
      hash string that decodes at all yields a 32-byte digest. */
  lemma DecodedLength(s: Bytes, n: nat)
    requires |s| == 2 * n
    ensures DecodeString(s).Ok? ==> |DecodeString(s).value| == n
    ensures DecodeString(s).Err? ==> DecodeString(s).error.InvalidByte?
  {
  }
}
