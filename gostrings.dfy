/** Go's byte strings. A Go `string` is an immutable sequence of bytes; the
    model writes it as a Dafny `string` whose characters are those byte
    values, so ASCII literals such as "selfie" mean the same in both. */
module GoStrings {

  type byte = b: int | 0 <= b < 256

  /** Go's conversion `string(b)`: the same bytes, reinterpreted. */
  function GoString(b: seq<byte>): (s: string)
    ensures |s| == |b|
    ensures forall i :: 0 <= i < |b| ==> s[i] as int == b[i]
  {
    seq(|b|, i requires 0 <= i < |b| => b[i] as char)
  }

  /** A Dafny string that stands for a Go string: every character is a byte. */
  predicate IsByteString(s: string) {
    forall i :: 0 <= i < |s| ==> s[i] as int < 256
  }

  /** Go's conversion `[]byte(s)`, exact on strings that satisfy IsByteString. */
  function StringBytes(s: string): (b: seq<byte>)
    ensures |b| == |s|
    ensures IsByteString(s) ==> forall i :: 0 <= i < |s| ==> b[i] == s[i] as int
  {
    seq(|s|, i requires 0 <= i < |s| => s[i] as int % 256)
  }

  /** `[]byte(string(b)) == b`: the two conversions undo each other. */
  lemma BytesStringRoundTrip(b: seq<byte>)
    ensures IsByteString(GoString(b))
    ensures StringBytes(GoString(b)) == b
  {
  }

  lemma StringBytesRoundTrip(s: string)
    requires IsByteString(s)
    ensures GoString(StringBytes(s)) == s
  {
  }
}
