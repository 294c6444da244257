/** The copy loop of `base64ToBuffer` (main.js lines 11-19): the binary
    string that `atob` decoded is copied, one UTF-16 code unit at a time,
    into a fresh Uint8Array of the same length. */
module Buffer {

  /** A UTF-16 code unit, the element of a JavaScript string. */
  type CodeUnit = u: int | 0 <= u < 0x1_0000

  /** An element of a Uint8Array. */
  type Byte = b: int | 0 <= b < 0x100

  /** The Uint8Array element conversion (ToUint8) of an integral value: the
      value modulo 256. */
  function ToUint8(u: int): (b: Byte)
    ensures 0 <= u < 0x100 ==> b == u
    ensures (b - u) % 0x100 == 0
  {
    u % 0x100
  }

  /** A binary string, as `atob` produces: every code unit is below 256. */
  predicate IsBinaryString(s: seq<CodeUnit>) {
    forall i :: 0 <= i < |s| ==> s[i] < 0x100
  }

  /** The reverse reading: one code unit per byte, as
      `String.fromCharCode(...bytes)` builds it. */
  function BytesToBinaryString(bytes: seq<Byte>): (s: seq<CodeUnit>)
    ensures |s| == |bytes|
    ensures IsBinaryString(s)
    ensures forall i :: 0 <= i < |bytes| ==> s[i] == bytes[i]
  {
    if |bytes| == 0 then [] else [bytes[0] as CodeUnit] + BytesToBinaryString(bytes[1..])
  }

  /** The copy loop of main.js lines 15-17: every code unit of the decoded
      string is stored, in order, into a byte array of the same length,
      through the modulo-256 conversion a Uint8Array store performs. */
  method Base64ToBuffer(binString: seq<CodeUnit>) returns (bytes: seq<Byte>)
    ensures |bytes| == |binString|
    ensures forall i :: 0 <= i < |bytes| ==> bytes[i] == ToUint8(binString[i])
  {
    var len := |binString|;
    var buffer := new Byte[len];
    var i := 0;
    while i < len
      invariant 0 <= i <= len
      invariant forall j :: 0 <= j < i ==> buffer[j] == ToUint8(binString[j])
    {
      buffer[i] := ToUint8(binString[i]);
      i := i + 1;
    }
    bytes := buffer[..];
  }

  /** Reading the copied bytes back gives the string exactly when it is a
      binary string: copying what `atob` produces truncates nothing. */
  lemma CopyRoundTrip(s: seq<CodeUnit>, bytes: seq<Byte>)
    requires |bytes| == |s| && forall i :: 0 <= i < |s| ==> bytes[i] == ToUint8(s[i])
    ensures BytesToBinaryString(bytes) == s <==> IsBinaryString(s)
  {
    var t := BytesToBinaryString(bytes);
    if IsBinaryString(s) {
      assert forall i :: 0 <= i < |s| ==> t[i] == s[i];
    }
  }

  /** A code unit of 256 or more does not survive the copy: its byte reads
      back as a different code unit. */
  lemma NonBinaryStringIsTruncated(s: seq<CodeUnit>, bytes: seq<Byte>, k: nat)
    requires |bytes| == |s| && forall i :: 0 <= i < |s| ==> bytes[i] == ToUint8(s[i])
    requires k < |s| && s[k] >= 0x100
    ensures BytesToBinaryString(bytes) != s
  {
    CopyRoundTrip(s, bytes);
  }
}
