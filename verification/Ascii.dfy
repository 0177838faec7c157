/** Text whose characters are single bytes. */
module Ascii {
  import opened MachineInts

  predicate IsAscii(s: string) {
    forall i :: 0 <= i < |s| ==> s[i] < 128 as char
  }

  /** The bytes of an ASCII text. */
  function TextBytes(s: string): (b: Bytes)
    requires IsAscii(s)
    ensures |b| == |s|
  {
    seq(|s|, i requires 0 <= i < |s| => s[i] as int)
  }

  /** Bytes read one by one as characters. */
  function AsciiText(bytes: Bytes): (s: string)
    ensures |s| == |bytes|
  {
    seq(|bytes|, i requires 0 <= i < |bytes| => bytes[i] as char)
  }
}
