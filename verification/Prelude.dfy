/** Types shared by the other modules. */
module Prelude {
  datatype Option<+T> = None | Some(value: T)

  type Byte = n: int | 0 <= n < 256

  const U64_MAX := 0xFFFF_FFFF_FFFF_FFFF
  type U64 = n: int | 0 <= n <= U64_MAX

  function SaturatingAdd(a: nat, b: nat): (r: U64)
    ensures r <= a + b
  {
    if a + b > U64_MAX then U64_MAX else a + b
  }
}

/** The ASCII case folding of `to_ascii_lowercase`. */
module AsciiText {
  function LowerChar(c: char): char {
    if 'A' <= c <= 'Z' then c - 'A' + 'a' else c
  }

  function Lower(s: string): (r: string)
    ensures |r| == |s| && forall i :: 0 <= i < |s| ==> r[i] == LowerChar(s[i])
  {
    if s == "" then "" else [LowerChar(s[0])] + Lower(s[1..])
  }

  lemma LowerFixed(s: string)
    requires forall c <- s :: !('A' <= c <= 'Z')
    ensures Lower(s) == s
  {
    assert forall i :: 0 <= i < |s| ==> s[i] in s;
  }
}
