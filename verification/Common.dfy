/** Small functions and bounds shared by the model. */
module Common {

  const U32: nat := 0x1_0000_0000
  const U32_MAX: nat := U32 - 1

  function Min(a: nat, b: nat): nat {
    if a < b then a else b
  }

  /** `to_ascii_lowercase` */
  function AsciiLower(s: string): string {
    if s == "" then "" else
    [if 'A' <= s[0] <= 'Z' then s[0] - 'A' + 'a' else s[0]] + AsciiLower(s[1..])
  }

  function Flatten<T>(pieces: seq<seq<T>>): seq<T> {
    if pieces == [] then [] else Flatten(pieces[..|pieces| - 1]) + pieces[|pieces| - 1]
  }

  /** The 26 capital letters go up by 32 and nothing else changes. */
  lemma {:induction false} AsciiLowerAt(s: string, i: nat)
    requires i < |s|
    ensures |AsciiLower(s)| == |s|
    ensures AsciiLower(s)[i] as int == if 65 <= s[i] as int <= 90 then s[i] as int + 32 else s[i] as int
    decreases |s|
  {
    if |s| > 1 { AsciiLowerAt(s[1..], if i > 0 then i - 1 else 0); }
  }
}
