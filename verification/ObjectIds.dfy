/** The database ids a request can name. */
module ObjectIds {
  import opened Options

  predicate HexDigit(c: char) {
    '0' <= c <= '9' || 'a' <= c <= 'f' || 'A' <= c <= 'F'
  }

  function LowerHex(s: string): string {
    if s == "" then ""
    else [if 'A' <= s[0] <= 'F' then (s[0] as int + 32) as char else s[0]] + LowerHex(s[1..])
  }

  /** The document an id string names: ObjectId ignores the case of its hex digits. */
  function Canonical(rawId: string): Option<string> {
    if |rawId| == 24 && forall i :: 0 <= i < |rawId| ==> HexDigit(rawId[i]) then Some(LowerHex(rawId)) else None
  }

  /** Lower case, digit by digit. */
  lemma {:induction false} LowerHexChars(s: string, i: nat)
    requires i < |s|
    ensures |LowerHex(s)| == |s|
    ensures LowerHex(s)[i] == if 'A' <= s[i] <= 'F' then (s[i] as int - 'A' as int + 'a' as int) as char else s[i]
  {
    if i > 0 {
      LowerHexChars(s[1..], i - 1);
    } else if |s| > 1 {
      LowerHexChars(s[1..], 0);
    }
  }
}
