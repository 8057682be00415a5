/** Well-formed UTF-8, as `str::from_utf8` accepts it: the byte sequences of
    Table 3-7 of the Unicode Standard (no overlong forms, no surrogates,
    nothing above U+10FFFF). The cartridge title must pass this check. */
module Utf8 {

  predicate IsContinuation(b: bv8) {
    0x80 <= b <= 0xBF
  }

  /** Length in bytes of the well-formed character that starts `s`, or 0
      when `s` does not start with one. A character of two or more bytes
      has only continuation bytes after its first. */
  function FirstCharLength(s: seq<bv8>): (n: nat)
    requires |s| > 0
    ensures n <= |s| && n <= 4
    ensures n == 1 <==> s[0] < 0x80
    ensures forall k | 1 <= k < n :: IsContinuation(s[k])
  {
    var b := s[0];
    if b < 0x80 then 1
    else if 0xC2 <= b <= 0xDF then
      if |s| >= 2 && IsContinuation(s[1]) then 2 else 0
    else if 0xE0 <= b <= 0xEF then
      var lo: bv8 := if b == 0xE0 then 0xA0 else 0x80;
      var hi: bv8 := if b == 0xED then 0x9F else 0xBF;
      if |s| >= 3 && lo <= s[1] <= hi && IsContinuation(s[2]) then 3 else 0
    else if 0xF0 <= b <= 0xF4 then
      var lo: bv8 := if b == 0xF0 then 0x90 else 0x80;
      var hi: bv8 := if b == 0xF4 then 0x8F else 0xBF;
      if |s| >= 4 && lo <= s[1] <= hi && IsContinuation(s[2]) && IsContinuation(s[3]) then 4
      else 0
    else 0
  }

  /** The whole sequence splits into well-formed characters. */
  predicate Valid(s: seq<bv8>)
    decreases |s|
  {
    |s| == 0 || (FirstCharLength(s) > 0 && Valid(s[FirstCharLength(s)..]))
  }

  /** Seven-bit ASCII is valid UTF-8. */
  lemma {:induction false} AsciiIsValid(s: seq<bv8>)
    requires forall k | 0 <= k < |s| :: s[k] < 0x80
    ensures Valid(s)
    decreases |s|
  {
    if |s| > 0 {
      AsciiIsValid(s[1..]);
    }
  }

  /** Cutting trailing NUL bytes off valid UTF-8 leaves valid UTF-8: a NUL
      is a character of its own and never the inside of another one. */
  lemma {:induction false} ValidBeforeNuls(s: seq<bv8>, n: nat)
    requires Valid(s) && n <= |s|
    requires forall k | n <= k < |s| :: s[k] == 0
    ensures Valid(s[..n])
    decreases |s|
  {
    if n > 0 {
      var len := FirstCharLength(s);
      if len <= n {
        ValidBeforeNuls(s[len..], n - len);
        assert s[..n][len..] == s[len..][..n - len];
        assert s[..n][..len] == s[..len];
        assert FirstCharLength(s[..n]) == len;
      }
    }
  }
}
