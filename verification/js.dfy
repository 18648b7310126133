/** The JavaScript string built-ins the handlers use, on `seq<char>`. */
module Js {

  /** `s.lastIndexOf(c)` for a one-character search string: the last
      position holding `c`, or -1 when there is none. */
  function LastIndexOf(s: string, c: char): (i: int)
    ensures -1 <= i < |s|
    ensures i == -1 <==> c !in s
    ensures 0 <= i ==> s[i] == c && c !in s[i + 1..]
  {
    if |s| == 0 then -1
    else if s[|s| - 1] == c then |s| - 1
    else LastIndexOf(s[..|s| - 1], c)
  }

  /** The last occurrence is unique: any position holding `c` with no `c`
      after it is the one `lastIndexOf` reports. */
  lemma LastIndexOfAt(s: string, c: char, k: int)
    requires 0 <= k < |s| && s[k] == c && c !in s[k + 1..]
    ensures LastIndexOf(s, c) == k
  {
  }

  /** How `substring` brings an argument into range: negative becomes 0,
      past the end becomes the length. */
  function Clamp(n: int, len: nat): (m: nat)
    ensures m <= len
    ensures 0 <= n <= len ==> m == n
    ensures n < 0 ==> m == 0
  {
    if n < 0 then 0 else if n > len then len else n
  }

  /** `s.substring(start, end)`: both arguments are clamped into
      `[0, |s|]`, and when the first is the larger they are swapped. */
  function Substring(s: string, start: int, end: int): (r: string)
    ensures |r| <= |s|
    ensures 0 <= start <= end <= |s| ==> r == s[start..end]
    ensures 0 <= end <= start <= |s| ==> r == s[end..start]
    ensures end < 0 <= start <= |s| ==> r == s[..start]
  {
    var a, b := Clamp(start, |s|), Clamp(end, |s|);
    if a <= b then s[a..b] else s[b..a]
  }

  predicate IsUpper(c: char) {
    'A' <= c <= 'Z'
  }

  function LowerChar(c: char): (d: char)
    ensures !IsUpper(d)
    ensures !IsUpper(c) ==> d == c
  {
    if IsUpper(c) then (c as int + 32) as char else c
  }

  /** `s.toLowerCase()`, on the ASCII letters. */
  function ToLowerCase(s: string): (r: string)
    ensures |r| == |s|
    ensures forall i :: 0 <= i < |r| ==> !IsUpper(r[i])
    ensures forall i :: 0 <= i < |s| && !IsUpper(s[i]) ==> r[i] == s[i]
    ensures forall i :: 0 <= i < |s| && IsUpper(s[i]) ==> r[i] as int == s[i] as int + 32
  {
    seq(|s|, i requires 0 <= i < |s| => LowerChar(s[i]))
  }

  /** Lowercasing an already lowercased string changes nothing. */
  lemma ToLowerCaseIdempotent(s: string)
    ensures ToLowerCase(ToLowerCase(s)) == ToLowerCase(s)
  {
    var r := ToLowerCase(s);
    assert forall i :: 0 <= i < |r| ==> ToLowerCase(r)[i] == r[i];
  }
}
