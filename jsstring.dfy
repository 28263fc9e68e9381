/** The three JavaScript string methods the analysis route uses to cut a
    JSON object out of the model's reply: `indexOf` and `lastIndexOf` with
    a one-character needle, and `substring` with its clamping and swapping
    of bounds (ECMAScript, String.prototype.substring). */
module JsString {

  function Min(a: int, b: int): int { if a <= b then a else b }

  function Max(a: int, b: int): int { if a <= b then b else a }

  /** `indexOf`: the first position of `c` in `s`, or -1 when there is none. */
  function IndexOf(s: string, c: char): (r: int)
    ensures -1 <= r < |s|
    ensures r == -1 <==> c !in s
    ensures 0 <= r ==> s[r] == c && c !in s[..r]
  {
    if |s| == 0 then -1
    else if s[0] == c then 0
    else
      var k := IndexOf(s[1..], c);
      assert c in s ==> c in s[1..] by {
        if c in s { var j :| 0 <= j < |s| && s[j] == c; assert s[1..][j - 1] == c; }
      }
      if k == -1 then -1
      else
        assert s[..k + 1] == [s[0]] + s[1..][..k];
        k + 1
  }

  /** `lastIndexOf`: the last position of `c` in `s`, or -1 when there is none. */
  function LastIndexOf(s: string, c: char): (r: int)
    ensures -1 <= r < |s|
    ensures r == -1 <==> c !in s
    ensures 0 <= r ==> s[r] == c && c !in s[r + 1..]
  {
    if |s| == 0 then -1
    else if s[|s| - 1] == c then |s| - 1
    else
      var k := LastIndexOf(s[..|s| - 1], c);
      assert c in s ==> c in s[..|s| - 1] by {
        if c in s { var j :| 0 <= j < |s| && s[j] == c; assert s[..|s| - 1][j] == c; }
      }
      if k == -1 then -1
      else
        assert s[k + 1..] == s[..|s| - 1][k + 1..] + [s[|s| - 1]];
        k
  }

  /** An index of `c` with no earlier `c` is the one `indexOf` finds. */
  lemma IndexOfIsFirst(s: string, c: char, k: nat)
    requires k < |s| && s[k] == c && c !in s[..k]
    ensures IndexOf(s, c) == k
  {
  }

  /** An index of `c` with no later `c` is the one `lastIndexOf` finds. */
  lemma LastIndexOfIsLast(s: string, c: char, k: nat)
    requires k < |s| && s[k] == c && c !in s[k + 1..]
    ensures LastIndexOf(s, c) == k
  {
  }

  /** ToIntegerOrInfinity of an integer argument, clamped to [0, n]. */
  function Clamp(i: int, n: nat): (r: nat)
    ensures r <= n
    ensures 0 <= i <= n ==> r == i
    ensures i < 0 ==> r == 0
    ensures n < i ==> r == n
  {
    if i < 0 then 0 else if i > n then n else i
  }

  /** `substring(start, end)`: both bounds are clamped to the string, and a
      start beyond the end swaps the two. The result is the slice between
      the clamped smaller and the clamped larger bound. */
  function Substring(s: string, start: int, end: int): (r: string)
    ensures r == s[Clamp(Min(start, end), |s|)..Clamp(Max(start, end), |s|)]
  {
    var a := Clamp(start, |s|);
    var b := Clamp(end, |s|);
    if a <= b then s[a..b] else s[b..a]
  }

  /** Swapping the bounds never changes what `substring` returns. */
  lemma SubstringSymmetric(s: string, start: int, end: int)
    ensures Substring(s, start, end) == Substring(s, end, start)
  {
  }
}
