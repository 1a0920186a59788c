/** Types and string helpers shared by every module of the model. */
module Common {

  datatype Option<+T> = None | Some(value: T) {
    function GetOr(default: T): T {
      match this
      case Some(v) => v
      case None => default
    }
  }

  /** A Telegram user id. */
  type UserId = int

  /** A phone number as the user typed it, e.g. "+15551234567". */
  type Phone = string

  /** A file-system path. */
  type Path = string

  /** Python's `str.isspace` for one character: the characters `str.strip()`
      and `str.split()` treat as whitespace. */
  predicate IsSpace(c: char) {
    var n := c as int;
    (9 <= n <= 13) || (28 <= n <= 32) || n == 0x85 || n == 0xA0 || n == 0x1680
    || (0x2000 <= n <= 0x200A) || n == 0x2028 || n == 0x2029 || n == 0x202F
    || n == 0x205F || n == 0x3000
  }

  predicate AllSpace(s: string) {
    forall k :: 0 <= k < |s| ==> IsSpace(s[k])
  }

  /** True when `s` neither starts nor ends with whitespace. */
  predicate IsStripped(s: string) {
    s != [] ==> !IsSpace(s[0]) && !IsSpace(s[|s| - 1])
  }

  /** The number of whitespace characters `s` starts with. */
  function LeadingSpaces(s: string): (n: nat)
    ensures n <= |s|
    ensures forall i :: 0 <= i < n ==> IsSpace(s[i])
    ensures n < |s| ==> !IsSpace(s[n])
  {
    if s == [] || !IsSpace(s[0]) then 0
    else
      var n := LeadingSpaces(s[1..]);
      assert forall i :: 1 <= i < 1 + n ==> s[i] == s[1..][i - 1];
      1 + n
  }

  /** The number of whitespace characters `s` ends with. */
  function TrailingSpaces(s: string): (n: nat)
    ensures n <= |s|
    ensures forall i :: |s| - n <= i < |s| ==> IsSpace(s[i])
    ensures n < |s| ==> !IsSpace(s[|s| - n - 1])
  {
    if s == [] || !IsSpace(s[|s| - 1]) then 0
    else
      var n := TrailingSpaces(s[..|s| - 1]);
      assert forall i :: |s| - 1 - n <= i < |s| - 1 ==> s[i] == s[..|s| - 1][i];
      1 + n
  }

  /** Python's `s.lstrip()`: drops the leading whitespace and nothing else. */
  function StripStart(s: string): (r: string)
    ensures |r| <= |s| && r == s[|s| - |r|..]
    ensures AllSpace(s[..|s| - |r|])
    ensures r != [] ==> !IsSpace(r[0])
  {
    var n := LeadingSpaces(s);
    assert forall k :: 0 <= k < n ==> s[..n][k] == s[k];
    s[n..]
  }

  /** Python's `s.rstrip()`: drops the trailing whitespace and nothing else. */
  function StripEnd(s: string): (r: string)
    ensures |r| <= |s| && r == s[..|r|]
    ensures AllSpace(s[|r|..])
    ensures r != [] ==> !IsSpace(r[|r| - 1])
  {
    var n := TrailingSpaces(s);
    s[..|s| - n]
  }

  /** Python's `s.strip()`. */
  function Strip(s: string): (r: string)
    ensures IsStripped(r)
    ensures |r| <= |s|
  {
    var t := StripStart(s);
    var r := StripEnd(t);
    assert r != [] ==> r[0] == t[0];
    r
  }

  lemma {:induction false} LeadingSpacesOfPadded(pre: string, t: string)
    requires AllSpace(pre)
    requires t != [] ==> !IsSpace(t[0])
    ensures LeadingSpaces(pre + t) == |pre|
    decreases |pre|
  {
    if pre != [] {
      assert (pre + t)[1..] == pre[1..] + t;
      LeadingSpacesOfPadded(pre[1..], t);
    } else {
      assert pre + t == t;
    }
  }

  lemma {:induction false} TrailingSpacesOfPadded(t: string, post: string)
    requires AllSpace(post)
    requires t != [] ==> !IsSpace(t[|t| - 1])
    ensures TrailingSpaces(t + post) == |post|
    decreases |post|
  {
    if post != [] {
      var p := post[..|post| - 1];
      assert (t + post)[..|t + post| - 1] == t + p;
      TrailingSpacesOfPadded(t, p);
    } else {
      assert t + post == t;
    }
  }

  lemma StripStartOfSpaces(pre: string, t: string)
    requires AllSpace(pre)
    requires t != [] ==> !IsSpace(t[0])
    ensures StripStart(pre + t) == t
  {
    LeadingSpacesOfPadded(pre, t);
    assert (pre + t)[|pre|..] == t;
  }

  lemma StripEndOfSpaces(t: string, post: string)
    requires AllSpace(post)
    requires t != [] ==> !IsSpace(t[|t| - 1])
    ensures StripEnd(t + post) == t
  {
    TrailingSpacesOfPadded(t, post);
    assert (t + post)[..|t|] == t;
  }

  /** `strip()` removes exactly the whitespace padding around a stripped text. */
  lemma StripOfPadded(pre: string, t: string, post: string)
    requires AllSpace(pre) && AllSpace(post) && IsStripped(t)
    ensures Strip(pre + t + post) == t
  {
    assert pre + t + post == pre + (t + post);
    if t == [] {
      StripStartOfSpaces(pre + post, []);
      assert pre + post + [] == pre + post;
      assert StripStart(pre + post) == [];
    } else {
      StripStartOfSpaces(pre, t + post);
      StripEndOfSpaces(t, post);
    }
  }

  function Max(a: int, b: int): (r: int) { if a >= b then a else b }

  /** Sum of a sequence, peeled from the end so that appending one item is one step. */
  function Sum(xs: seq<int>): (r: int) {
    if xs == [] then 0 else Sum(xs[..|xs| - 1]) + xs[|xs| - 1]
  }
}
