/** The two JavaScript string built-ins the page's logic relies on:
    `String.prototype.trim` and (for ASCII letters) `String.prototype.toUpperCase`. */
module JsString {

  /** The characters `trim` removes: ECMAScript's WhiteSpace (tab, vertical tab,
      form feed, zero-width no-break space and every space separator) and its
      LineTerminator (line feed, carriage return, line and paragraph separator). */
  predicate IsTrimmable(c: char) {
    c == '\t' || c == '\n' || c == '\U{000B}' || c == '\U{000C}' || c == '\r'
    || c == ' ' || c == '\U{00A0}' || c == '\U{1680}'
    || ('\U{2000}' <= c <= '\U{200A}')
    || c == '\U{2028}' || c == '\U{2029}' || c == '\U{202F}' || c == '\U{205F}'
    || c == '\U{3000}' || c == '\U{FEFF}'
  }

  predicate AllTrimmable(s: string) {
    forall k :: 0 <= k < |s| ==> IsTrimmable(s[k])
  }

  /** The first position at or after `i` that holds a non-trimmable
      character, or the end of `s`. */
  function SkipForward(s: string, i: nat): (n: nat)
    requires i <= |s|
    ensures i <= n <= |s|
    ensures forall k :: i <= k < n ==> IsTrimmable(s[k])
    ensures n < |s| ==> !IsTrimmable(s[n])
    decreases |s| - i
  {
    if i == |s| || !IsTrimmable(s[i]) then i else SkipForward(s, i + 1)
  }

  /** The position just after the last non-trimmable character of
      `s[lo..j]`, or `lo` when there is none. */
  function SkipBackward(s: string, lo: nat, j: nat): (m: nat)
    requires lo <= j <= |s|
    ensures lo <= m <= j
    ensures forall k :: m <= k < j ==> IsTrimmable(s[k])
    ensures lo < m ==> !IsTrimmable(s[m - 1])
    decreases j
  {
    if j == lo || !IsTrimmable(s[j - 1]) then j else SkipBackward(s, lo, j - 1)
  }

  /** Where the trimmed text starts. */
  function TrimStart(s: string): nat {
    SkipForward(s, 0)
  }

  /** `String.prototype.trim`: `s` is a trimmable prefix, then `r`, then a
      trimmable suffix, and `r` neither starts nor ends with a trimmable character. */
  function Trim(s: string): (r: string)
    ensures TrimStart(s) + |r| <= |s|
    ensures r == s[TrimStart(s)..TrimStart(s) + |r|]
    ensures forall k :: 0 <= k < TrimStart(s) ==> IsTrimmable(s[k])
    ensures forall k :: TrimStart(s) + |r| <= k < |s| ==> IsTrimmable(s[k])
    ensures r != [] ==> !IsTrimmable(r[0]) && !IsTrimmable(r[|r| - 1])
  {
    var i := SkipForward(s, 0);
    s[i..SkipBackward(s, i, |s|)]
  }

  /** SkipForward is determined by what it promises. */
  lemma {:induction false} SkipForwardUnique(s: string, i: nat, n: nat)
    requires i <= n <= |s|
    requires forall k :: i <= k < n ==> IsTrimmable(s[k])
    requires n < |s| ==> !IsTrimmable(s[n])
    ensures SkipForward(s, i) == n
    decreases n - i
  {
    if i < n {
      SkipForwardUnique(s, i + 1, n);
    }
  }

  /** SkipBackward is determined by what it promises. */
  lemma {:induction false} SkipBackwardUnique(s: string, lo: nat, j: nat, m: nat)
    requires lo <= m <= j <= |s|
    requires forall k :: m <= k < j ==> IsTrimmable(s[k])
    requires lo < m ==> !IsTrimmable(s[m - 1])
    ensures SkipBackward(s, lo, j) == m
    decreases j - m
  {
    if m < j {
      SkipBackwardUnique(s, lo, j - 1, m);
    }
  }

  /** The split Trim promises is unique: whatever splits `s` into trimmable
      padding around a core that does not start or end with a trimmable
      character, that core is `Trim(s)`. */
  lemma TrimUnique(s: string, pre: string, core: string, post: string)
    requires s == pre + core + post
    requires AllTrimmable(pre) && AllTrimmable(post)
    requires core != [] ==> !IsTrimmable(core[0]) && !IsTrimmable(core[|core| - 1])
    ensures Trim(s) == core
  {
    var i, e := |pre|, |pre| + |core|;
    assert forall k :: 0 <= k < i ==> s[k] == pre[k];
    assert forall k :: i <= k < e ==> s[k] == core[k - i];
    assert forall k :: e <= k < |s| ==> s[k] == post[k - e];
    if core == [] {
      SkipForwardUnique(s, 0, |s|);
    } else {
      SkipForwardUnique(s, 0, i);
      SkipBackwardUnique(s, i, |s|, e);
    }
    assert s[i..e] == core;
  }

  /** Trimming removes characters and never introduces one. */
  lemma TrimKeepsOut(s: string, c: char)
    requires c !in s
    ensures c !in Trim(s)
  {
    var r := Trim(s);
    assert forall k :: 0 <= k < |r| ==> r[k] == s[TrimStart(s) + k];
  }

  /** Trimming a trimmed string changes nothing. */
  lemma TrimIdempotent(s: string)
    ensures Trim(Trim(s)) == Trim(s)
  {
    var r := Trim(s);
    assert r == [] + r + [];
    TrimUnique(r, [], r, []);
  }

  /** A string made only of trimmable characters trims to the empty string. */
  lemma TrimAllTrimmable(s: string)
    requires AllTrimmable(s)
    ensures Trim(s) == ""
  {
    assert s == s + [] + [];
    TrimUnique(s, s, [], []);
  }

  /** `toUpperCase` on one character, for ASCII letters only. */
  function UpperChar(c: char): char {
    if 'a' <= c <= 'z' then (c as int - 32) as char else c
  }

  predicate IsLowerAscii(c: char) {
    'a' <= c <= 'z'
  }

  /** `toUpperCase` restricted to ASCII case mapping. */
  function ToUpper(s: string): (r: string)
    ensures |r| == |s|
    ensures forall k :: 0 <= k < |s| ==> r[k] == UpperChar(s[k])
    ensures forall k :: 0 <= k < |r| ==> !IsLowerAscii(r[k])
  {
    seq(|s|, k requires 0 <= k < |s| => UpperChar(s[k]))
  }
}
