/**
 * The string operations the components rely on: `String.prototype.trim`,
 * `toLowerCase` (on ASCII letters) and `includes`.
 */
module Text {

  /** The characters `trim` removes: ECMAScript's WhiteSpace and LineTerminator characters. */
  predicate IsSpace(c: char) {
    || c == '\t' || c == '\U{000B}' || c == '\U{000C}' || c == ' '
    || c == '\U{00A0}' || c == '\U{FEFF}' || c == '\U{1680}'
    || ('\U{2000}' <= c <= '\U{200A}')
    || c == '\U{202F}' || c == '\U{205F}' || c == '\U{3000}'
    || c == '\n' || c == '\r' || c == '\U{2028}' || c == '\U{2029}'
  }

  /** Empty or made only of whitespace: the strings for which `!s.trim()` holds. */
  predicate IsBlank(s: string) {
    forall i :: 0 <= i < |s| ==> IsSpace(s[i])
  }

  /** The index of the first non-whitespace character at or after `i`, or `|s|` when there is none. */
  function SkipSpaces(s: string, i: nat): (k: nat)
    requires i <= |s|
    ensures i <= k <= |s|
    ensures forall j :: i <= j < k ==> IsSpace(s[j])
    ensures k < |s| ==> !IsSpace(s[k])
    decreases |s| - i
  {
    if i < |s| && IsSpace(s[i]) then SkipSpaces(s, i + 1) else i
  }

  /** The end of `s[lo..hi]` once its trailing whitespace is dropped. */
  function DropTrailing(s: string, lo: nat, hi: nat): (m: nat)
    requires lo <= hi <= |s|
    ensures lo <= m <= hi
    ensures forall j :: m <= j < hi ==> IsSpace(s[j])
    ensures m > lo ==> !IsSpace(s[m - 1])
    decreases hi
  {
    if hi > lo && IsSpace(s[hi - 1]) then DropTrailing(s, lo, hi - 1) else hi
  }

  /**
   * `String.prototype.trim`: `s` with its leading and trailing whitespace
   * removed. What is removed on either side is blank, and the non-space
   * ends of the result show that nothing more was removed.
   */
  function Trim(s: string): (r: string)
    ensures exists k, m :: 0 <= k <= m <= |s| && r == s[k..m] && IsBlank(s[..k]) && IsBlank(s[m..])
    ensures r == [] <==> IsBlank(s)
    ensures r != [] ==> !IsSpace(r[0]) && !IsSpace(r[|r| - 1])
  {
    var k := SkipSpaces(s, 0);
    var m := DropTrailing(s, k, |s|);
    assert IsBlank(s[..k]) by {
      forall j | 0 <= j < k ensures IsSpace(s[..k][j]) {
        assert s[..k][j] == s[j];
      }
    }
    assert IsBlank(s[m..]) by {
      forall j | 0 <= j < |s| - m ensures IsSpace(s[m..][j]) {
        assert s[m..][j] == s[m + j];
      }
    }
    assert IsBlank(s) ==> k == |s|;
    assert k < |s| ==> m > k;
    s[k..m]
  }

  /**
   * The result of `trim` is determined by its contract: when `s` is a
   * blank prefix, then `r`, then a blank suffix, and `r` is empty or has
   * non-space ends, `trim` returns `r`.
   */
  lemma TrimUnique(pre: string, r: string, post: string)
    requires IsBlank(pre) && IsBlank(post)
    requires r == [] || (!IsSpace(r[0]) && !IsSpace(r[|r| - 1]))
    ensures Trim(pre + r + post) == r
  {
    var s := pre + r + post;
    var k := SkipSpaces(s, 0);
    var m := DropTrailing(s, k, |s|);
    assert forall j :: 0 <= j < |pre| ==> s[j] == pre[j];
    assert forall j :: 0 <= j < |post| ==> s[|pre| + |r| + j] == post[j];
    if r == [] {
      assert IsBlank(s) by {
        forall j | 0 <= j < |s| ensures IsSpace(s[j]) {
          if j >= |pre| { assert s[j] == post[j - |pre|]; }
        }
      }
    } else {
      assert s[|pre|] == r[0] && s[|pre| + |r| - 1] == r[|r| - 1];
      assert k == |pre|;
      assert m == |pre| + |r|;
      assert s[k..m] == r;
    }
  }

  /** Cutting `s` at `k` and `m` and regrouping the pieces with `pre` and `post`. */
  lemma Regroup(pre: string, s: string, post: string, k: nat, m: nat)
    requires k <= m <= |s|
    ensures pre + s + post == (pre + s[..k]) + s[k..m] + (s[m..] + post)
  {
    assert s == s[..k] + s[k..m] + s[m..];
  }

  /** Two blank strings make a blank string. */
  lemma BlankAppend(x: string, y: string)
    requires IsBlank(x) && IsBlank(y)
    ensures IsBlank(x + y)
  {
    forall j | 0 <= j < |x + y| ensures IsSpace((x + y)[j]) {
      if j < |x| { assert (x + y)[j] == x[j]; } else { assert (x + y)[j] == y[j - |x|]; }
    }
  }

  /** Trimming a string that neither starts nor ends with whitespace changes nothing. */
  lemma TrimUnpadded(s: string)
    requires s == [] || (!IsSpace(s[0]) && !IsSpace(s[|s| - 1]))
    ensures Trim(s) == s
  {
    assert [] + s + [] == s;
    TrimUnique([], s, []);
  }

  /** Trimming twice is trimming once. */
  lemma TrimIdempotent(s: string)
    ensures Trim(Trim(s)) == Trim(s)
  {
    TrimUnpadded(Trim(s));
  }

  /** Whitespace before and after a string, of any kind and amount on each side, does not change what `trim` returns. */
  lemma TrimPadded(pre: string, s: string, post: string)
    requires IsBlank(pre) && IsBlank(post)
    ensures Trim(pre + s + post) == Trim(s)
  {
    var k, m :| 0 <= k <= m <= |s| && Trim(s) == s[k..m] && IsBlank(s[..k]) && IsBlank(s[m..]);
    var a := pre + s[..k];
    var b := s[m..] + post;
    BlankAppend(pre, s[..k]);
    BlankAppend(s[m..], post);
    Regroup(pre, s, post, k, m);
    TrimUnique(a, Trim(s), b);
  }

  /** `toLowerCase` on one character (ASCII letters only). */
  function LowerChar(c: char): (d: char)
    ensures 'A' <= c <= 'Z' ==> d as int == c as int + 32
    ensures !('A' <= c <= 'Z') ==> d == c
  {
    if 'A' <= c <= 'Z' then (c as int + 32) as char else c
  }

  /** `toLowerCase`, character by character. */
  function ToLower(s: string): (r: string)
    ensures |r| == |s|
    ensures forall i :: 0 <= i < |s| ==> r[i] == LowerChar(s[i])
  {
    if s == [] then [] else [LowerChar(s[0])] + ToLower(s[1..])
  }

  /** A lower-cased string contains no upper-case ASCII letter, so lower-casing it again changes nothing. */
  lemma ToLowerIdempotent(s: string)
    ensures forall i :: 0 <= i < |s| ==> !('A' <= ToLower(s)[i] <= 'Z')
    ensures ToLower(ToLower(s)) == ToLower(s)
  {
  }

  /** `s` has no upper-case ASCII letter. */
  predicate NoUpper(s: string) {
    s == [] || (!('A' <= s[0] <= 'Z') && NoUpper(s[1..]))
  }

  /** Lower-casing a string without upper-case ASCII letters changes nothing. */
  lemma {:induction false} ToLowerNoUpper(s: string)
    requires NoUpper(s)
    ensures ToLower(s) == s
  {
    if s != [] {
      ToLowerNoUpper(s[1..]);
    }
  }

  /** `t` occurs in `s` starting at index `i`. */
  predicate OccursAt(s: string, t: string, i: int) {
    0 <= i && i + |t| <= |s| && s[i..i + |t|] == t
  }

  /** `s.includes(t)`: a left-to-right scan for the first position at which `t` occurs. */
  function Includes(s: string, t: string): bool
    decreases |s|
  {
    if |t| > |s| then false
    else if s[..|t|] == t then true
    else Includes(s[1..], t)
  }

  /** The scan finds `t` exactly when `t` occurs somewhere in `s`. */
  lemma {:induction false} IncludesIffOccurs(s: string, t: string)
    ensures Includes(s, t) <==> exists i :: OccursAt(s, t, i)
    decreases |s|
  {
    if |t| > |s| {
    } else if s[..|t|] == t {
      assert OccursAt(s, t, 0);
    } else {
      IncludesIffOccurs(s[1..], t);
      if Includes(s[1..], t) {
        var i :| OccursAt(s[1..], t, i);
        assert s[i + 1..i + 1 + |t|] == s[1..][i..i + |t|];
        assert OccursAt(s, t, i + 1);
      }
      forall i | 1 <= i && OccursAt(s, t, i) ensures OccursAt(s[1..], t, i - 1) {
        assert s[1..][i - 1..i - 1 + |t|] == s[i..i + |t|];
      }
      assert !OccursAt(s, t, 0);
    }
  }

  /** Every string includes the empty string. */
  lemma IncludesEmpty(s: string)
    ensures Includes(s, [])
  {
  }

  /** `s.toLowerCase().includes(q.toLowerCase())`, the search test every list filter uses. */
  predicate IncludesIgnoringCase(s: string, q: string) {
    Includes(ToLower(s), ToLower(q))
  }

  /** The empty query is found in every string, which is why an empty search keeps every item. */
  lemma EmptyQueryMatches(s: string)
    ensures IncludesIgnoringCase(s, "")
  {
    IncludesEmpty(ToLower(s));
  }
}
