/**
 * The Ruby String methods the key helpers are built from: `start_with?`,
 * `end_with?`, `include?`, `gsub(pattern, '')` with a literal pattern and with
 * the pattern `%r{https?://}`, and the two slash-trimming idioms.
 */
module RubyString {

  /** `s.start_with?(p)` */
  predicate StartsWith(s: string, p: string) {
    |p| <= |s| && s[..|p|] == p
  }

  /** `s.end_with?(p)` */
  predicate EndsWith(s: string, p: string) {
    |p| <= |s| && s[|s| - |p|..] == p
  }

  /** `s.include?(p)`: `p` occurs somewhere in `s`. */
  predicate Contains(s: string, p: string)
    decreases |s|
  {
    StartsWith(s, p) || (|s| > 0 && Contains(s[1..], p))
  }

  /**
   * `s.gsub(p, '')` for a literal `p`: scans left to right and drops every
   * non-overlapping occurrence. An empty pattern leaves `s` as it is.
   */
  function RemoveAll(s: string, p: string): (r: string)
    ensures |r| <= |s|
    decreases |s|
  {
    if |p| == 0 then s
    else if StartsWith(s, p) then RemoveAll(s[|p|..], p)
    else if |s| == 0 then s
    else [s[0]] + RemoveAll(s[1..], p)
  }

  const HTTP := "http://"
  const HTTPS := "https://"

  /** `s` mentions a web protocol prefix. */
  predicate HasProtocol(s: string) {
    Contains(s, HTTP) || Contains(s, HTTPS)
  }

  /** `s.gsub(%r{https?://}, '')`: drops every `http://` and `https://`, left to right. */
  function StripProtocol(s: string): (r: string)
    ensures |r| <= |s|
    decreases |s|
  {
    if StartsWith(s, HTTPS) then StripProtocol(s[|HTTPS|..])
    else if StartsWith(s, HTTP) then StripProtocol(s[|HTTP|..])
    else if |s| == 0 then s
    else [s[0]] + StripProtocol(s[1..])
  }

  /** `s.start_with?('/') ? s[1..s.length] : s` */
  function DropLeadingSlash(s: string): (r: string)
    ensures StartsWith(s, "/") ==> r == s[1..]
    ensures !StartsWith(s, "/") ==> r == s
  {
    if StartsWith(s, "/") then s[1..] else s
  }

  /**
   * `s.end_with?('/') ? s[0..s.length - 2] : s`. On the one-character string
   * "/" the range is `0..-1`, which Ruby reads as the whole string, so a lone
   * "/" is kept.
   */
  function DropTrailingSlash(s: string): (r: string)
    ensures EndsWith(s, "/") && |s| > 1 ==> r == s[..|s| - 1]
    ensures !EndsWith(s, "/") || |s| == 1 ==> r == s
  {
    if EndsWith(s, "/") && |s| > 1 then s[..|s| - 1] else s
  }

  /** `s.downcase`, for the ASCII letters. */
  function Downcase(s: string): (r: string)
    ensures |r| == |s|
    ensures forall i :: 0 <= i < |s| ==> r[i] == LowerChar(s[i])
  {
    if |s| == 0 then [] else [LowerChar(s[0])] + Downcase(s[1..])
  }

  function LowerChar(c: char): (r: char)
    ensures !('A' <= r <= 'Z')
    ensures !('A' <= c <= 'Z') ==> r == c
  {
    if 'A' <= c <= 'Z' then (c as int - 'A' as int + 'a' as int) as char else c
  }

  /** The characters `String#strip` removes: null, tab, line feed, vertical tab, form feed, carriage return, space. */
  predicate IsStripped(c: char) {
    c == '\0' || c == '\t' || c == '\n' || c == '\U{000B}' || c == '\U{000C}' || c == '\r' || c == ' '
  }

  /** `s.strip`: the longest middle part that neither starts nor ends with a stripped character. */
  function Strip(s: string): (r: string)
    ensures |r| == 0 || (!IsStripped(r[0]) && !IsStripped(r[|r| - 1]))
    ensures exists i, j :: 0 <= i <= j <= |s| && r == s[i..j]
  {
    var i := StripFrom(s, 0);
    var j := StripTo(s, i, |s|);
    assert 0 <= i <= j <= |s| && s[i..j] == s[i..j];
    s[i..j]
  }

  /** The first index from `i` on whose character is not stripped, or `|s|`. */
  function StripFrom(s: string, i: nat): (r: nat)
    requires i <= |s|
    ensures i <= r <= |s|
    ensures r == |s| || !IsStripped(s[r])
    ensures forall k :: i <= k < r ==> IsStripped(s[k])
    decreases |s| - i
  {
    if i < |s| && IsStripped(s[i]) then StripFrom(s, i + 1) else i
  }

  /** The end, at most `j` and at least `lo`, after which every character is stripped. */
  function StripTo(s: string, lo: nat, j: nat): (r: nat)
    requires lo <= j <= |s|
    ensures lo <= r <= j
    ensures r == lo || !IsStripped(s[r - 1])
    ensures forall k :: r <= k < j ==> IsStripped(s[k])
    decreases j - lo
  {
    if j > lo && IsStripped(s[j - 1]) then StripTo(s, lo, j - 1) else j
  }

  // ---------------------------------------------------------------------------
  // Facts about RemoveAll and StripProtocol
  // ---------------------------------------------------------------------------

  /** A pattern that does not occur is not removed. */
  lemma {:induction false} RemoveAllAbsent(s: string, p: string)
    requires !Contains(s, p)
    ensures RemoveAll(s, p) == s
    decreases |s|
  {
    if |p| != 0 && |s| > 0 {
      RemoveAllAbsent(s[1..], p);
    }
  }

  /** Text that holds no `p` holds no longer pattern that starts with `p`. */
  lemma {:induction false} AbsentExtended(s: string, p: string, q: string)
    requires !Contains(s, p)
    ensures !Contains(s, p + q)
    decreases |s|
  {
    if |s| > 0 {
      AbsentExtended(s[1..], p, q);
    }
  }

  /** A leading occurrence is removed and the scan resumes right after it. */
  lemma RemoveAllLeading(p: string, s: string)
    requires |p| > 0
    ensures RemoveAll(p + s, p) == RemoveAll(s, p)
  {
    assert (p + s)[..|p|] == p;
    assert (p + s)[|p|..] == s;
  }

  /** Every character of an occurrence is a character of the text. */
  lemma {:induction false} ContainsChar(s: string, p: string, i: nat)
    requires Contains(s, p) && i < |p|
    ensures p[i] in s
    decreases |s|
  {
    if StartsWith(s, p) {
      assert s[i] == p[i];
    } else {
      ContainsChar(s[1..], p, i);
      assert p[i] in s[1..];
    }
  }

  /**
   * No occurrence of `p` can run across a separator character that `p`
   * does not contain.
   */
  lemma {:induction false} AbsentAroundSeparator(a: string, c: char, b: string, p: string)
    requires |p| > 0 && c !in p
    requires !Contains(a, p) && !Contains(b, p)
    ensures !Contains(a + [c] + b, p)
    decreases |a|
  {
    var s := a + [c] + b;
    assert !StartsWith(s, p) by {
      if |p| <= |a| {
        assert s[..|p|] == a[..|p|];
      } else {
        assert s[|a|] == c && c != p[|a|];
      }
    }
    if |a| == 0 {
      assert s[1..] == b;
    } else {
      assert !Contains(a[1..], p);
      AbsentAroundSeparator(a[1..], c, b, p);
      assert s[1..] == a[1..] + [c] + b;
    }
  }

  /** Text without a protocol prefix is left alone by StripProtocol. */
  lemma {:induction false} StripProtocolAbsent(s: string)
    requires !HasProtocol(s)
    ensures StripProtocol(s) == s
    decreases |s|
  {
    if |s| > 0 {
      assert !StartsWith(s, HTTPS) && !StartsWith(s, HTTP);
      StripProtocolAbsent(s[1..]);
    }
  }

  /** Text without a slash has no protocol prefix. */
  lemma NoSlashNoProtocol(s: string)
    requires '/' !in s
    ensures !HasProtocol(s)
  {
    if Contains(s, HTTP) {
      ContainsChar(s, HTTP, 5);
    }
    if Contains(s, HTTPS) {
      ContainsChar(s, HTTPS, 6);
    }
  }

  /**
   * `a + "/" + b` has no protocol prefix when `a` has no slash and `b` neither
   * starts with a slash nor has a protocol prefix: the `//` of a protocol
   * would have to use the separator and a neighbouring slash.
   */
  lemma {:induction false} NoProtocolAroundSlash(a: string, b: string)
    requires '/' !in a && !StartsWith(b, "/") && !HasProtocol(b)
    ensures !HasProtocol(a + "/" + b)
    decreases |a|
  {
    var s := a + "/" + b;
    NoSlashNoProtocol(a);
    ProtocolNotAtHead(a, b, HTTP, 5);
    ProtocolNotAtHead(a, b, HTTPS, 6);
    if |a| == 0 {
      assert s[1..] == b;
    } else {
      assert '/' !in a[1..];
      NoProtocolAroundSlash(a[1..], b);
      assert s[1..] == a[1..] + "/" + b;
    }
  }

  /** Helper for NoProtocolAroundSlash: the text does not start with `p`. */
  lemma ProtocolNotAtHead(a: string, b: string, p: string, k: nat)
    requires (p == HTTP && k == 5) || (p == HTTPS && k == 6)
    requires '/' !in a && !StartsWith(b, "/")
    ensures !StartsWith(a + "/" + b, p)
  {
    var s := a + "/" + b;
    if |a| < k {
      assert s[|a|] == '/' != p[|a|];
    } else if |a| == k {
      assert !StartsWith(b, "/");
      assert |b| == 0 || s[k + 1] != p[k + 1];
    } else {
      assert s[k] != p[k];
    }
  }
}
