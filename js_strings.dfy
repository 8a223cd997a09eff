/** A value that may be absent: a JavaScript property that is missing or `undefined`. */
module Options {
  datatype Option<+T> = None | Some(value: T)
}

/**
 * The JavaScript string operations the route builder relies on, over
 * `seq<char>`. Each regular expression the builder applies is written out
 * here as the function that computes its replacement.
 */
module JsStrings {

  /** `s.startsWith(p)` */
  predicate StartsWith(s: string, p: string) {
    |p| <= |s| && s[..|p|] == p
  }

  /** `s.endsWith(p)` */
  predicate EndsWith(s: string, p: string) {
    |p| <= |s| && s[|s| - |p|..] == p
  }

  /** `s.includes(p)`: `p` occurs somewhere in `s`. */
  predicate Includes(s: string, p: string)
    decreases |s|
  {
    StartsWith(s, p) || (|s| > 0 && Includes(s[1..], p))
  }

  /** `s.replace(/^p/, '')` for a pattern `p` without metacharacters. */
  function DropPrefix(s: string, p: string): (r: string)
    ensures StartsWith(s, p) ==> p + r == s
    ensures !StartsWith(s, p) ==> r == s
  {
    if StartsWith(s, p) then s[|p|..] else s
  }

  /** `s.replace(/p$/, '')` for a pattern `p` without metacharacters. */
  function DropSuffix(s: string, p: string): (r: string)
    ensures EndsWith(s, p) ==> r + p == s
    ensures !EndsWith(s, p) ==> r == s
  {
    if EndsWith(s, p) then s[..|s| - |p|] else s
  }

  /** `s.replace(/a/g, b)` for single characters `a` and `b`. */
  function ReplaceChar(s: string, a: char, b: char): (r: string)
    ensures |r| == |s|
    ensures forall i :: 0 <= i < |s| ==> r[i] == (if s[i] == a then b else s[i])
  {
    if s == [] then [] else [if s[0] == a then b else s[0]] + ReplaceChar(s[1..], a, b)
  }

  /** `s.replace(/a/g, '')` for a single character `a`. */
  function RemoveChar(s: string, a: char): (r: string)
    ensures a !in r
    ensures forall c :: c in r ==> c in s
    ensures a !in s ==> r == s
  {
    if s == [] then [] else (if s[0] == a then [] else [s[0]]) + RemoveChar(s[1..], a)
  }

  /** The class `\w` of a JavaScript regular expression without the `u` flag. */
  predicate IsWordChar(c: char) {
    ('a' <= c <= 'z') || ('A' <= c <= 'Z') || ('0' <= c <= '9') || c == '_'
  }

  /** Length of the longest prefix of `s` made of `\w` characters. */
  function WordPrefixLen(s: string): (n: nat)
    ensures n <= |s|
    ensures forall k :: 0 <= k < n ==> IsWordChar(s[k])
    ensures n < |s| ==> !IsWordChar(s[n])
  {
    if |s| > 0 && IsWordChar(s[0]) then 1 + WordPrefixLen(s[1..]) else 0
  }

  /** The pattern `\[(\w+)\]` matches at the start of `s`. */
  predicate ParamAt(s: string) {
    |s| > 0 && s[0] == '[' &&
    var n := WordPrefixLen(s[1..]);
    0 < n && n + 1 < |s| && s[n + 1] == ']'
  }

  /**
   * `s.replace(/\[(\w+)\]/g, ':$1')`: a left-to-right scan that rewrites each
   * bracketed parameter `[name]` into `:name` and copies everything else.
   */
  function RewriteParams(s: string): string
    decreases |s|
  {
    if s == [] then []
    else if ParamAt(s) then
      var n := WordPrefixLen(s[1..]);
      ":" + s[1..n + 1] + RewriteParams(s[n + 2..])
    else [s[0]] + RewriteParams(s[1..])
  }

  /** No position of `s` starts a `[name]` parameter. */
  predicate ParamFree(s: string)
    decreases |s|
  {
    s == [] || (!ParamAt(s) && ParamFree(s[1..]))
  }

  /**
   * The white space that `\s` matches and that `String.prototype.trim`
   * removes: WhiteSpace and LineTerminator of ECMAScript.
   */
  predicate IsSpace(c: char) {
    c == ' ' || c == '\t' || c == '\n' || c == '\r' || c == '\U{000B}' || c == '\U{000C}' ||
    c == '\U{00A0}' || c == '\U{1680}' || ('\U{2000}' <= c <= '\U{200A}') ||
    c == '\U{2028}' || c == '\U{2029}' || c == '\U{202F}' || c == '\U{205F}' ||
    c == '\U{3000}' || c == '\U{FEFF}'
  }

  /** `s.trimStart()` */
  function TrimStart(s: string): (r: string)
    ensures |r| <= |s| && r == s[|s| - |r|..]
    ensures r == [] || !IsSpace(r[0])
    ensures forall k :: 0 <= k < |s| - |r| ==> IsSpace(s[k])
  {
    if |s| > 0 && IsSpace(s[0]) then TrimStart(s[1..]) else s
  }

  /** `s.trimEnd()` */
  function TrimEnd(s: string): (r: string)
    ensures |r| <= |s| && r == s[..|r|]
    ensures r == [] || !IsSpace(r[|r| - 1])
    ensures forall k :: |r| <= k < |s| ==> IsSpace(s[k])
  {
    if |s| > 0 && IsSpace(s[|s| - 1]) then TrimEnd(s[..|s| - 1]) else s
  }

  /** `s.trim()` */
  function Trim(s: string): string {
    TrimEnd(TrimStart(s))
  }

  /**
   * `s.replace(/^-|-$/g, '')`: one leading `-` and one trailing `-` are
   * removed; a lone `-` is matched once, by the first alternative.
   */
  function TrimDashes(s: string): string {
    var t := if StartsWith(s, "-") then s[1..] else s;
    if EndsWith(t, "-") then t[..|t| - 1] else t
  }

  // ---------------------------------------------------------------------
  // Properties of the parameter rewrite
  // ---------------------------------------------------------------------

  /** Text without `[` is left as it is. */
  lemma {:induction false} RewriteWithoutBrackets(s: string)
    requires '[' !in s
    ensures RewriteParams(s) == s
    decreases |s|
  {
    if s != [] {
      assert s[0] in s;
      assert forall c :: c in s[1..] ==> c in s;
      RewriteWithoutBrackets(s[1..]);
    }
  }

  /** Every character of the output comes from the input, except `:` that replaces a `[`. */
  lemma {:induction false} RewriteChars(s: string, c: char)
    requires c in RewriteParams(s)
    ensures c in s || (c == ':' && '[' in s)
    decreases |s|
  {
    if s != [] {
      if ParamAt(s) {
        var n := WordPrefixLen(s[1..]);
        var rest := s[n + 2..];
        assert RewriteParams(s) == ":" + s[1..n + 1] + RewriteParams(rest);
        if c in RewriteParams(rest) {
          RewriteChars(rest, c);
          assert forall x :: x in rest ==> x in s;
        } else if c != ':' {
          assert c in s[1..n + 1];
          assert forall x :: x in s[1..n + 1] ==> x in s;
        } else {
          assert s[0] == '[';
        }
      } else {
        assert RewriteParams(s) == [s[0]] + RewriteParams(s[1..]);
        if c != s[0] {
          RewriteChars(s[1..], c);
          assert forall x :: x in s[1..] ==> x in s;
        }
      }
    }
  }

  /** A rewrite of text that starts with no word character starts with no word character either. */
  lemma RewriteNonWordHead(t: string)
    requires t != [] && !IsWordChar(t[0])
    ensures RewriteParams(t) != [] && !IsWordChar(RewriteParams(t)[0])
    ensures RewriteParams(t)[0] == ']' <==> t[0] == ']'
  {
    if ParamAt(t) {
      var n := WordPrefixLen(t[1..]);
      assert RewriteParams(t) == ":" + t[1..n + 1] + RewriteParams(t[n + 2..]);
    } else {
      assert RewriteParams(t) == [t[0]] + RewriteParams(t[1..]);
    }
  }

  /** The word run at the head of `t` and the character after it survive the rewrite. */
  ghost predicate KeepsWordRun(t: string) {
    var n := WordPrefixLen(t);
    var r := RewriteParams(t);
    && WordPrefixLen(r) == n
    && r[..n] == t[..n]
    && (n < |t| <==> n < |r|)
    && (n < |t| ==> (r[n] == ']' <==> t[n] == ']'))
  }

  /** A word character in front keeps the word run of the rest. */
  lemma RewriteWordHead(t: string)
    requires t != [] && IsWordChar(t[0]) && KeepsWordRun(t[1..])
    ensures KeepsWordRun(t)
  {
    assert !ParamAt(t);
    assert RewriteParams(t) == [t[0]] + RewriteParams(t[1..]);
  }

  /** The word run at the head of the output, and the character after it, are those of the input. */
  lemma {:induction false} RewriteKeepsWordRun(t: string)
    ensures KeepsWordRun(t)
    decreases |t|
  {
    if t != [] {
      if IsWordChar(t[0]) {
        RewriteKeepsWordRun(t[1..]);
        RewriteWordHead(t);
      } else {
        RewriteNonWordHead(t);
      }
    }
  }

  /** Word characters in front of parameter-free text keep it parameter-free. */
  lemma {:induction false} WordsThenParamFree(w: string, x: string)
    requires forall k :: 0 <= k < |w| ==> IsWordChar(w[k])
    requires ParamFree(x)
    ensures ParamFree(w + x)
    decreases |w|
  {
    if w != [] {
      assert (w + x)[1..] == w[1..] + x;
      WordsThenParamFree(w[1..], x);
    } else {
      assert w + x == x;
    }
  }

  /** A parameter rewritten to `:name` in front of parameter-free text leaves no `[name]`. */
  lemma ParamFreeAfterParam(s: string)
    requires ParamAt(s)
    requires ParamFree(RewriteParams(s[WordPrefixLen(s[1..]) + 2..]))
    ensures ParamFree(RewriteParams(s))
  {
    var n := WordPrefixLen(s[1..]);
    var rest := RewriteParams(s[n + 2..]);
    var out := RewriteParams(s);
    WordsThenParamFree(s[1..n + 1], rest);
    assert out == ":" + (s[1..n + 1] + rest);
    assert out[1..] == s[1..n + 1] + rest;
  }

  /** A character that starts no parameter, in front of a parameter-free rewrite, leaves no `[name]`. */
  lemma ParamFreeAfterChar(s: string)
    requires s != [] && !ParamAt(s)
    requires ParamFree(RewriteParams(s[1..]))
    ensures ParamFree(RewriteParams(s))
  {
    var t := s[1..];
    var out := RewriteParams(s);
    assert out == [s[0]] + RewriteParams(t);
    assert out[1..] == RewriteParams(t);
    if s[0] == '[' {
      RewriteKeepsWordRun(t);
    }
  }

  /** The rewrite leaves no `[name]` behind. */
  lemma {:induction false} RewriteIsParamFree(s: string)
    ensures ParamFree(RewriteParams(s))
    decreases |s|
  {
    if s != [] {
      if ParamAt(s) {
        RewriteIsParamFree(s[WordPrefixLen(s[1..]) + 2..]);
        ParamFreeAfterParam(s);
      } else {
        RewriteIsParamFree(s[1..]);
        ParamFreeAfterChar(s);
      }
    }
  }

  /** Parameter-free text is a fixed point of the rewrite. */
  lemma {:induction false} RewriteParamFree(s: string)
    requires ParamFree(s)
    ensures RewriteParams(s) == s
    decreases |s|
  {
    if s != [] {
      RewriteParamFree(s[1..]);
    }
  }

  /** The longest word run of a prefix is that of the whole text when it ends inside the prefix. */
  lemma {:induction false} WordPrefixOfPrefix(u: string, m: nat)
    requires m <= |u| && WordPrefixLen(u[..m]) < m
    ensures WordPrefixLen(u) == WordPrefixLen(u[..m])
    decreases m
  {
    if 0 < m && IsWordChar(u[0]) {
      assert u[..m][1..] == u[1..][..m - 1];
      WordPrefixOfPrefix(u[1..], m - 1);
    }
  }

  /** Every prefix of parameter-free text is parameter-free. */
  lemma {:induction false} ParamFreePrefix(s: string, k: nat)
    requires ParamFree(s) && k <= |s|
    ensures ParamFree(s[..k])
    decreases |s|
  {
    if k > 0 {
      var p := s[..k];
      if ParamAt(p) {
        var n := WordPrefixLen(p[1..]);
        assert p[1..] == s[1..][..k - 1];
        WordPrefixOfPrefix(s[1..], k - 1);
        assert false;
      }
      assert p[1..] == s[1..][..k - 1];
      ParamFreePrefix(s[1..], k - 1);
    }
  }

  /** `s` cannot include `p` when `p` has a character that `s` lacks. */
  lemma {:induction false} IncludesNeedsChar(s: string, p: string, c: char)
    requires c in p && c !in s
    ensures !Includes(s, p)
    decreases |s|
  {
    assert !StartsWith(s, p) by {
      if |p| <= |s| {
        var i :| 0 <= i < |p| && p[i] == c;
        assert s[..|p|][i] == s[i];
        assert s[..|p|][i] != p[i];
      }
    }
    if |s| > 0 {
      assert forall d :: d in s[1..] ==> d in s;
      IncludesNeedsChar(s[1..], p, c);
    }
  }

  /** A first character other than `[` is copied as it is. */
  lemma RewriteCopiesHead(s: string)
    requires s != [] && s[0] != '['
    ensures RewriteParams(s) == [s[0]] + RewriteParams(s[1..])
  {
  }

  /** Text without `[` before the rest is copied as it is. */
  lemma {:induction false} RewriteAfterPlainText(a: string, b: string)
    requires '[' !in a
    ensures RewriteParams(a + b) == a + RewriteParams(b)
    decreases |a|
  {
    if a != [] {
      var ab := a + b;
      assert ab[0] == a[0] && a[0] in a;
      assert ab[1..] == a[1..] + b;
      RewriteCopiesHead(ab);
      assert forall d :: d in a[1..] ==> d in a;
      RewriteAfterPlainText(a[1..], b);
      assert [a[0]] + a[1..] == a;
    } else {
      assert a + b == b;
    }
  }

  /** A run of `\w` characters in front adds its length to the `\w` prefix. */
  lemma {:induction false} WordPrefixOfWords(w: string, x: string)
    requires forall k :: 0 <= k < |w| ==> IsWordChar(w[k])
    ensures WordPrefixLen(w + x) == |w| + WordPrefixLen(x)
    decreases |w|
  {
    if w != [] {
      assert (w + x)[0] == w[0];
      assert (w + x)[1..] == w[1..] + x;
      WordPrefixOfWords(w[1..], x);
    } else {
      assert w + x == x;
    }
  }

  /** A leading parameter `[w]` becomes `:w`, and the scan goes on after its `]`. */
  lemma RewriteParamHead(w: string, b: string)
    requires w != [] && forall k :: 0 <= k < |w| ==> IsWordChar(w[k])
    ensures RewriteParams("[" + w + "]" + b) == ":" + w + RewriteParams(b)
  {
    var s := "[" + w + "]" + b;
    assert s[1..] == w + ("]" + b);
    WordPrefixOfWords(w, "]" + b);
    assert WordPrefixLen("]" + b) == 0;
    assert s[|w| + 1] == ']';
    assert s[1..|w| + 1] == w;
    assert s[|w| + 2..] == b;
  }

  /** Replacing a character that does not occur changes nothing. */
  lemma ReplaceCharAbsent(s: string, a: char, b: char)
    requires a !in s
    ensures ReplaceChar(s, a, b) == s
  {
    assert forall i :: 0 <= i < |s| ==> s[i] != a;
  }

  /** Replacing a character distributes over concatenation. */
  lemma {:induction false} ReplaceCharConcat(x: string, y: string, a: char, b: char)
    ensures ReplaceChar(x + y, a, b) == ReplaceChar(x, a, b) + ReplaceChar(y, a, b)
    decreases |x|
  {
    if x != [] {
      assert (x + y)[1..] == x[1..] + y;
      ReplaceCharConcat(x[1..], y, a, b);
    } else {
      assert x + y == y;
    }
  }

  /** Removing a character distributes over concatenation. */
  lemma {:induction false} RemoveCharConcat(a: string, b: string, c: char)
    ensures RemoveChar(a + b, c) == RemoveChar(a, c) + RemoveChar(b, c)
    decreases |a|
  {
    if a != [] {
      assert (a + b)[1..] == a[1..] + b;
      RemoveCharConcat(a[1..], b, c);
    } else {
      assert a + b == b;
    }
  }

  /** Rewriting twice is rewriting once. */
  lemma RewriteIdempotent(s: string)
    ensures RewriteParams(RewriteParams(s)) == RewriteParams(s)
  {
    RewriteIsParamFree(s);
    RewriteParamFree(RewriteParams(s));
  }
}
