/**
 * The declaration search against the regular expression it implements:
 * `DeclAt` finds a match at a position exactly when the text there reads
 * `const`, white space, `routes`, optional white space, an optional
 * `: RouteRecordRaw[]`, optional white space, `=`, and an empty list.
 */
module DeclMatch {
  import opened Options
  import opened JsStrings
  import opened Plugin

  /** `SkipSpaces` stops after a run of white space. */
  lemma {:induction false} SkippedSpaces(code: string, x: nat)
    requires x <= |code|
    ensures Spaces(code, x, SkipSpaces(code, x))
    decreases |code| - x
  {
    if x < |code| && IsSpace(code[x]) {
      SkippedSpaces(code, x + 1);
    }
  }

  /** A run of white space that ends before a non-space is skipped exactly. */
  lemma {:induction false} SkipSpacesTo(code: string, x: nat, y: nat)
    requires Spaces(code, x, y) && (y == |code| || !IsSpace(code[y]))
    ensures SkipSpaces(code, x) == y
    decreases y - x
  {
    if x < y {
      SkipSpacesTo(code, x + 1, y);
    }
  }

  /** Two adjacent runs of white space form one. */
  lemma {:induction false} SpacesJoin(code: string, x: nat, y: nat, z: nat)
    requires Spaces(code, x, y) && Spaces(code, y, z)
    ensures Spaces(code, x, z)
    decreases y - x
  {
    if x < y {
      SpacesJoin(code, x + 1, y, z);
    }
  }

  /** A match at `i` starts with `const` and white space, and goes on with `RoutesAt` after them. */
  lemma DeclAtParts(code: string, i: nat, p: nat, e: nat)
    requires DeclAt(code, i) == Some((p, e))
    ensures WordAt(code, i, "const") && i + 5 < SkipSpaces(code, i + 5) && RoutesAt(code, SkipSpaces(code, i + 5)) == Some((p, e))
  {
  }

  /** A match of `RoutesAt` at `a` starts with `routes` and goes on with the assignment after the white space. */
  lemma RoutesAtParts(code: string, a: nat, p: nat, e: nat)
    requires a <= |code| && RoutesAt(code, a) == Some((p, e))
    ensures WordAt(code, a, "routes") && AssignmentAt(code, SkipSpaces(code, a + 6)) == Some((p, e))
  {
  }

  /** A match of `AssignmentAt` at `b`: the optional annotation up to `d`, then the empty list. */
  lemma AssignmentAtParts(code: string, b: nat, p: nat, e: nat) returns (d: nat)
    requires b <= |code| && AssignmentAt(code, b) == Some((p, e))
    ensures AfterAnnotation(code, b) == Some(d) && EmptyListAt(code, d) == Some((p, e))
  {
    d := AfterAnnotation(code, b).value;
  }

  /** The annotation `:\s*RouteRecordRaw[]\s*` that `AfterAnnotation` consumes from `b` to `d`. */
  lemma AnnotationSpans(code: string, b: nat, t: nat, d: nat)
    requires b < |code| && code[b] == ':' && t == SkipSpaces(code, b + 1) && AfterAnnotation(code, b) == Some(d)
    ensures Spaces(code, b + 1, t) && WordAt(code, t, ROUTE_TYPE) && Spaces(code, t + |ROUTE_TYPE|, d)
  {
    SkippedSpaces(code, b + 1);
    SkippedSpaces(code, t + |ROUTE_TYPE|);
  }

  /** The tail `=\s*\[\s*\]` that `EmptyListAt` finds at `d`. */
  lemma EmptyListSpans(code: string, d: nat, p: nat, e: nat)
    requires d <= |code| && EmptyListAt(code, d) == Some((p, e))
    ensures d < |code| && code[d] == '=' && Spaces(code, d + 1, p) && p < |code| && code[p] == '['
    ensures 0 < e && Spaces(code, p + 1, e - 1) && e - 1 < |code| && code[e - 1] == ']'
  {
    SkippedSpaces(code, d + 1);
    SkippedSpaces(code, p + 1);
  }

  /** The white space `SkipSpaces` passes after `const` and after `routes`. */
  lemma HeadSpans(code: string, i: nat, a: nat, b: nat)
    requires WordAt(code, i, "const") && i + 5 < a && a == SkipSpaces(code, i + 5) && WordAt(code, a, "routes")
    requires b == SkipSpaces(code, a + 6)
    ensures Spaces(code, i + 5, a) && Spaces(code, a + 6, b)
  {
    SkippedSpaces(code, i + 5);
    SkippedSpaces(code, a + 6);
  }

  /** The pieces of a declaration without annotation make up a match. */
  lemma MatchBare(code: string, i: nat, a: nat, b: nat, d: nat, p: nat, e: nat)
    requires WordAt(code, i, "const") && i + 5 < a && Spaces(code, i + 5, a) && WordAt(code, a, "routes") && Spaces(code, a + 6, b)
    requires (b == |code| || code[b] != ':') && AfterAnnotation(code, b) == Some(d)
    requires d < |code| && code[d] == '=' && Spaces(code, d + 1, p) && p < |code| && code[p] == '['
    requires 0 < e && Spaces(code, p + 1, e - 1) && e - 1 < |code| && code[e - 1] == ']'
    ensures DeclMatches(code, i, p, e)
  {
    assert DeclSpans(code, i, a, b, b, b, b, p, e);
  }

  /** The pieces of an annotated declaration make up a match. */
  lemma MatchTyped(code: string, i: nat, a: nat, b: nat, t: nat, d: nat, p: nat, e: nat)
    requires WordAt(code, i, "const") && i + 5 < a && Spaces(code, i + 5, a) && WordAt(code, a, "routes") && Spaces(code, a + 6, b)
    requires b < |code| && code[b] == ':' && Spaces(code, b + 1, t) && WordAt(code, t, ROUTE_TYPE) && Spaces(code, t + |ROUTE_TYPE|, d)
    requires d < |code| && code[d] == '=' && Spaces(code, d + 1, p) && p < |code| && code[p] == '['
    requires 0 < e && Spaces(code, p + 1, e - 1) && e - 1 < |code| && code[e - 1] == ']'
    ensures DeclMatches(code, i, p, e)
  {
    assert DeclSpans(code, i, a, b, t, t + |ROUTE_TYPE|, d, p, e);
  }

  /** The positions `DeclAt` passes through make up a match of the regular expression. */
  lemma MatchFromParts(code: string, i: nat, a: nat, b: nat, d: nat, p: nat, e: nat)
    requires WordAt(code, i, "const") && i + 5 < a && a == SkipSpaces(code, i + 5) && WordAt(code, a, "routes")
    requires b == SkipSpaces(code, a + 6) && AfterAnnotation(code, b) == Some(d)
    requires EmptyListAt(code, d) == Some((p, e))
    ensures DeclMatches(code, i, p, e)
  {
    EmptyListSpans(code, d, p, e);
    HeadSpans(code, i, a, b);
    if b < |code| && code[b] == ':' {
      var t := SkipSpaces(code, b + 1);
      AnnotationSpans(code, b, t, d);
      MatchTyped(code, i, a, b, t, d, p, e);
    } else {
      MatchBare(code, i, a, b, d, p, e);
    }
  }

  /** Every result of `DeclAt` is a match of the regular expression. */
  lemma DeclAtSound(code: string, i: nat, p: nat, e: nat)
    requires DeclAt(code, i) == Some((p, e))
    ensures DeclMatches(code, i, p, e)
  {
    DeclAtParts(code, i, p, e);
    var a := SkipSpaces(code, i + 5);
    RoutesAtParts(code, a, p, e);
    var b := SkipSpaces(code, a + 6);
    var d := AssignmentAtParts(code, b, p, e);
    MatchFromParts(code, i, a, b, d, p, e);
  }

  /** After `routes`, a `:` with white space and `RouteRecordRaw[]` after it is consumed with the spaces that follow. */
  lemma AfterAnnotationTyped(code: string, b: nat, t: nat)
    requires b < |code| && code[b] == ':' && Spaces(code, b + 1, t) && WordAt(code, t, ROUTE_TYPE)
    ensures AfterAnnotation(code, b) == Some(SkipSpaces(code, t + |ROUTE_TYPE|))
  {
    assert code[t] == code[t..t + |ROUTE_TYPE|][0] == 'R';
    SkipSpacesTo(code, b + 1, t);
  }

  /** The white space after `const` ends where `routes` starts. */
  lemma HeadSkip(code: string, i: nat, a: nat)
    requires Spaces(code, i + 5, a) && WordAt(code, a, "routes")
    ensures SkipSpaces(code, i + 5) == a
  {
    assert code[a] == code[a..a + 6][0] == 'r';
    SkipSpacesTo(code, i + 5, a);
  }

  /** Without annotation, the white space after `routes` runs up to the `=` at `d`. */
  lemma BareSkip(code: string, a: nat, b: nat, d: nat)
    requires Spaces(code, a + 6, b) && Spaces(code, b, d) && d < |code| && code[d] == '='
    ensures AfterAnnotation(code, SkipSpaces(code, a + 6)) == Some(d)
  {
    SpacesJoin(code, a + 6, b, d);
    SkipSpacesTo(code, a + 6, d);
  }

  /** With the annotation, white space, `:`, white space, the route type and white space run up to the `=` at `d`. */
  lemma TypedSkip(code: string, a: nat, b: nat, t: nat, d: nat)
    requires Spaces(code, a + 6, b) && b < |code| && code[b] == ':' && Spaces(code, b + 1, t) && WordAt(code, t, ROUTE_TYPE)
    requires Spaces(code, t + |ROUTE_TYPE|, d) && d < |code| && code[d] == '='
    ensures AfterAnnotation(code, SkipSpaces(code, a + 6)) == Some(d)
  {
    SkipSpacesTo(code, a + 6, b);
    AfterAnnotationTyped(code, b, t);
    SkipSpacesTo(code, t + |ROUTE_TYPE|, d);
  }

  /** The white space after `routes`, the optional annotation and the white space after it end at the `=` at `d`. */
  lemma AnnotationSkip(code: string, a: nat, b: nat, t: nat, c: nat, d: nat)
    requires Spaces(code, a + 6, b)
    requires c == b || (b < |code| && code[b] == ':' && Spaces(code, b + 1, t) && WordAt(code, t, ROUTE_TYPE) && c == t + |ROUTE_TYPE|)
    requires Spaces(code, c, d) && d < |code| && code[d] == '='
    ensures AfterAnnotation(code, SkipSpaces(code, a + 6)) == Some(d)
  {
    if c == b {
      BareSkip(code, a, b, d);
    } else {
      TypedSkip(code, a, b, t, d);
    }
  }

  /** The white space around the empty list's `[` ends at the brackets. */
  lemma ListSkip(code: string, d: nat, p: nat, e: nat)
    requires Spaces(code, d + 1, p) && p < |code| && code[p] == '['
    requires 0 < e && Spaces(code, p + 1, e - 1) && e - 1 < |code| && code[e - 1] == ']'
    ensures SkipSpaces(code, d + 1) == p && SkipSpaces(code, p + 1) == e - 1
  {
    SkipSpacesTo(code, d + 1, p);
    SkipSpacesTo(code, p + 1, e - 1);
  }

  /** `AssignmentAt` from the annotation's end and the empty list after it. */
  lemma AssignmentAtFrom(code: string, b: nat, d: nat, p: nat, e: nat)
    requires b <= |code| && AfterAnnotation(code, b) == Some(d) && EmptyListAt(code, d) == Some((p, e))
    ensures AssignmentAt(code, b) == Some((p, e))
  {
  }

  /** `RoutesAt` from `routes` and the assignment after the white space. */
  lemma RoutesAtFrom(code: string, a: nat, p: nat, e: nat)
    requires WordAt(code, a, "routes") && AssignmentAt(code, SkipSpaces(code, a + 6)) == Some((p, e))
    ensures RoutesAt(code, a) == Some((p, e))
  {
  }

  /** `DeclAt` from `const`, white space up to `a` and the `RoutesAt` match there. */
  lemma DeclAtFrom(code: string, i: nat, a: nat, p: nat, e: nat)
    requires WordAt(code, i, "const") && i + 5 < a && SkipSpaces(code, i + 5) == a && RoutesAt(code, a) == Some((p, e))
    ensures DeclAt(code, i) == Some((p, e))
  {
  }

  /** `EmptyListAt` once the `[` and `]` are known to stand after white space. */
  lemma EmptyListFrom(code: string, d: nat, p: nat, e: nat)
    requires d < |code| && code[d] == '=' && SkipSpaces(code, d + 1) == p && p < |code| && code[p] == '['
    requires 0 < e && SkipSpaces(code, p + 1) == e - 1 && e - 1 < |code| && code[e - 1] == ']'
    ensures EmptyListAt(code, d) == Some((p, e))
  {
  }

  /** Every match of the regular expression at `i` is what `DeclAt` finds. */
  lemma DeclAtComplete(code: string, i: nat, p: nat, e: nat)
    requires DeclMatches(code, i, p, e)
    ensures DeclAt(code, i) == Some((p, e))
  {
    var a: nat, b: nat, t: nat, c: nat, d: nat :| DeclSpans(code, i, a, b, t, c, d, p, e);
    HeadSkip(code, i, a);
    AnnotationSkip(code, a, b, t, c, d);
    ListSkip(code, d, p, e);
    EmptyListFrom(code, d, p, e);
    AssignmentAtFrom(code, SkipSpaces(code, a + 6), d, p, e);
    RoutesAtFrom(code, a, p, e);
    DeclAtFrom(code, i, a, p, e);
  }

  /**
   * `DeclAt` finds exactly the matches of the regular expression: at most
   * one per position, with `routes` after `const` and white space, an
   * optional `: RouteRecordRaw[]`, and `=` before the empty list.
   */
  lemma DeclAtExact(code: string, i: nat, p: nat, e: nat)
    ensures DeclAt(code, i) == Some((p, e)) <==> DeclMatches(code, i, p, e)
  {
    if DeclAt(code, i) == Some((p, e)) {
      DeclAtSound(code, i, p, e);
    }
    if DeclMatches(code, i, p, e) {
      DeclAtComplete(code, i, p, e);
    }
  }
}
