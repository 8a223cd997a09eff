/**
 * The Vite plugin object around the route builder: `transform` splices the
 * generated route program into the app's router file and remembers it in
 * `routesCode`; `resolveId` and `load` serve it as a virtual module.
 *
 * The generated program text (the template instantiated with the plugin's
 * options) is a constructor argument: what that program computes when the
 * bundler runs it is modelled by `RouteTree.Build`.
 */
module Plugin {
  import opened Options
  import opened JsStrings

  const VIRTUAL_ID := "virtual:convention-routes"
  const RESOLVED_VIRTUAL_ID := "\0virtual:convention-routes"
  const EMPTY_MODULE := "export default [];"
  const ROUTE_TYPE := "RouteRecordRaw[]"

  /** The `transform` guard: only the router registration file is rewritten. */
  predicate IsRouterFile(id: string) {
    Includes(id, "router/index") && (EndsWith(id, ".js") || EndsWith(id, ".ts"))
  }

  /** Position after the run of `\s` characters starting at `i`. */
  function SkipSpaces(code: string, i: nat): (j: nat)
    requires i <= |code|
    ensures i <= j <= |code|
    ensures j == |code| || !IsSpace(code[j])
    decreases |code| - i
  {
    if i < |code| && IsSpace(code[i]) then SkipSpaces(code, i + 1) else i
  }

  /** Every character that `SkipSpaces` skips is white space. */
  lemma {:induction false} SkippedAreSpaces(code: string, i: nat)
    requires i <= |code|
    ensures forall k :: i <= k < SkipSpaces(code, i) ==> IsSpace(code[k])
    decreases |code| - i
  {
    if i < |code| && IsSpace(code[i]) {
      SkippedAreSpaces(code, i + 1);
    }
  }

  /** `code` holds `word` at position `i`. */
  predicate WordAt(code: string, i: nat, word: string) {
    i + |word| <= |code| && code[i..i + |word|] == word
  }

  /**
   * The optional group `(?::\s*RouteRecordRaw\[\])?\s*` at `b`, where the
   * spaces after `routes` end: the position after it, or `None` when a `:`
   * stands there without the route type after it.
   */
  function AfterAnnotation(code: string, b: nat): (c: Option<nat>)
    requires b <= |code|
    ensures c.Some? ==> b <= c.value <= |code|
    ensures (b == |code| || code[b] != ':') ==> c == Some(b)
  {
    if b < |code| && code[b] == ':' then
      var t := SkipSpaces(code, b + 1);
      if WordAt(code, t, ROUTE_TYPE) then Some(SkipSpaces(code, t + |ROUTE_TYPE|)) else None
    else Some(b)
  }

  /**
   * `=\s*\[\s*\]` at `c`: where the `[` stands and the end of the match.
   */
  function EmptyListAt(code: string, c: nat): (r: Option<(nat, nat)>)
    requires c <= |code|
    ensures r.Some? ==> c < r.value.0 < r.value.1 <= |code| && code[c] == '='
    ensures r.Some? ==> code[r.value.0] == '[' && code[r.value.1 - 1] == ']'
    ensures r.Some? ==> r.value.1 - 1 == SkipSpaces(code, r.value.0 + 1)
  {
    if c == |code| || code[c] != '=' then None
    else
      var p := SkipSpaces(code, c + 1);
      if p == |code| || code[p] != '[' then None
      else
        var q := SkipSpaces(code, p + 1);
        if q == |code| || code[q] != ']' then None
        else Some((p, q + 1))
  }

  /**
   * The regular expression
   * `(const\s+routes\s*(?::\s*RouteRecordRaw\[\])?\s*=\s*)\[\s*\]` tried at
   * position `i`: on a match, the end of the captured declaration prefix
   * (where `[` stands) and the end of the match. Every `\s` run is greedy
   * and is followed by a non-space token, so the match is unique; when a
   * `:` follows `routes`, only the optional group can consume it.
   */
  function DeclAt(code: string, i: nat): (r: Option<(nat, nat)>)
    ensures r.Some? ==> i < r.value.0 < r.value.1 <= |code|
    ensures r.Some? ==> WordAt(code, i, "const") && code[r.value.0] == '[' && code[r.value.1 - 1] == ']'
    ensures r.Some? ==> r.value.1 - 1 == SkipSpaces(code, r.value.0 + 1)
  {
    if !WordAt(code, i, "const") then None
    else
      var a := SkipSpaces(code, i + 5);
      if a == i + 5 then None else RoutesAt(code, a)
  }

  /** `routes\s*` at `a`, then the rest of the declaration. */
  function RoutesAt(code: string, a: nat): (r: Option<(nat, nat)>)
    requires a <= |code|
    ensures r.Some? ==> a < r.value.0 < r.value.1 <= |code|
    ensures r.Some? ==> code[r.value.0] == '[' && code[r.value.1 - 1] == ']'
    ensures r.Some? ==> r.value.1 - 1 == SkipSpaces(code, r.value.0 + 1)
  {
    if !WordAt(code, a, "routes") then None else AssignmentAt(code, SkipSpaces(code, a + 6))
  }

  /** The optional annotation at `b`, then `=\s*\[\s*\]`. */
  function AssignmentAt(code: string, b: nat): (r: Option<(nat, nat)>)
    requires b <= |code|
    ensures r.Some? ==> b < r.value.0 < r.value.1 <= |code|
    ensures r.Some? ==> code[r.value.0] == '[' && code[r.value.1 - 1] == ']'
    ensures r.Some? ==> r.value.1 - 1 == SkipSpaces(code, r.value.0 + 1)
  {
    var c := AfterAnnotation(code, b);
    if c.None? then None else EmptyListAt(code, c.value)
  }

  /** Every character of `code[x..y]` is white space. */
  ghost predicate Spaces(code: string, x: nat, y: nat)
    decreases y - x
  {
    x <= y <= |code| && (x == y || (IsSpace(code[x]) && Spaces(code, x + 1, y)))
  }

  /**
   * The pieces of a declaration match at `i`, as the regular expression
   * reads it: `const` at `i`, white space up to `routes` at `a`, white space
   * up to `b`, then either nothing (`c == b`) or `:`, white space up to the
   * route type at `t` ending at `c`; white space up to `=` at `d`, white
   * space up to `[` at `p`, white space up to `]` just before `e`.
   */
  ghost predicate DeclSpans(code: string, i: nat, a: nat, b: nat, t: nat, c: nat, d: nat, p: nat, e: nat) {
    && WordAt(code, i, "const")
    && i + 5 < a && Spaces(code, i + 5, a) && WordAt(code, a, "routes")
    && Spaces(code, a + 6, b)
    && (c == b || (b < |code| && code[b] == ':' && Spaces(code, b + 1, t) && WordAt(code, t, ROUTE_TYPE) && c == t + |ROUTE_TYPE|))
    && Spaces(code, c, d) && d < |code| && code[d] == '='
    && Spaces(code, d + 1, p) && p < |code| && code[p] == '['
    && 0 < e && Spaces(code, p + 1, e - 1) && e - 1 < |code| && code[e - 1] == ']'
  }

  /** The declaration matches at `i` with its `[...]` spanning `p` to `e`. */
  ghost predicate DeclMatches(code: string, i: nat, p: nat, e: nat) {
    exists a, b, t, c, d :: DeclSpans(code, i, a, b, t, c, d, p, e)
  }

  /** The leftmost position at or after `from` where the declaration matches. */
  function FindDecl(code: string, from: nat): (r: Option<nat>)
    requires from <= |code|
    ensures r.Some? ==> from <= r.value < |code| && DeclAt(code, r.value).Some?
    ensures r.Some? ==> forall k :: from <= k < r.value ==> DeclAt(code, k).None?
    ensures r.None? ==> forall k :: from <= k <= |code| ==> DeclAt(code, k).None?
    decreases |code| - from
  {
    if DeclAt(code, from).Some? then Some(from)
    else if from == |code| then None
    else FindDecl(code, from + 1)
  }

  /**
   * `routesImportCode.trim().replace(/;$/, '')`: the trimmed program with at
   * most one trailing `;` taken off.
   */
  function Payload(generated: string): (r: string)
    ensures r + (if EndsWith(Trim(generated), ";") then ";" else "") == Trim(generated)
    ensures r == [] || !IsSpace(r[0])
  {
    var t := Trim(generated);
    if EndsWith(t, ";") then
      assert t == t[..|t| - 1] + ";";
      t[..|t| - 1]
    else t
  }

  /**
   * `code.replace(routesRegex, (_, p1) => p1 + payload)` when the regex
   * matches, `null` otherwise: the first declaration's `[...]` is replaced
   * by the payload and the declaration prefix is kept.
   */
  function Splice(code: string, generated: string): Option<string> {
    match FindDecl(code, 0)
    case None => None
    case Some(i) =>
      var (p, e) := DeclAt(code, i).value;
      Some(code[..p] + Payload(generated) + code[e..])
  }

  /** `resolveId`: only the virtual module's id is claimed. */
  function ResolveId(id: string): (r: Option<string>)
    ensures r.Some? <==> id == VIRTUAL_ID
    ensures r.Some? ==> r.value == RESOLVED_VIRTUAL_ID
  {
    if id == VIRTUAL_ID then Some(RESOLVED_VIRTUAL_ID) else None
  }

  /** The plugin closure and the variables it keeps between hook calls. */
  class ConventionRoutesPlugin {
    /** The route program generated from the options (`routesImportCode`). */
    const routesImportCode: string
    /** The route program of the last transformed router file; empty before any. */
    var routesCode: string
    /** The project root recorded by `configResolved`. */
    var projectRoot: string

    constructor(routesImportCode: string)
      ensures this.routesImportCode == routesImportCode
      ensures routesCode == "" && projectRoot == ""
    {
      this.routesImportCode := routesImportCode;
      routesCode := "";
      projectRoot := "";
    }

    /** `configResolved`: records the project root. */
    method ConfigResolved(root: string)
      modifies this
      ensures projectRoot == root && routesCode == old(routesCode)
    {
      projectRoot := root;
    }

    /**
     * `transform`: a router file has its route declaration spliced (`None`
     * when there is none) and its program remembered, even when nothing is
     * spliced; any other module is left alone.
     */
    method Transform(code: string, id: string) returns (r: Option<string>)
      modifies this
      ensures projectRoot == old(projectRoot)
      ensures IsRouterFile(id) ==> routesCode == routesImportCode && r == Splice(code, routesImportCode)
      ensures !IsRouterFile(id) ==> routesCode == old(routesCode) && r == None
    {
      if Includes(id, "router/index") && (EndsWith(id, ".js") || EndsWith(id, ".ts")) {
        routesCode := routesImportCode;
        r := Splice(code, routesImportCode);
      } else {
        r := None;
      }
    }

    /** `load`: the virtual module serves the last route program, or an empty list. */
    function Load(id: string): (r: Option<string>)
      reads this
      ensures r.Some? <==> id == RESOLVED_VIRTUAL_ID
      ensures r.Some? ==> r.value == (if routesCode != "" then routesCode else EMPTY_MODULE)
    {
      if id == RESOLVED_VIRTUAL_ID then Some(if routesCode != "" then routesCode else EMPTY_MODULE) else None
    }
  }
}
