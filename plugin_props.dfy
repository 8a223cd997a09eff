/**
 * What the plugin hooks guarantee: the declaration search matches exactly
 * what the regular expression matches, `transform` replaces only the
 * leftmost empty `routes` declaration and keeps the rest of the file, the
 * declaration line of the example app's router file and of the test mock
 * are rewritten, and the virtual module serves the last route program.
 */
module PluginProps {
  import opened Options
  import opened JsStrings
  import opened Plugin
  import opened ConcreteCases
  import opened DeclMatch

  /** The router file is left alone exactly when the declaration matches nowhere. */
  lemma SpliceNoneWhenNoMatch(code: string, generated: string)
    ensures Splice(code, generated).None? <==> forall k :: 0 <= k <= |code| ==> DeclAt(code, k).None?
  {
    if FindDecl(code, 0).Some? {
      assert DeclAt(code, FindDecl(code, 0).value).Some?;
    }
  }

  /** The search finds the match that no earlier position has. */
  lemma FindDeclLeftmost(code: string, i: nat)
    requires DeclAt(code, i).Some?
    requires forall k :: 0 <= k < i ==> DeclAt(code, k).None?
    ensures FindDecl(code, 0) == Some(i)
  {
    var r := FindDecl(code, 0);
    if r.None? || r.value > i {
      assert false;
    } else if r.value < i {
      assert false;
    }
  }

  /** Between a `[` and the first non-space after it there is only white space. */
  lemma ListSpaces(code: string, p: nat, e: nat)
    requires p < |code| && 0 < e && e - 1 == SkipSpaces(code, p + 1)
    ensures forall k :: p < k < e - 1 ==> IsSpace(code[k])
  {
    SkippedAreSpaces(code, p + 1);
  }

  /** `[`, white space and `]` spanning `p` to `e`, as `SkipSpaces` sees them. */
  predicate Brackets(code: string, p: nat, e: nat) {
    p < e <= |code| && code[p] == '[' && code[e - 1] == ']' && e - 1 == SkipSpaces(code, p + 1)
  }

  /** A match's `[...]` spans `p` to `e` after the match start. */
  lemma DeclBrackets(code: string, i: nat, p: nat, e: nat)
    requires DeclAt(code, i) == Some((p, e))
    ensures i < p && Brackets(code, p, e)
  {
  }

  /** A match at `i` whose `[...]` spans `p` to `e` holds only white space between the brackets. */
  lemma DeclShape(code: string, i: nat, p: nat, e: nat)
    requires DeclAt(code, i) == Some((p, e))
    ensures i < p < e <= |code| && code[p] == '[' && code[e - 1] == ']'
    ensures forall k :: p < k < e - 1 ==> IsSpace(code[k])
  {
    DeclBrackets(code, i, p, e);
    ListSpaces(code, p, e);
  }

  /**
   * When the leftmost match starts at `i` and its `[...]` spans `p` to `e`,
   * the splice keeps the text before `p` and from `e` on and puts the
   * payload in between; the replaced `[...]` held only white space.
   */
  lemma SpliceReplacesFirstMatch(code: string, generated: string, i: nat, p: nat, e: nat)
    requires DeclAt(code, i) == Some((p, e))
    requires forall k :: 0 <= k < i ==> DeclAt(code, k).None?
    ensures i < p < e <= |code| && code[p] == '[' && code[e - 1] == ']'
    ensures forall k :: p < k < e - 1 ==> IsSpace(code[k])
    ensures Splice(code, generated) == Some(code[..p] + Payload(generated) + code[e..])
  {
    DeclShape(code, i, p, e);
    FindDeclLeftmost(code, i);
  }

  /** The declaration without a type annotation, as in the test mock. */
  lemma SpliceBareDeclaration(generated: string)
    ensures Splice("const routes = []", generated) == Some("const routes = " + Payload(generated))
  {
    var code := "const routes = []";
    assert code[..5] == "const";
    assert SkipSpaces(code, 5) == 6;
    assert code[6..12] == "routes";
    assert SkipSpaces(code, 12) == 13;
    assert SkipSpaces(code, 14) == 15;
    assert SkipSpaces(code, 16) == 16;
    assert DeclAt(code, 0) == Some((15, 17));
    SpliceReplacesFirstMatch(code, generated, 0, 15, 17);
    assert code[..15] == "const routes = ";
    assert code[17..] == [];
    assert code[..15] + Payload(generated) + code[17..] == "const routes = " + Payload(generated);
  }

  /** The characters of the example app's declaration that the search looks at. */
  lemma ExampleChars(head: string, tail: string, code: string)
    requires head == "const routes: " && tail == " = []" && code == head + ROUTE_TYPE + tail
    ensures |code| == 35 && WordAt(code, 0, "const") && WordAt(code, 6, "routes") && WordAt(code, 14, ROUTE_TYPE)
    ensures code[5] == ' ' && code[12] == ':' && code[13] == ' '
    ensures code[30] == ' ' && code[31] == '=' && code[32] == ' ' && code[33] == '[' && code[34] == ']'
  {
    assert code[..14] == head;
    assert head[..5] == "const" && head[6..12] == "routes";
    assert code[..30] == head + ROUTE_TYPE;
    assert code[30..] == tail;
  }

  /** The example app's declaration matches the regular expression, with its `[]` at 33. */
  lemma ExampleSpans(head: string, tail: string, code: string)
    requires head == "const routes: " && tail == " = []" && code == head + ROUTE_TYPE + tail
    ensures DeclAt(code, 0) == Some((33, 35))
  {
    ExampleChars(head, tail, code);
    assert DeclSpans(code, 0, 6, 12, 14, 30, 31, 33, 35);
    DeclAtComplete(code, 0, 33, 35);
  }

  /** The annotated declaration of the example app's router file. */
  lemma SpliceAnnotatedDeclaration(generated: string)
    ensures Splice("const routes: " + ROUTE_TYPE + " = []", generated) == Some("const routes: " + ROUTE_TYPE + " = " + Payload(generated))
  {
    var head, tail := "const routes: ", " = []";
    var code := head + ROUTE_TYPE + tail;
    ExampleSpans(head, tail, code);
    SpliceReplacesFirstMatch(code, generated, 0, 33, 35);
    assert code[..33] == head + ROUTE_TYPE + " = ";
    assert code[35..] == [];
    assert code[..33] + Payload(generated) + code[35..] == code[..33] + Payload(generated);
  }

  /** `resolveId` then `load` on a fresh plugin: the virtual module is the empty route list. */
  method VirtualModuleBeforeTransform(generated: string) returns (loaded: Option<string>)
    ensures loaded == Some(EMPTY_MODULE)
  {
    var plugin := new ConventionRoutesPlugin(generated);
    var id := ResolveId(VIRTUAL_ID);
    loaded := plugin.Load(id.value);
  }

  /**
   * A module other than the router file is returned unchanged (`null`), and
   * the router file's empty declaration receives the route program, which
   * the virtual module then serves.
   */
  method TransformThenLoad(generated: string) returns (other: Option<string>, router: Option<string>, loaded: Option<string>)
    requires generated != ""
    ensures other == None
    ensures router == Some("const routes = " + Payload(generated))
    ensures loaded == Some(generated)
  {
    var plugin := new ConventionRoutesPlugin(generated);
    RouterFileGuard();
    OtherModuleSkipped();
    other := plugin.Transform("const routes = []", "/src/other/file.ts");
    router := plugin.Transform("const routes = []", "/src/router/index.ts");
    SpliceBareDeclaration(generated);
    loaded := plugin.Load(RESOLVED_VIRTUAL_ID);
  }
}
