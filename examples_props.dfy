/**
 * Concrete cases of the route builder and of the `transform` guard: how
 * the pages of the example app are classified, processed, named and
 * nested, and which module ids the guard lets through.
 */
module ConcreteCases {
  import opened Options
  import opened JsStrings
  import opened RoutePaths
  import opened Plugin

  /** `users/index.vue` becomes `/users/`: the trailing `index` goes, its `/` stays. */
  lemma IndexPageKeepsSlash()
    ensures ProcessedPath("users/index") == "users/"
  {
    assert "users/index"[6..] == "index";
    assert DropSuffix("users/index", "index") == "users/";
    RewriteWithoutBrackets("users/");
    assert !EndsWith("users/", "/index");
  }

  /** One trailing `-` is trimmed from a name that does not start with `-`. */
  lemma TrimTrailingDash(w: string)
    requires w != [] && w[0] != '-'
    ensures TrimDashes(w + "-") == w
  {
    var s := w + "-";
    assert s[..1] == [w[0]];
    assert s[|s| - 1..] == "-";
    assert s[..|s| - 1] == w;
  }

  /** The directory index page `<w>/index.vue` is named `<w>`. */
  lemma DirectoryName(w: string)
    requires w != [] && w[0] != '-' && '/' !in w && ':' !in w
    ensures RouteName(w + "/") == w
  {
    ReplaceCharConcat(w, "/", '/', '-');
    ReplaceCharAbsent(w, '/', '-');
    assert ReplaceChar("/", '/', '-') == "-";
    RemoveCharConcat(w, "-", ':');
    TrimTrailingDash(w);
  }

  lemma DashedDynamic(w: string, v: string)
    requires '/' !in w && '/' !in v
    ensures ReplaceChar(w + "/" + ":" + v + "/", '/', '-') == w + "-" + ":" + v + "-"
  {
    ReplaceCharConcat(w + "/" + ":" + v, "/", '/', '-');
    ReplaceCharConcat(w + "/" + ":", v, '/', '-');
    ReplaceCharConcat(w + "/", ":", '/', '-');
    ReplaceCharConcat(w, "/", '/', '-');
    ReplaceCharAbsent(w, '/', '-');
    ReplaceCharAbsent(v, '/', '-');
    assert ReplaceChar("/", '/', '-') == "-";
    assert ReplaceChar(":", '/', '-') == ":";
  }

  lemma BareDynamic(w: string, v: string)
    requires ':' !in w && ':' !in v
    ensures RemoveChar(w + "-" + ":" + v + "-", ':') == (w + "-" + v) + "-"
  {
    var a, b, c := w + "-", w + "-" + ":", w + "-" + ":" + v;
    RemoveCharConcat(w, "-", ':');
    assert RemoveChar(a, ':') == a;
    RemoveCharConcat(a, ":", ':');
    assert RemoveChar(":", ':') == [];
    assert RemoveChar(b, ':') == a;
    RemoveCharConcat(b, v, ':');
    assert RemoveChar(c, ':') == a + v;
    RemoveCharConcat(c, "-", ':');
    assert RemoveChar(c + "-", ':') == a + v + "-";
  }

  /** The processed path `<w>/:<v>/` is named `<w>-<v>`. */
  lemma DynamicDirectoryName(w: string, v: string)
    requires w != [] && w[0] != '-' && '/' !in w && ':' !in w
    requires '/' !in v && ':' !in v
    ensures RouteName(w + "/" + ":" + v + "/") == w + "-" + v
  {
    DashedDynamic(w, v);
    BareDynamic(w, v);
    assert (w + "-" + v)[0] == w[0];
    TrimTrailingDash(w + "-" + v);
  }

  /** A run of `\w` characters holds neither `/`, `:` nor `[`. */
  lemma WordsHaveNoSeparator(v: string)
    requires forall k :: 0 <= k < |v| ==> IsWordChar(v[k])
    ensures '/' !in v && ':' !in v && '[' !in v
  {
    assert forall c :: c in v ==> IsWordChar(c);
  }

  /**
   * The index page `<w>/[<v>]/index.vue` of a dynamic segment becomes
   * `/<w>/:<v>/` and is named `<w>-<v>`.
   */
  lemma DynamicPageName(w: string, v: string)
    requires w != [] && w[0] != '-' && '/' !in w && ':' !in w && '[' !in w
    requires v != [] && forall k :: 0 <= k < |v| ==> IsWordChar(v[k])
    ensures ProcessedPath(w + "/[" + v + "]/index") == w + "/" + ":" + v + "/"
    ensures RouteName(ProcessedPath(w + "/[" + v + "]/index")) == w + "-" + v
  {
    var page := w + "/[" + v + "]/index";
    var head, param := w + "/", "[" + v + "]" + "/";
    assert page == head + param + "index";
    assert page[|page| - 5..] == "index";
    assert page[..|page| - 5] == head + param;
    assert '[' !in head;
    RewriteAfterPlainText(head, param);
    RewriteParamHead(v, "/");
    assert RewriteParams("/") == "/";
    var r := w + "/" + ":" + v + "/";
    assert head + (":" + v + RewriteParams("/")) == r;
    assert r[|r| - 1] == '/';
    assert !EndsWith(r, "/index");
    WordsHaveNoSeparator(v);
    DynamicDirectoryName(w, v);
  }

  /** `:<v>` ends with `index` only when `<v>` does. */
  lemma ColonNoIndex(v: string)
    requires !EndsWith(v, "index")
    ensures !EndsWith(":" + v, "index")
  {
    var p := ":" + v;
    if |v| >= 5 {
      assert p[|p| - 5..] == v[|v| - 5..];
    } else if |v| == 4 {
      assert p[|p| - 5..][0] == ':';
    }
  }

  /** Text that does not end in `index`, followed by `/index`, loses exactly that `/index` to the two suffix removals. */
  lemma StripIndex(x: string)
    requires !EndsWith(x, "index")
    ensures DropSuffix(DropSuffix(x + "/index", "/index"), "index") == x
  {
    var s := x + "/index";
    assert s[|x|..] == "/index";
    var r := DropSuffix(s, "/index");
    assert r + "/index" == s;
    assert r == (r + "/index")[..|r|] == s[..|x|] == x;
  }

  /** `/index` holds no parameter, so the rewrite keeps it. */
  lemma IndexTailPlain()
    ensures RewriteParams("/index") == "/index"
  {
    var t := "/index";
    assert forall k :: 0 <= k < |t| ==> t[k] != '[';
    RewriteWithoutBrackets(t);
  }

  /** `[<v>]/index` below a layout: rewritten to `:<v>/index`, then stripped to `:<v>`. */
  lemma DynamicChildRest(v: string)
    requires v != [] && forall k :: 0 <= k < |v| ==> IsWordChar(v[k])
    requires !EndsWith(v, "index")
    ensures DropSuffix(DropSuffix(RewriteParams("[" + v + "]" + "/index"), "/index"), "index") == ":" + v
    ensures '[' !in ":" + v
  {
    RewriteParamHead(v, "/index");
    IndexTailPlain();
    ColonNoIndex(v);
    StripIndex(":" + v);
    WordsHaveNoSeparator(v);
  }

  /** A dynamic segment's index page nested in the layout `dir` has the child path `:<v>`. */
  lemma DynamicChildPath(dir: string, v: string)
    requires v != [] && forall k :: 0 <= k < |v| ==> IsWordChar(v[k])
    requires !EndsWith(v, "index")
    ensures Encloses(dir, dir + "/[" + v + "]/index")
    ensures ChildPath(dir + "/[" + v + "]/index", dir) == ":" + v
  {
    var routePath := dir + "/[" + v + "]/index";
    var rest := "[" + v + "]" + "/index";
    assert routePath == (dir + "/") + rest;
    assert routePath[..|dir| + 1] == dir + "/";
    assert routePath[|dir| + 1..] == rest;
    DynamicChildRest(v);
  }

  /** In the example app, `users/[id]/index.vue` is nested in the `users` layout with the child path `:id`. */
  lemma UsersIdChildPath(dir: string, routePath: string)
    requires dir == "users" && routePath == "users/[id]/index"
    ensures Encloses(dir, routePath)
    ensures ChildPath(routePath, dir) == ":id"
  {
    assert routePath == dir + "/[" + "id" + "]/index" by {
      assert dir + "/[" == "users/[";
      assert "users/[" + "id" == "users/[id";
      assert "users/[id" + "]/index" == routePath;
    }
    assert forall k :: 0 <= k < |"id"| ==> IsWordChar("id"[k]) by {
      assert IsWordChar('i') && IsWordChar('d');
    }
    DynamicChildPath(dir, "id");
  }

  /** `src/views/users/_layout.vue` is not under the default excluded directory `components`. */
  lemma UsersLayoutKept(cfg: Config)
    requires cfg == DefaultConfig()
    ensures !IsExcluded("/" + cfg.routesDir + "/" + ("users" + "/" + cfg.layoutName) + ".vue", cfg)
  {
    var path := "/" + cfg.routesDir + "/" + ("users" + "/" + cfg.layoutName) + ".vue";
    assert 'p' !in path;
    IncludesNeedsChar(path, "/" + cfg.routesDir + "/" + "components" + "/", 'p');
    IncludesNeedsChar(path, "/" + cfg.routesDir + "/" + "components" + ".", 'p');
  }

  /** In the example app, `src/views/users/_layout.vue` is the layout of `users` under the default options. */
  lemma UsersLayout()
    ensures Classify("/" + "src/views" + "/" + ("users" + "/" + "_layout") + ".vue", DefaultConfig()) == LayoutFile("users")
  {
    var cfg := DefaultConfig();
    UsersLayoutKept(cfg);
    LayoutPage(cfg, "users");
  }

  /** The route `/users/` is named `users`: the trailing `-` left by the `/` is trimmed. */
  lemma IndexPageName()
    ensures RouteName("users/") == "users"
  {
    DirectoryName("users");
    assert "users" + "/" == "users/";
  }

  /** Any trailing `index` is dropped, even inside a longer segment. */
  lemma TrailingIndexInsideSegment()
    ensures ProcessedPath("reindex") == "re"
  {
    assert "reindex"[2..] == "index";
    assert DropSuffix("reindex", "index") == "re";
    RewriteWithoutBrackets("re");
  }

  /** The parameter `[id]` followed by `/` is rewritten to `:id/`. */
  lemma IdParamRewritten()
    ensures RewriteParams("[id]/") == ":id/"
  {
    assert WordPrefixLen("id]/") == 2;
    assert ParamAt("[id]/");
    assert "[id]/"[4..] == "/";
    assert RewriteParams("/") == "/";
  }

  /** `users/[id]/index.vue` becomes `/users/:id/`. */
  lemma DynamicSegment()
    ensures ProcessedPath("users/[id]/index") == "users/:id/"
  {
    assert "users/[id]/index"[11..] == "index";
    assert DropSuffix("users/[id]/index", "index") == "users/" + "[id]/";
    RewriteAfterPlainText("users/", "[id]/");
    IdParamRewritten();
    assert "users/" + ":id/" == "users/:id/";
    assert !EndsWith("users/:id/", "/index");
  }

  /** The route `/users/:id/` is named `users-id`: `/` becomes `-`, `:` goes, the outer `-` go. */
  lemma DynamicSegmentName()
    ensures RouteName("users/:id/") == "users-id"
  {
    DynamicDirectoryName("users", "id");
    assert "users" + "/" == "users/";
    assert "users/" + ":" == "users/:";
    assert "users/:" + "id" == "users/:id";
    assert "users/:id" + "/" == "users/:id/";
    assert "users" + "-" == "users-";
    assert "users-" + "id" == "users-id";
  }

  /** The router file of the test mock is rewritten. */
  lemma RouterFileGuard()
    ensures IsRouterFile("/src/router/index.ts")
  {
    IncludesInfix("/src/", "router/index", ".ts");
    assert "/src/" + "router/index" + ".ts" == "/src/router/index.ts";
  }

  /** A module outside `router/index` is not rewritten. */
  lemma OtherModuleSkipped()
    ensures !IsRouterFile("/src/other/file.ts")
  {
    IncludesNeedsChar("/src/other/file.ts", "router/index", 'x');
  }

  /** A router file that is neither `.js` nor `.ts` is not rewritten. */
  lemma RouterVueSkipped()
    ensures !IsRouterFile("/src/router/index.vue")
  {
    assert "/src/router/index.vue"[18..] == "vue";
  }
}
