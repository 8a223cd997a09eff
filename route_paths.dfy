/**
 * Path normalisation of the convention-route builder: how one discovered
 * file path is classified (excluded, root index, layout, leaf), how a leaf's
 * route path and name are derived, and how a path is made relative to the
 * layout that encloses it.
 */
module RoutePaths {
  import opened JsStrings

  /** The plugin options the route builder reads (`isLazy` does not change the tree's shape). */
  datatype Config = Config(routesDir: string, excludes: seq<string>, layoutName: string)

  /** The defaults of the plugin: `src/views`, `['components']`, `_layout`. */
  function DefaultConfig(): Config {
    Config("src/views", ["components"], "_layout")
  }

  /** What the first pass does with one discovered file. */
  datatype FileKind =
    | Excluded                                   // under an excluded directory: ignored
    | RootIndex                                  // `<routesDir>/index.vue`: the home route
    | LayoutFile(dir: string)                    // `<dir>/<layoutName>.vue`: a layout for `dir`
    | EmptyRoute                                 // processed path is empty: ignored
    | Leaf(routePath: string, processed: string) // a route, keyed by `routePath`

  /** The exclusion test for one excluded directory name `e`. */
  predicate ExcludedBy(path: string, routesDir: string, e: string) {
    Includes(path, "/" + routesDir + "/" + e + "/") || StartsWith(path, "/" + routesDir + "/" + e + ".")
  }

  /** `excludes.some(...)` */
  predicate IsExcluded(path: string, cfg: Config) {
    exists e :: e in cfg.excludes && ExcludedBy(path, cfg.routesDir, e)
  }

  /** The path relative to the routes directory, without the `.vue` extension. */
  function RoutePathOf(path: string, routesDir: string): string {
    DropSuffix(DropPrefix(path, "/" + routesDir + "/"), ".vue")
  }

  /**
   * The URL path of a leaf, before the leading `/`: a trailing `index` is
   * dropped (any trailing `index`, not only a whole segment), then `[x]`
   * becomes `:x`, then a trailing `/index` is dropped. (The source's final
   * `.replace(/\//g, '/')` leaves the text unchanged and is omitted.)
   */
  function ProcessedPath(routePath: string): string {
    DropSuffix(RewriteParams(DropSuffix(routePath, "index")), "/index")
  }

  /**
   * The route name of a leaf: `/` becomes `-`, every `:` is removed, one
   * leading and one trailing `-` are trimmed, and an empty result is `home`.
   */
  function RouteName(processed: string): string {
    var trimmed := TrimDashes(RemoveChar(ReplaceChar(processed, '/', '-'), ':'));
    if trimmed == [] then "home" else trimmed
  }

  /** A route name is never empty and holds neither `:` nor `/`. */
  lemma RouteNameShape(processed: string)
    ensures RouteName(processed) != []
    ensures ':' !in RouteName(processed) && '/' !in RouteName(processed)
  {
    var dashed := ReplaceChar(processed, '/', '-');
    var bare := RemoveChar(dashed, ':');
    var trimmed := TrimDashes(bare);
    assert forall c :: c in trimmed ==> c in bare;
    assert '/' !in dashed;
  }

  /** The classification of the first pass, in the order of its tests. */
  function Classify(path: string, cfg: Config): (k: FileKind)
    ensures k.Excluded? <==> IsExcluded(path, cfg)
    ensures k.Leaf? ==> k.routePath == RoutePathOf(path, cfg.routesDir) && k.processed != []
    ensures k.Leaf? ==> k.processed == ProcessedPath(k.routePath)
  {
    if IsExcluded(path, cfg) then Excluded
    else
      var routePath := RoutePathOf(path, cfg.routesDir);
      if routePath == "index" then RootIndex
      else if EndsWith(routePath, "/" + cfg.layoutName) then
        LayoutFile(DropSuffix(routePath, "/" + cfg.layoutName))
      else
        var processed := ProcessedPath(routePath);
        if processed == [] then EmptyRoute else Leaf(routePath, processed)
  }

  /** `routePath` lies under the layout directory `layoutPath` (and is not that directory). */
  predicate Encloses(layoutPath: string, routePath: string) {
    StartsWith(routePath, layoutPath + "/") && routePath != layoutPath
  }

  /**
   * The path of a route nested in the layout `layoutPath`: the layout prefix
   * and its `/` are cut off, `[x]` becomes `:x`, a trailing `/index` and then
   * a trailing `index` are dropped; the text is rewritten again when it still
   * holds both `[` and `]`.
   */
  function ChildPath(routePath: string, layoutPath: string): string
    requires Encloses(layoutPath, routePath)
  {
    var rest := routePath[|layoutPath| + 1..];
    var p := DropSuffix(DropSuffix(RewriteParams(rest), "/index"), "index");
    if '[' in p && ']' in p then RewriteParams(p) else p
  }

  // ---------------------------------------------------------------------
  // Properties
  // ---------------------------------------------------------------------

  /**
   * The second rewrite of a child path never changes it: after one rewrite
   * no `[name]` is left, and dropping a suffix keeps it so.
   */
  lemma ChildPathRewritesOnce(routePath: string, layoutPath: string)
    requires Encloses(layoutPath, routePath)
    ensures ChildPath(routePath, layoutPath)
         == DropSuffix(DropSuffix(RewriteParams(routePath[|layoutPath| + 1..]), "/index"), "index")
  {
    var once := RewriteParams(routePath[|layoutPath| + 1..]);
    var p := DropSuffix(DropSuffix(once, "/index"), "index");
    RewriteIsParamFree(routePath[|layoutPath| + 1..]);
    var q := DropSuffix(once, "/index");
    ParamFreePrefix(once, |q|);
    ParamFreePrefix(q, |p|);
    RewriteParamFree(p);
  }

  /** A leaf's processed path has a `:` only when its file path had a `:` or a `[`. */
  lemma ProcessedColons(routePath: string)
    requires ':' in ProcessedPath(routePath)
    ensures ':' in routePath || '[' in routePath
  {
    var a := DropSuffix(routePath, "index");
    var b := RewriteParams(a);
    assert ':' in b;
    RewriteChars(a, ':');
    assert forall c :: c in a ==> c in routePath;
  }

  /** A path without brackets is only stripped of its trailing `index` parts. */
  lemma ProcessedWithoutBrackets(routePath: string)
    requires '[' !in routePath
    ensures ProcessedPath(routePath) == DropSuffix(DropSuffix(routePath, "index"), "/index")
  {
    var a := DropSuffix(routePath, "index");
    assert forall c :: c in a ==> c in routePath;
    RewriteWithoutBrackets(a);
  }

  /** The rewrite keeps a first character other than `/`: a `[` becomes `:`, anything else stays. */
  lemma RewriteHeadNotSlash(s: string)
    requires s != [] && s[0] != '/'
    ensures RewriteParams(s) != [] && RewriteParams(s)[0] != '/'
  {
    if ParamAt(s) {
      assert RewriteParams(s)[0] == ':';
    } else {
      assert RewriteParams(s)[0] == s[0];
    }
  }

  /** Dropping a suffix leaves a prefix. */
  lemma DropSuffixIsPrefix(s: string, p: string)
    ensures DropSuffix(s, p) == s[..|DropSuffix(s, p)|]
  {
  }

  /**
   * A child path does not start with `/` when the route path has no empty
   * segment after the layout prefix.
   */
  lemma ChildPathNoLeadingSlash(routePath: string, layoutPath: string)
    requires Encloses(layoutPath, routePath)
    requires |routePath| > |layoutPath| + 1 ==> routePath[|layoutPath| + 1] != '/'
    ensures ChildPath(routePath, layoutPath) == [] || ChildPath(routePath, layoutPath)[0] != '/'
  {
    ChildPathRewritesOnce(routePath, layoutPath);
    var rest := routePath[|layoutPath| + 1..];
    var once := RewriteParams(rest);
    if rest != [] {
      RewriteHeadNotSlash(rest);
    }
    DropSuffixIsPrefix(once, "/index");
    DropSuffixIsPrefix(DropSuffix(once, "/index"), "index");
  }

  /** A layout's own `index` page becomes the empty child path. */
  lemma LayoutIndexIsEmptyChild(layoutPath: string)
    ensures Encloses(layoutPath, layoutPath + "/index")
    ensures ChildPath(layoutPath + "/index", layoutPath) == ""
  {
    var routePath := layoutPath + "/index";
    assert routePath[..|layoutPath + "/"|] == layoutPath + "/";
    assert routePath[|layoutPath| + 1..] == "index";
    assert ParamFree("index");
    RewriteParamFree("index");
  }

  /** The file `/<routesDir>/<rel>.vue` has the route path `rel`. */
  lemma RoutePathOfPage(routesDir: string, rel: string)
    ensures RoutePathOf("/" + routesDir + "/" + rel + ".vue", routesDir) == rel
  {
    var prefix := "/" + routesDir + "/";
    var path := prefix + rel + ".vue";
    assert path == prefix + (rel + ".vue");
    assert path[..|prefix|] == prefix;
    assert DropPrefix(path, prefix) == rel + ".vue";
    assert (rel + ".vue")[|rel|..] == ".vue";
    assert (rel + ".vue")[..|rel|] == rel;
  }

  /** `index.vue` directly in the routes directory is the root index, unless excluded. */
  lemma RootIndexPage(cfg: Config)
    requires !IsExcluded("/" + cfg.routesDir + "/" + "index" + ".vue", cfg)
    ensures Classify("/" + cfg.routesDir + "/" + "index" + ".vue", cfg) == RootIndex
  {
    RoutePathOfPage(cfg.routesDir, "index");
  }

  /** `<dir>/<name>` is not `index`, ends with `/<name>`, and cutting that off leaves `dir`. */
  lemma LayoutRoutePath(dir: string, name: string)
    ensures var rel := dir + "/" + name;
      rel != "index" && EndsWith(rel, "/" + name) && DropSuffix(rel, "/" + name) == dir
  {
    var rel := dir + "/" + name;
    assert rel != "index" by {
      assert rel[|dir|] == '/';
      assert '/' in rel;
    }
    assert rel == dir + ("/" + name);
    assert rel[|rel| - |"/" + name|..] == "/" + name;
    assert rel[..|dir|] == dir;
  }

  /** `<dir>/<layoutName>.vue` is the layout of `dir`, unless excluded. */
  lemma LayoutPage(cfg: Config, dir: string)
    requires !IsExcluded("/" + cfg.routesDir + "/" + (dir + "/" + cfg.layoutName) + ".vue", cfg)
    ensures Classify("/" + cfg.routesDir + "/" + (dir + "/" + cfg.layoutName) + ".vue", cfg) == LayoutFile(dir)
  {
    RoutePathOfPage(cfg.routesDir, dir + "/" + cfg.layoutName);
    LayoutRoutePath(dir, cfg.layoutName);
  }

  /**
   * `<layoutName>.vue` directly in the routes directory is no layout (no `/`
   * precedes its name): it is routed as an ordinary page.
   */
  lemma RootLayoutIsPage(cfg: Config)
    requires cfg.layoutName != "index"
    requires !IsExcluded("/" + cfg.routesDir + "/" + cfg.layoutName + ".vue", cfg)
    ensures var k := Classify("/" + cfg.routesDir + "/" + cfg.layoutName + ".vue", cfg);
      !k.LayoutFile? && (k == Leaf(cfg.layoutName, ProcessedPath(cfg.layoutName)) || ProcessedPath(cfg.layoutName) == [])
  {
    RoutePathOfPage(cfg.routesDir, cfg.layoutName);
    assert !EndsWith(cfg.layoutName, "/" + cfg.layoutName);
  }

  /** An excluded file is excluded whatever else its path says. */
  lemma ExcludedDirectory(cfg: Config, e: string, prefix: string, rest: string)
    requires e in cfg.excludes
    ensures Classify(prefix + "/" + cfg.routesDir + "/" + e + "/" + rest, cfg) == Excluded
    ensures Classify("/" + cfg.routesDir + "/" + e + "." + rest, cfg) == Excluded
  {
    var p := "/" + cfg.routesDir + "/" + e + "/";
    IncludesInfix(prefix, p, rest);
    assert prefix + "/" + cfg.routesDir + "/" + e + "/" + rest == prefix + p + rest;
    var q := "/" + cfg.routesDir + "/" + e + ".";
    assert ("/" + cfg.routesDir + "/" + e + "." + rest)[..|q|] == q;
    assert ExcludedBy("/" + cfg.routesDir + "/" + e + "." + rest, cfg.routesDir, e);
  }

  /** `(x + p + y).includes(p)` */
  lemma {:induction false} IncludesInfix(x: string, p: string, y: string)
    ensures Includes(x + p + y, p)
    decreases |x|
  {
    if x == [] {
      assert (x + p + y)[..|p|] == p;
    } else {
      assert (x + p + y)[1..] == x[1..] + p + y;
      IncludesInfix(x[1..], p, y);
    }
  }
}
