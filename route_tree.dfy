/**
 * The route builder that the plugin generates into the app's router file:
 * a first pass classifies every discovered page and fills the `layouts`
 * and `routeMap` tables, a `/` redirect is added when there is no root
 * index, a second pass nests every route under its deepest enclosing
 * layout, and a final walk reports routes without a component.
 *
 * The passes are specified by the functions `Collect`, `WithRedirect`,
 * `NestKeys` and `Build`; the method `BuildRoutes` runs them with the
 * loops and mutable tables of the source and is proved equal to `Build`.
 */
module RouteTree {
  import opened Options
  import opened JsStrings
  import opened ObjectMaps
  import opened RoutePaths

  /** One entry of `import.meta.glob`: a file path and its component (`None` when undefined). */
  datatype PageFile<C> = PageFile(path: string, component: Option<C>)

  /**
   * A route record as the builder emits it. A property the record does not
   * have is `None`; `children == []` stands for a record without `children`
   * (a record gets `children` only together with its first child).
   */
  datatype Route<C> = Route(
    path: string,
    name: Option<string>,
    component: Option<C>,
    redirect: Option<string>,
    originalFilePath: Option<string>,
    children: seq<Route<C>>)

  /** A value of the `layouts` table. */
  datatype LayoutEntry<C> = LayoutEntry(component: Option<C>, path: string)

  /** A value of the `routeMap` table; `rawPath` is never copied into an emitted route. */
  datatype RouteMapEntry<C> = RouteMapEntry(
    path: string,
    component: Option<C>,
    name: string,
    rawPath: string,
    originalFilePath: string)

  /** The state after the first pass. */
  datatype Collected<C> = Collected(
    routes: seq<Route<C>>,
    layouts: Dict<LayoutEntry<C>>,
    routeMap: Dict<RouteMapEntry<C>>,
    hasRootIndex: bool)

  /** The state of the second pass: the routes and the warnings printed so far. */
  datatype Nesting<C> = Nesting(routes: seq<Route<C>>, warnings: seq<string>)

  function HomeRoute<C>(component: Option<C>): Route<C> {
    Route("/", Some("home"), component, None, None, [])
  }

  function RedirectRoute<C>(target: string): Route<C> {
    Route("/", None, None, Some(target), None, [])
  }

  function LeafEntry<C>(file: PageFile<C>, routePath: string, processed: string): RouteMapEntry<C> {
    RouteMapEntry("/" + processed, file.component, RouteName(processed), routePath, file.path)
  }

  /** A route that no layout encloses: the entry without its `rawPath`. */
  function TopLevelRoute<C>(e: RouteMapEntry<C>): Route<C> {
    Route(e.path, Some(e.name), e.component, None, Some(e.originalFilePath), [])
  }

  /** The record a layout gets when its first child is attached. */
  function LayoutRoute<C>(layoutPath: string, layout: LayoutEntry<C>): Route<C> {
    Route(if layoutPath == "" then "/" else "/" + layoutPath, None, layout.component, None, None, [])
  }

  /** A route nested in `layoutPath`: relative path, `:` removed from a non-empty name, no `rawPath`. */
  function ChildRoute<C>(routePath: string, layoutPath: string, e: RouteMapEntry<C>): Route<C>
    requires Encloses(layoutPath, routePath)
  {
    Route(ChildPath(routePath, layoutPath),
          Some(if e.name != "" then RemoveChar(e.name, ':') else e.name),
          e.component, None, Some(e.originalFilePath), [])
  }

  // ---------------------------------------------------------------------
  // First pass: classification
  // ---------------------------------------------------------------------

  function EmptyCollected<C>(): Collected<C> {
    Collected([], Empty(), Empty(), false)
  }

  /** What the first pass does with one file of kind `kind`. */
  function CollectFile<C>(acc: Collected<C>, file: PageFile<C>, kind: FileKind): Collected<C> {
    match kind
    case Excluded => acc
    case RootIndex =>
      acc.(routes := acc.routes + [HomeRoute(file.component)], hasRootIndex := true)
    case LayoutFile(dir) =>
      acc.(layouts := Put(acc.layouts, dir, LayoutEntry(file.component, dir)))
    case EmptyRoute => acc
    case Leaf(routePath, processed) =>
      acc.(routeMap := Put(acc.routeMap, routePath, LeafEntry(file, routePath, processed)))
  }

  /** The kind of every discovered file, in discovery order. */
  function KindsOf<C>(files: seq<PageFile<C>>, cfg: Config): seq<FileKind> {
    seq(|files|, i requires 0 <= i < |files| => Classify(files[i].path, cfg))
  }

  /** The first pass over the files in discovery order, each with its kind. */
  function CollectKinds<C>(files: seq<PageFile<C>>, kinds: seq<FileKind>): Collected<C>
    requires |kinds| == |files|
    decreases |files|
  {
    if files == [] then EmptyCollected()
    else
      var n := |files| - 1;
      CollectFile(CollectKinds(files[..n], kinds[..n]), files[n], kinds[n])
  }

  /** The first pass: every file is classified, then handled in discovery order. */
  function Collect<C>(files: seq<PageFile<C>>, cfg: Config): Collected<C> {
    CollectKinds(files, KindsOf(files, cfg))
  }

  /** The `/` redirect to the first layout, added when there is no root index. */
  function WithRedirect<C>(c: Collected<C>): seq<Route<C>> {
    if !c.hasRootIndex && |c.layouts.keys| > 0
    then c.routes + [RedirectRoute("/" + c.layouts.keys[0])]
    else c.routes
  }

  // ---------------------------------------------------------------------
  // Second pass: nesting
  // ---------------------------------------------------------------------

  ghost predicate DescendingByLength(s: seq<string>) {
    forall i, j :: 0 <= i < j < |s| ==> |s[i]| >= |s[j]|
  }

  /** Inserts `x` after every element at least as long (a stable insertion). */
  function InsertByLength(x: string, s: seq<string>): seq<string>
  {
    if s == [] then [x]
    else if |s[0]| >= |x| then [s[0]] + InsertByLength(x, s[1..])
    else [x] + s
  }

  /** Insertion adds `x` and keeps every other element. */
  lemma {:induction false} InsertByLengthPermutes(x: string, s: seq<string>)
    ensures multiset(InsertByLength(x, s)) == multiset(s) + multiset{x}
  {
    if s != [] && |s[0]| >= |x| {
      InsertByLengthPermutes(x, s[1..]);
      assert s == [s[0]] + s[1..];
    }
  }

  /** Every element of the insertion is `x` or an element of `s`. */
  lemma {:induction false} InsertByLengthElements(x: string, s: seq<string>)
    ensures forall y :: y in InsertByLength(x, s) ==> y == x || y in s
  {
    if s != [] && |s[0]| >= |x| {
      InsertByLengthElements(x, s[1..]);
      assert forall y :: y in s[1..] ==> y in s;
    }
  }

  /** A longest-first sequence stays so behind an element at least as long as all of it. */
  lemma ConsDescending(a: string, t: seq<string>)
    requires DescendingByLength(t)
    requires forall k :: 0 <= k < |t| ==> |t[k]| <= |a|
    ensures DescendingByLength([a] + t)
  {
    var u := [a] + t;
    forall i, j | 0 <= i < j < |u| ensures |u[i]| >= |u[j]| {
      assert u[j] == t[j - 1];
      if i > 0 {
        assert u[i] == t[i - 1];
      }
    }
  }

  /** Insertion keeps a longest-first sequence longest first. */
  lemma {:induction false} InsertKeepsDescending(x: string, s: seq<string>)
    requires DescendingByLength(s)
    ensures DescendingByLength(InsertByLength(x, s))
  {
    if s != [] && |s[0]| >= |x| {
      var tail := s[1..];
      var rest := InsertByLength(x, tail);
      InsertKeepsDescending(x, tail);
      InsertByLengthElements(x, tail);
      forall k | 0 <= k < |rest| ensures |rest[k]| <= |s[0]| {
        assert rest[k] in rest;
        if rest[k] != x {
          var m :| 0 <= m < |tail| && tail[m] == rest[k];
          assert s[m + 1] == rest[k];
        }
      }
      ConsDescending(s[0], rest);
    }
  }

  /** `keys.sort((a, b) => b.length - a.length)`, a stable insertion sort. */
  function SortByLength(keys: seq<string>): seq<string>
    decreases |keys|
  {
    if keys == [] then []
    else InsertByLength(keys[|keys| - 1], SortByLength(keys[..|keys| - 1]))
  }

  /** The sorted keys are a permutation of the keys. */
  lemma {:induction false} SortByLengthPermutes(keys: seq<string>)
    ensures multiset(SortByLength(keys)) == multiset(keys)
    decreases |keys|
  {
    if keys != [] {
      var n := |keys| - 1;
      SortByLengthPermutes(keys[..n]);
      InsertByLengthPermutes(keys[n], SortByLength(keys[..n]));
      assert keys == keys[..n] + [keys[n]];
    }
  }

  /** The sorted keys are longest first. */
  lemma {:induction false} SortByLengthDescending(keys: seq<string>)
    ensures DescendingByLength(SortByLength(keys))
    decreases |keys|
  {
    if keys != [] {
      SortByLengthDescending(keys[..|keys| - 1]);
      InsertKeepsDescending(keys[|keys| - 1], SortByLength(keys[..|keys| - 1]));
    }
  }

  /** Every sorted key is a key. */
  lemma SortedKeyIsKey(keys: seq<string>, k: string)
    requires k in SortByLength(keys)
    ensures k in keys
  {
    SortByLengthPermutes(keys);
    assert k in multiset(SortByLength(keys));
  }

  /** The first layout path of `keys` that encloses `routePath` (the `parentFound` flag of the source). */
  function FirstEnclosing(routePath: string, keys: seq<string>): (r: Option<string>)
    ensures r.Some? ==> r.value in keys && Encloses(r.value, routePath)
  {
    if keys == [] then None
    else if Encloses(keys[0], routePath) then Some(keys[0])
    else FirstEnclosing(routePath, keys[1..])
  }

  /** `generatedRoutes.find(...)`: the test that selects a layout's record by its path. */
  predicate MatchesLayout<C>(r: Route<C>, layoutPath: string) {
    r.path == "/" + layoutPath || (layoutPath == "" && r.path == "/")
  }

  /** Index of the first top-level record that `find` returns for `layoutPath`. */
  function FindRecord<C>(routes: seq<Route<C>>, layoutPath: string): (r: Option<nat>)
    ensures r.Some? ==> r.value < |routes| && MatchesLayout(routes[r.value], layoutPath)
    ensures r.Some? ==> forall i :: 0 <= i < r.value ==> !MatchesLayout(routes[i], layoutPath)
    ensures r.None? ==> forall i :: 0 <= i < |routes| ==> !MatchesLayout(routes[i], layoutPath)
  {
    if routes == [] then None
    else if MatchesLayout(routes[0], layoutPath) then Some(0)
    else match FindRecord(routes[1..], layoutPath)
      case None => None
      case Some(i) => Some(i + 1)
  }

  /** Appends `child` to the layout's record, creating that record first when none is found. */
  function AttachChild<C>(routes: seq<Route<C>>, layoutPath: string, layout: LayoutEntry<C>, child: Route<C>): seq<Route<C>> {
    match FindRecord(routes, layoutPath)
    case Some(i) => routes[i := routes[i].(children := routes[i].children + [child])]
    case None => routes + [LayoutRoute(layoutPath, layout).(children := [child])]
  }

  /** Nesting one route under the layout `layoutPath`, with the warning for a missing component. */
  function NestUnder<C>(acc: Nesting<C>, routePath: string, layoutPath: string, e: RouteMapEntry<C>,
                        layouts: Dict<LayoutEntry<C>>): Nesting<C>
    requires Encloses(layoutPath, routePath) && layoutPath in layouts.entries
  {
    var child := ChildRoute(routePath, layoutPath, e);
    Nesting(AttachChild(acc.routes, layoutPath, layouts.entries[layoutPath], child),
            acc.warnings + (if child.component.None? then [child.path] else []))
  }

  /** What the second pass does with one `routeMap` entry. */
  function NestEntry<C>(acc: Nesting<C>, routePath: string, e: RouteMapEntry<C>,
                        layouts: Dict<LayoutEntry<C>>): Nesting<C>
  {
    var sorted := SortByLength(layouts.keys);
    match FirstEnclosing(routePath, sorted)
    case None => Nesting(acc.routes + [TopLevelRoute(e)], acc.warnings)
    case Some(layoutPath) =>
      SortedKeyIsKey(layouts.keys, layoutPath);
      NestUnder(acc, routePath, layoutPath, e, layouts)
  }

  /** The second pass over `keys`, in order. */
  function NestKeys<C>(acc: Nesting<C>, keys: seq<string>, routeMap: Dict<RouteMapEntry<C>>,
                       layouts: Dict<LayoutEntry<C>>): Nesting<C>
    requires forall k :: k in keys ==> k in routeMap.entries
    decreases |keys|
  {
    if keys == [] then acc
    else
      var last := keys[|keys| - 1];
      NestEntry(NestKeys(acc, keys[..|keys| - 1], routeMap, layouts), last, routeMap.entries[last], layouts)
  }

  // ---------------------------------------------------------------------
  // Final check and the whole builder
  // ---------------------------------------------------------------------

  /** A record the component check skips: its `redirect` is a non-empty (truthy) string. */
  predicate IsRedirect<C>(r: Route<C>) {
    r.redirect.Some? && r.redirect.value != ""
  }

  /**
   * `checkRouteComponents`: the paths reported for records without a
   * component, depth first; a redirect record is skipped with its children.
   */
  function MissingComponents<C>(routes: seq<Route<C>>): seq<string>
    decreases routes
  {
    if routes == [] then []
    else
      var r := routes[0];
      var own :=
        if IsRedirect(r) then []
        else (if r.component.None? then [r.path] else []) + MissingComponents(r.children);
      own + MissingComponents(routes[1..])
  }

  /** The routes the builder returns and every warning it prints, in order. */
  function Build<C>(files: seq<PageFile<C>>, cfg: Config): Nesting<C> {
    var c := Collect(files, cfg);
    var n := NestKeys(Nesting(WithRedirect(c), []), c.routeMap.keys, c.routeMap, c.layouts);
    Nesting(n.routes, n.warnings + MissingComponents(n.routes))
  }

  lemma FirstEnclosingExtend(routePath: string, s: seq<string>, j: nat)
    requires j < |s|
    ensures FirstEnclosing(routePath, s[..j + 1])
         == if FirstEnclosing(routePath, s[..j]).Some? then FirstEnclosing(routePath, s[..j])
            else if Encloses(s[j], routePath) then Some(s[j]) else None
  {
    if j > 0 {
      assert s[..j + 1][1..] == s[1..][..j];
      assert s[..j][1..] == s[1..][..j - 1];
      FirstEnclosingExtend(routePath, s[1..], j - 1);
    }
  }

  /**
   * The first pass as the source runs it: a `forEach` over the pages that
   * pushes home routes and assigns into `layouts` and `routeMap`.
   */
  method CollectPages<C>(files: seq<PageFile<C>>, cfg: Config) returns (c: Collected<C>)
    ensures c == Collect(files, cfg)
  {
    ghost var kinds := KindsOf(files, cfg);
    var routes: seq<Route<C>> := [];
    var layouts: Dict<LayoutEntry<C>> := Empty();
    var routeMap: Dict<RouteMapEntry<C>> := Empty();
    var hasRootIndex := false;
    var i := 0;
    while i < |files|
      invariant i <= |files|
      invariant Collected(routes, layouts, routeMap, hasRootIndex) == CollectKinds(files[..i], kinds[..i])
    {
      var file := files[i];
      match Classify(file.path, cfg) {
        case Excluded =>
        case RootIndex =>
          hasRootIndex := true;
          routes := routes + [HomeRoute(file.component)];
        case LayoutFile(dir) =>
          layouts := Put(layouts, dir, LayoutEntry(file.component, dir));
        case EmptyRoute =>
        case Leaf(routePath, processed) =>
          routeMap := Put(routeMap, routePath, LeafEntry(file, routePath, processed));
      }
      assert files[..i + 1][..i] == files[..i] && kinds[..i + 1][..i] == kinds[..i];
      i := i + 1;
    }
    assert files[..i] == files && kinds[..i] == kinds;
    c := Collected(routes, layouts, routeMap, hasRootIndex);
  }

  /**
   * Attaching one route to its layout's record: `find` the record, create
   * and push it when missing, then push the child onto its `children`.
   */
  method AttachToLayout<C>(routes: seq<Route<C>>, warnings: seq<string>, routePath: string, layoutPath: string,
                           entry: RouteMapEntry<C>, layouts: Dict<LayoutEntry<C>>)
    returns (routes': seq<Route<C>>, warnings': seq<string>)
    requires Encloses(layoutPath, routePath) && layoutPath in layouts.entries
    ensures Nesting(routes', warnings') == NestUnder(Nesting(routes, warnings), routePath, layoutPath, entry, layouts)
  {
    routes', warnings' := routes, warnings;
    var found := FindRecord(routes', layoutPath);
    var index: nat;
    if found.None? {
      routes' := routes' + [LayoutRoute(layoutPath, layouts.entries[layoutPath])];
      index := |routes'| - 1;
    } else {
      index := found.value;
    }
    var child := ChildRoute(routePath, layoutPath, entry);
    if child.component.None? {
      warnings' := warnings' + [child.path];
    }
    routes' := routes'[index := routes'[index].(children := routes'[index].children + [child])];
    if found.None? {
      assert [] + [child] == [child];
      assert routes' == routes + [LayoutRoute(layoutPath, layouts.entries[layoutPath]).(children := [child])];
    }
  }

  /**
   * The second pass's work for one `routeMap` key: the layouts sorted
   * longest first, a `parentFound` flag set by the first layout that
   * encloses the route, and a top-level push when none does.
   */
  method NestRoute<C>(routes: seq<Route<C>>, warnings: seq<string>, routePath: string,
                      entry: RouteMapEntry<C>, layouts: Dict<LayoutEntry<C>>)
    returns (routes': seq<Route<C>>, warnings': seq<string>)
    ensures Nesting(routes', warnings') == NestEntry(Nesting(routes, warnings), routePath, entry, layouts)
  {
    routes', warnings' := routes, warnings;
    var sorted := SortByLength(layouts.keys);
    var parentFound := false;
    var j := 0;
    while j < |sorted|
      invariant j <= |sorted|
      invariant parentFound <==> FirstEnclosing(routePath, sorted[..j]).Some?
      invariant !parentFound ==> routes' == routes && warnings' == warnings
      invariant parentFound ==>
        FirstEnclosing(routePath, sorted[..j]).value in layouts.entries &&
        Nesting(routes', warnings') == NestUnder(Nesting(routes, warnings), routePath, FirstEnclosing(routePath, sorted[..j]).value, entry, layouts)
    {
      var layoutPath := sorted[j];
      FirstEnclosingExtend(routePath, sorted, j);
      if StartsWith(routePath, layoutPath + "/") && routePath != layoutPath && !parentFound {
        parentFound := true;
        SortedKeyIsKey(layouts.keys, layoutPath);
        routes', warnings' := AttachToLayout(routes', warnings', routePath, layoutPath, entry, layouts);
      }
      j := j + 1;
    }
    assert sorted[..j] == sorted;
    if !parentFound {
      routes' := routes' + [TopLevelRoute(entry)];
    }
  }

  /**
   * The whole builder: the first pass, the `/` redirect, the second pass
   * over the `routeMap` keys in order, and the final component check.
   */
  method BuildRoutes<C>(files: seq<PageFile<C>>, cfg: Config) returns (routes: seq<Route<C>>, warnings: seq<string>)
    ensures Nesting(routes, warnings) == Build(files, cfg)
  {
    var c := CollectPages(files, cfg);
    var layouts, routeMap := c.layouts, c.routeMap;
    routes := c.routes;
    if !c.hasRootIndex && |layouts.keys| > 0 {
      routes := routes + [RedirectRoute("/" + layouts.keys[0])];
    }
    assert routes == WithRedirect(c);
    warnings := [];
    ghost var start := Nesting(routes, warnings);
    var keys := routeMap.keys;
    var k := 0;
    while k < |keys|
      invariant k <= |keys|
      invariant Nesting(routes, warnings) == NestKeys(start, keys[..k], routeMap, layouts)
    {
      var routePath := keys[k];
      assert routePath in routeMap.entries;
      routes, warnings := NestRoute(routes, warnings, routePath, routeMap.entries[routePath], layouts);
      assert keys[..k + 1][..k] == keys[..k];
      k := k + 1;
    }
    assert keys[..k] == keys;
    ghost var nested := Nesting(routes, warnings);
    assert nested == NestKeys(Nesting(WithRedirect(c), []), c.routeMap.keys, c.routeMap, c.layouts);
    warnings := warnings + MissingComponents(routes);
  }
}
