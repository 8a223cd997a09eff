/**
 * What the route builder guarantees: excluded files change nothing, the
 * root index and the `/` redirect exclude each other, the deepest layout
 * wins, each route is placed exactly once, layout records are created once
 * and only with a child, and pages that all load produce no warning.
 */
module RouteTreeProps {
  import opened Options
  import opened JsStrings
  import opened ObjectMaps
  import opened RoutePaths
  import opened RouteTree

  // ---------------------------------------------------------------------
  // Excluded directories
  // ---------------------------------------------------------------------

  /** The discovered files without those under an excluded directory, in order. */
  function WithoutExcluded<C>(files: seq<PageFile<C>>, cfg: Config): seq<PageFile<C>>
    decreases |files|
  {
    if files == [] then []
    else
      var last := files[|files| - 1];
      WithoutExcluded(files[..|files| - 1], cfg) + (if IsExcluded(last.path, cfg) then [] else [last])
  }

  lemma {:induction false} WithoutExcludedConcat<C>(a: seq<PageFile<C>>, b: seq<PageFile<C>>, cfg: Config)
    ensures WithoutExcluded(a + b, cfg) == WithoutExcluded(a, cfg) + WithoutExcluded(b, cfg)
    decreases |b|
  {
    if b == [] {
      assert a + b == a;
    } else {
      var b' := b[..|b| - 1];
      assert (a + b)[..|a + b| - 1] == a + b';
      WithoutExcludedConcat(a, b', cfg);
    }
  }

  /** The first pass over a non-empty sequence ends with its last file. */
  lemma CollectSnoc<C>(files: seq<PageFile<C>>, cfg: Config)
    requires files != []
    ensures var n := |files| - 1;
      Collect(files, cfg) == CollectFile(Collect(files[..n], cfg), files[n], Classify(files[n].path, cfg))
  {
    var n := |files| - 1;
    assert KindsOf(files, cfg)[..n] == KindsOf(files[..n], cfg);
  }

  lemma {:induction false} CollectIgnoresExcluded<C>(files: seq<PageFile<C>>, cfg: Config)
    ensures Collect(WithoutExcluded(files, cfg), cfg) == Collect(files, cfg)
    decreases |files|
  {
    if files != [] {
      var init := files[..|files| - 1];
      var last := files[|files| - 1];
      CollectIgnoresExcluded(init, cfg);
      CollectSnoc(files, cfg);
      var w := WithoutExcluded(init, cfg);
      if !IsExcluded(last.path, cfg) {
        assert (w + [last])[..|w + [last]| - 1] == w;
        CollectSnoc(w + [last], cfg);
      } else {
        assert w + [] == w;
      }
    }
  }

  /** Dropping every excluded file leaves the routes and warnings as they are. */
  lemma BuildIgnoresExcluded<C>(files: seq<PageFile<C>>, cfg: Config)
    ensures Build(WithoutExcluded(files, cfg), cfg) == Build(files, cfg)
  {
    CollectIgnoresExcluded(files, cfg);
  }

  /** A file under an excluded directory, wherever it is discovered, changes nothing. */
  lemma ExcludedFileChangesNothing<C>(before: seq<PageFile<C>>, f: PageFile<C>, after: seq<PageFile<C>>, cfg: Config)
    requires IsExcluded(f.path, cfg)
    ensures Build(before + [f] + after, cfg) == Build(before + after, cfg)
  {
    WithoutExcludedConcat(before + [f], after, cfg);
    WithoutExcludedConcat(before, [f], cfg);
    WithoutExcludedConcat(before, after, cfg);
    assert [f][..0] == [];
    assert WithoutExcluded([f], cfg) == [];
    assert WithoutExcluded(before + [f] + after, cfg) == WithoutExcluded(before + after, cfg);
    BuildIgnoresExcluded(before + [f] + after, cfg);
    BuildIgnoresExcluded(before + after, cfg);
  }

  // ---------------------------------------------------------------------
  // First pass: the root index and the layouts
  // ---------------------------------------------------------------------

  /** Some file is the root index. */
  ghost predicate HasRootIndex(kinds: seq<FileKind>) {
    exists i :: 0 <= i < |kinds| && kinds[i].RootIndex?
  }

  /** Some file is a layout. */
  ghost predicate HasLayout(kinds: seq<FileKind>) {
    exists i :: 0 <= i < |kinds| && kinds[i].LayoutFile?
  }

  /** Number of files classified as the root index. */
  function RootIndexCount(kinds: seq<FileKind>): nat
    decreases |kinds|
  {
    if kinds == [] then 0
    else RootIndexCount(kinds[..|kinds| - 1]) + (if kinds[|kinds| - 1].RootIndex? then 1 else 0)
  }

  /** What one step of the first pass adds. */
  lemma CollectFileEffect<C>(acc: Collected<C>, file: PageFile<C>, kind: FileKind)
    ensures var next := CollectFile(acc, file, kind);
      && next.routes == acc.routes + (if kind.RootIndex? then [HomeRoute(file.component)] else [])
      && (next.hasRootIndex <==> acc.hasRootIndex || kind.RootIndex?)
      && (|next.layouts.keys| > 0 <==> |acc.layouts.keys| > 0 || kind.LayoutFile?)
      && (|acc.layouts.keys| > 0 ==> next.layouts.keys[0] == acc.layouts.keys[0])
      && (|acc.layouts.keys| == 0 && kind.LayoutFile? ==> next.layouts.keys == [kind.dir])
  {
  }

  /**
   * After the first pass, the only routes are `home` records, one per root
   * index file, and `hasRootIndex` is set exactly when there is one.
   */
  lemma {:induction false} CollectHomeRoutes<C>(files: seq<PageFile<C>>, kinds: seq<FileKind>)
    requires |kinds| == |files|
    ensures |CollectKinds(files, kinds).routes| == RootIndexCount(kinds)
    ensures forall r :: r in CollectKinds(files, kinds).routes ==>
      r.path == "/" && r.name == Some("home") && r.redirect.None? && r.originalFilePath.None? && r.children == []
    ensures CollectKinds(files, kinds).hasRootIndex <==> CollectKinds(files, kinds).routes != []
    decreases |files|
  {
    if files != [] {
      var n := |files| - 1;
      CollectHomeRoutes(files[..n], kinds[..n]);
      CollectFileEffect(CollectKinds(files[..n], kinds[..n]), files[n], kinds[n]);
    }
  }

  /** Some file is a root index exactly when the count of them is positive. */
  lemma {:induction false} RootIndexCounted(kinds: seq<FileKind>)
    ensures RootIndexCount(kinds) > 0 <==> HasRootIndex(kinds)
    decreases |kinds|
  {
    if kinds != [] {
      var n := |kinds| - 1;
      var init := kinds[..n];
      RootIndexCounted(init);
      if HasRootIndex(init) {
        var i :| 0 <= i < |init| && init[i].RootIndex?;
        assert kinds[i] == init[i];
      }
      if HasRootIndex(kinds) && !kinds[n].RootIndex? {
        var i :| 0 <= i < |kinds| && kinds[i].RootIndex?;
        assert init[i] == kinds[i];
      }
    }
  }

  /** `hasRootIndex` is set exactly when some file is the root index, and only then are there routes. */
  lemma CollectRootIndex<C>(files: seq<PageFile<C>>, kinds: seq<FileKind>)
    requires |kinds| == |files|
    ensures CollectKinds(files, kinds).hasRootIndex <==> HasRootIndex(kinds)
    ensures !HasRootIndex(kinds) ==> CollectKinds(files, kinds).routes == []
  {
    CollectHomeRoutes(files, kinds);
    RootIndexCounted(kinds);
  }

  lemma HasLayoutSnoc(kinds: seq<FileKind>)
    requires kinds != []
    ensures HasLayout(kinds) <==> HasLayout(kinds[..|kinds| - 1]) || kinds[|kinds| - 1].LayoutFile?
  {
    var init := kinds[..|kinds| - 1];
    if HasLayout(init) {
      var i :| 0 <= i < |init| && init[i].LayoutFile?;
      assert kinds[i] == init[i];
    } else if !kinds[|kinds| - 1].LayoutFile? {
      forall i | 0 <= i < |kinds| ensures !kinds[i].LayoutFile? {
        if i < |init| {
          assert kinds[i] == init[i];
        }
      }
    }
  }

  /** The layout table is non-empty exactly when some file is a layout. */
  lemma {:induction false} CollectHasLayouts<C>(files: seq<PageFile<C>>, kinds: seq<FileKind>)
    requires |kinds| == |files|
    ensures |CollectKinds(files, kinds).layouts.keys| > 0 <==> HasLayout(kinds)
    decreases |files|
  {
    if files != [] {
      var n := |files| - 1;
      CollectHasLayouts(files[..n], kinds[..n]);
      CollectFileEffect(CollectKinds(files[..n], kinds[..n]), files[n], kinds[n]);
      HasLayoutSnoc(kinds);
    }
  }

  /** The first key of the layout table is the directory of the first layout file discovered. */
  lemma {:induction false} FirstLayoutKey<C>(files: seq<PageFile<C>>, kinds: seq<FileKind>, first: nat)
    requires |kinds| == |files|
    requires first < |kinds| && kinds[first].LayoutFile?
    requires forall j :: 0 <= j < first ==> !kinds[j].LayoutFile?
    ensures |CollectKinds(files, kinds).layouts.keys| > 0
    ensures CollectKinds(files, kinds).layouts.keys[0] == kinds[first].dir
    decreases |files|
  {
    var n := |files| - 1;
    var init := kinds[..n];
    CollectFileEffect(CollectKinds(files[..n], init), files[n], kinds[n]);
    if first == n {
      assert !HasLayout(init) by {
        forall i | 0 <= i < |init| ensures !init[i].LayoutFile? {
          assert init[i] == kinds[i];
        }
      }
      CollectHasLayouts(files[..n], init);
    } else {
      assert init[first] == kinds[first];
      FirstLayoutKey(files[..n], init, first);
    }
  }

  // ---------------------------------------------------------------------
  // First pass: the route map
  // ---------------------------------------------------------------------

  /** A file of kind `kind` is a leaf whose route path is `k`. */
  predicate IsLeafFor(kind: FileKind, k: string) {
    kind.Leaf? && kind.routePath == k
  }

  /** `kinds[i]` is the last leaf with route path `k`. */
  ghost predicate LastLeafFor(kinds: seq<FileKind>, k: string, i: int) {
    && 0 <= i < |kinds|
    && IsLeafFor(kinds[i], k)
    && forall j :: i < j < |kinds| ==> !IsLeafFor(kinds[j], k)
  }

  /** One step of the first pass, key by key of `routeMap`. */
  lemma CollectFileRouteMap<C>(acc: Collected<C>, file: PageFile<C>, kind: FileKind)
    ensures var next := CollectFile(acc, file, kind).routeMap.entries;
      && (forall k :: k in next <==> k in acc.routeMap.entries || IsLeafFor(kind, k))
      && (forall k :: k in next ==>
            next[k] == if IsLeafFor(kind, k) then LeafEntry(file, k, kind.processed) else acc.routeMap.entries[k])
  {
  }

  /** `Object.keys(routeMap)` lists every route path once. */
  lemma {:induction false} CollectKeysDistinct<C>(files: seq<PageFile<C>>, kinds: seq<FileKind>)
    requires |kinds| == |files|
    ensures Distinct(CollectKinds(files, kinds).routeMap.keys)
    decreases |files|
  {
    if files != [] {
      var n := |files| - 1;
      var acc := CollectKinds(files[..n], kinds[..n]);
      CollectKeysDistinct(files[..n], kinds[..n]);
      match kinds[n]
      case Leaf(routePath, processed) =>
        PutKeepsDistinct(acc.routeMap, routePath, LeafEntry(files[n], routePath, processed));
      case _ =>
    }
  }

  /** The entry `e` was made from `files[i]`, the last leaf with route path `k`. */
  ghost predicate MadeFromLastLeaf<C>(files: seq<PageFile<C>>, kinds: seq<FileKind>, k: string, e: RouteMapEntry<C>, i: int) {
    LastLeafFor(kinds, k, i) && i < |files| && e == LeafEntry(files[i], k, kinds[i].processed)
  }

  /** The route path of the leaf `kinds[i]` is a key of `routeMap` after the first pass. */
  lemma {:induction false} LeafKeyKept<C>(files: seq<PageFile<C>>, kinds: seq<FileKind>, i: int, k: string)
    requires |kinds| == |files|
    requires 0 <= i < |kinds| && IsLeafFor(kinds[i], k)
    ensures k in CollectKinds(files, kinds).routeMap.entries
    decreases |files|
  {
    var n := |files| - 1;
    var acc := CollectKinds(files[..n], kinds[..n]);
    CollectFileRouteMap(acc, files[n], kinds[n]);
    if i < n {
      assert kinds[..n][i] == kinds[i];
      LeafKeyKept(files[..n], kinds[..n], i, k);
    }
  }

  /** After the first pass, every leaf's route path is a key of `routeMap`. */
  lemma CollectLeafKeys<C>(files: seq<PageFile<C>>, kinds: seq<FileKind>)
    requires |kinds| == |files|
    ensures forall i, k :: 0 <= i < |kinds| && IsLeafFor(kinds[i], k) ==> k in CollectKinds(files, kinds).routeMap.entries
  {
    forall i, k | 0 <= i < |kinds| && IsLeafFor(kinds[i], k)
      ensures k in CollectKinds(files, kinds).routeMap.entries
    {
      LeafKeyKept(files, kinds, i, k);
    }
  }

  lemma LastLeafExtend(kinds: seq<FileKind>, k: string, i: int)
    requires kinds != [] && LastLeafFor(kinds[..|kinds| - 1], k, i)
    requires !IsLeafFor(kinds[|kinds| - 1], k)
    ensures LastLeafFor(kinds, k, i)
  {
    var init := kinds[..|kinds| - 1];
    assert forall j :: 0 <= j < |init| ==> kinds[j] == init[j];
  }

  /**
   * After the first pass, each key of `routeMap` holds the entry of the last
   * leaf with that route path (a later assignment overwrites an earlier one).
   */
  lemma {:induction false} CollectLastLeafWins<C>(files: seq<PageFile<C>>, kinds: seq<FileKind>)
    requires |kinds| == |files|
    ensures forall k :: k in CollectKinds(files, kinds).routeMap.entries ==>
      exists i :: MadeFromLastLeaf(files, kinds, k, CollectKinds(files, kinds).routeMap.entries[k], i)
    decreases |files|
  {
    if files != [] {
      var n := |files| - 1;
      var init, initKinds := files[..n], kinds[..n];
      CollectLastLeafWins(init, initKinds);
      CollectFileRouteMap(CollectKinds(init, initKinds), files[n], kinds[n]);
      var before := CollectKinds(init, initKinds).routeMap.entries;
      var after := CollectKinds(files, kinds).routeMap.entries;
      forall k | k in after
        ensures exists i :: MadeFromLastLeaf(files, kinds, k, after[k], i)
      {
        if IsLeafFor(kinds[n], k) {
          assert MadeFromLastLeaf(files, kinds, k, after[k], n);
        } else {
          var i :| MadeFromLastLeaf(init, initKinds, k, before[k], i);
          assert init[i] == files[i] && initKinds[i] == kinds[i];
          LastLeafExtend(kinds, k, i);
          assert MadeFromLastLeaf(files, kinds, k, after[k], i);
        }
      }
    }
  }

  // ---------------------------------------------------------------------
  // The second pass keeps what the first pass built
  // ---------------------------------------------------------------------

  /** `b` keeps every record of `a` in place (only `children` may grow) and adds no redirect. */
  ghost predicate Extends<C>(a: seq<Route<C>>, b: seq<Route<C>>) {
    && |a| <= |b|
    && (forall i :: 0 <= i < |a| ==> b[i] == a[i].(children := b[i].children))
    && (forall i :: |a| <= i < |b| ==> b[i].redirect.None?)
  }

  lemma AttachChildExtends<C>(routes: seq<Route<C>>, lp: string, layout: LayoutEntry<C>, child: Route<C>)
    ensures Extends(routes, AttachChild(routes, lp, layout, child))
  {
    var r := AttachChild(routes, lp, layout, child);
    match FindRecord(routes, lp)
    case Some(i) =>
      assert r == routes[i := routes[i].(children := routes[i].children + [child])];
    case None =>
      assert r == routes + [LayoutRoute(lp, layout).(children := [child])];
  }

  lemma NestEntryExtends<C>(acc: Nesting<C>, routePath: string, e: RouteMapEntry<C>, layouts: Dict<LayoutEntry<C>>)
    ensures Extends(acc.routes, NestEntry(acc, routePath, e, layouts).routes)
  {
    match FirstEnclosing(routePath, SortByLength(layouts.keys))
    case None =>
    case Some(lp) =>
      SortedKeyIsKey(layouts.keys, lp);
      AttachChildExtends(acc.routes, lp, layouts.entries[lp], ChildRoute(routePath, lp, e));
  }

  lemma {:induction false} NestKeysExtends<C>(acc: Nesting<C>, keys: seq<string>, routeMap: Dict<RouteMapEntry<C>>,
                                              layouts: Dict<LayoutEntry<C>>)
    requires forall k :: k in keys ==> k in routeMap.entries
    ensures Extends(acc.routes, NestKeys(acc, keys, routeMap, layouts).routes)
    decreases |keys|
  {
    if keys != [] {
      var init := keys[..|keys| - 1];
      var last := keys[|keys| - 1];
      NestKeysExtends(acc, init, routeMap, layouts);
      var mid := NestKeys(acc, init, routeMap, layouts);
      NestEntryExtends(mid, last, routeMap.entries[last], layouts);
    }
  }

  /**
   * Without a root index, the first route of the result is the `/` redirect
   * to the directory of the first layout file discovered.
   */
  lemma BuildRedirect<C>(files: seq<PageFile<C>>, cfg: Config, first: nat)
    requires forall i :: 0 <= i < |files| ==> !Classify(files[i].path, cfg).RootIndex?
    requires first < |files| && Classify(files[first].path, cfg).LayoutFile?
    requires forall j :: 0 <= j < first ==> !Classify(files[j].path, cfg).LayoutFile?
    ensures |Build(files, cfg).routes| > 0
    ensures Build(files, cfg).routes[0].path == "/"
    ensures Build(files, cfg).routes[0].redirect == Some("/" + Classify(files[first].path, cfg).dir)
  {
    var kinds := KindsOf(files, cfg);
    var c := Collect(files, cfg);
    CollectRootIndex(files, kinds);
    FirstLayoutKey(files, kinds, first);
    assert WithRedirect(c) == [RedirectRoute("/" + c.layouts.keys[0])];
    var n := NestKeys(Nesting(WithRedirect(c), []), c.routeMap.keys, c.routeMap, c.layouts);
    NestKeysExtends(Nesting(WithRedirect(c), []), c.routeMap.keys, c.routeMap, c.layouts);
    assert n.routes[0] == WithRedirect(c)[0].(children := n.routes[0].children);
  }

  /** With a root index, or with no layout, no route of the result is a redirect. */
  lemma BuildNoRedirect<C>(files: seq<PageFile<C>>, cfg: Config)
    requires (exists i :: 0 <= i < |files| && Classify(files[i].path, cfg).RootIndex?)
          || (forall i :: 0 <= i < |files| ==> !Classify(files[i].path, cfg).LayoutFile?)
    ensures forall r :: r in Build(files, cfg).routes ==> r.redirect.None?
  {
    var kinds := KindsOf(files, cfg);
    var c := Collect(files, cfg);
    CollectHomeRoutes(files, kinds);
    CollectRootIndex(files, kinds);
    CollectHasLayouts(files, kinds);
    if exists i :: 0 <= i < |files| && Classify(files[i].path, cfg).RootIndex? {
      var i :| 0 <= i < |files| && Classify(files[i].path, cfg).RootIndex?;
      assert kinds[i].RootIndex?;
    } else {
      assert !HasLayout(kinds);
    }
    assert forall r :: r in WithRedirect(c) ==> r.redirect.None?;
    NestKeysExtends(Nesting(WithRedirect(c), []), c.routeMap.keys, c.routeMap, c.layouts);
  }
}
