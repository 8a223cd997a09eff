/**
 * What the second pass guarantees: a route goes under the deepest layout
 * directory that encloses it (or stays at the top level when none does),
 * every `routeMap` entry is emitted exactly once, and a layout gets one
 * record, created together with its first child.
 */
module NestingProps {
  import opened Options
  import opened ObjectMaps
  import opened RoutePaths
  import opened RouteTree
  import opened RouteTreeProps

  // ---------------------------------------------------------------------
  // The deepest enclosing layout
  // ---------------------------------------------------------------------

  /** Two layout directories enclosing one path are nested in each other. */
  lemma EnclosingNested(k: string, lp: string, routePath: string)
    requires Encloses(k, routePath) && Encloses(lp, routePath) && |k| <= |lp|
    ensures k == lp || Encloses(k, lp)
  {
    assert routePath[..|k| + 1] == k + "/";
    assert routePath[..|lp| + 1] == lp + "/";
    if |k| == |lp| {
      assert k == (k + "/")[..|k|] == routePath[..|k|];
      assert lp == (lp + "/")[..|lp|] == routePath[..|lp|];
    } else {
      assert lp[..|k| + 1] == routePath[..|k| + 1];
    }
  }

  /** On a longest-first sequence, the first enclosing key is a longest enclosing key. */
  lemma {:induction false} FirstEnclosingLongest(routePath: string, s: seq<string>)
    requires DescendingByLength(s)
    ensures FirstEnclosing(routePath, s).None? <==> forall k :: k in s ==> !Encloses(k, routePath)
    ensures FirstEnclosing(routePath, s).Some? ==>
      forall k :: k in s && Encloses(k, routePath) ==> |k| <= |FirstEnclosing(routePath, s).value|
    decreases |s|
  {
    if s != [] {
      if Encloses(s[0], routePath) {
        forall k | k in s ensures |k| <= |s[0]| {
          var m :| 0 <= m < |s| && s[m] == k;
        }
      } else {
        var tail := s[1..];
        assert DescendingByLength(tail) by {
          forall i, j | 0 <= i < j < |tail| ensures |tail[i]| >= |tail[j]| {
            assert tail[i] == s[i + 1] && tail[j] == s[j + 1];
          }
        }
        FirstEnclosingLongest(routePath, tail);
        assert forall k :: k in s ==> k == s[0] || k in tail;
      }
    }
  }

  /**
   * The layout a route is nested in: none exactly when no layout directory
   * encloses the route's path; otherwise one that encloses it and lies
   * inside every other enclosing layout directory (the deepest one).
   */
  lemma DeepestLayoutWins(routePath: string, keys: seq<string>)
    ensures FirstEnclosing(routePath, SortByLength(keys)).None? <==> forall k :: k in keys ==> !Encloses(k, routePath)
    ensures FirstEnclosing(routePath, SortByLength(keys)).Some? ==>
      var lp := FirstEnclosing(routePath, SortByLength(keys)).value;
      && lp in keys && Encloses(lp, routePath)
      && forall k :: k in keys && Encloses(k, routePath) ==> k == lp || Encloses(k, lp)
  {
    var sorted := SortByLength(keys);
    SortByLengthDescending(keys);
    SortByLengthPermutes(keys);
    FirstEnclosingLongest(routePath, sorted);
    assert forall k :: k in keys <==> k in sorted by {
      forall k ensures k in keys <==> k in sorted {
        assert k in keys <==> k in multiset(keys);
        assert k in sorted <==> k in multiset(sorted);
      }
    }
    if FirstEnclosing(routePath, sorted).Some? {
      var lp := FirstEnclosing(routePath, sorted).value;
      forall k | k in keys && Encloses(k, routePath) ensures k == lp || Encloses(k, lp) {
        EnclosingNested(k, lp, routePath);
      }
    }
  }

  /** Where `AttachChild` puts its child: the record `find` returns, or a new record at the end. */
  function PlacedAt<C>(routes: seq<Route<C>>, lp: string): nat {
    match FindRecord(routes, lp)
    case Some(i) => i
    case None => |routes|
  }

  /** The child ends up as the last child of a record whose path is the layout's path. */
  lemma AttachChildPlacement<C>(routes: seq<Route<C>>, lp: string, layout: LayoutEntry<C>, child: Route<C>)
    ensures var r := AttachChild(routes, lp, layout, child);
      var i := PlacedAt(routes, lp);
      && i < |r| && r[i].path == "/" + lp && r[i].children != [] && r[i].children[|r[i].children| - 1] == child
  {
    var r := AttachChild(routes, lp, layout, child);
    match FindRecord(routes, lp)
    case Some(i) =>
      assert r[i].children[|r[i].children| - 1] == child;
      assert r[i].path == "/" + lp;
    case None =>
      var n := |routes|;
      assert r[n].children == [child];
      assert r[n].path == "/" + lp;
  }

  /** A `routeMap` entry that no layout encloses is appended at the top level. */
  lemma NestEntryTopLevel<C>(acc: Nesting<C>, routePath: string, e: RouteMapEntry<C>, layouts: Dict<LayoutEntry<C>>)
    requires FirstEnclosing(routePath, SortByLength(layouts.keys)).None?
    ensures NestEntry(acc, routePath, e, layouts).routes == acc.routes + [TopLevelRoute(e)]
  {
  }

  /**
   * A `routeMap` entry that a layout encloses lands as the last child of a
   * record whose path is that layout's path.
   */
  lemma NestEntryNested<C>(acc: Nesting<C>, routePath: string, e: RouteMapEntry<C>, layouts: Dict<LayoutEntry<C>>)
    requires FirstEnclosing(routePath, SortByLength(layouts.keys)).Some?
    ensures var r := NestEntry(acc, routePath, e, layouts).routes;
      var lp := FirstEnclosing(routePath, SortByLength(layouts.keys)).value;
      var i := PlacedAt(acc.routes, lp);
      && Encloses(lp, routePath)
      && i < |r| && r[i].path == "/" + lp && r[i].children != []
      && r[i].children[|r[i].children| - 1] == ChildRoute(routePath, lp, e)
  {
    var lp := FirstEnclosing(routePath, SortByLength(layouts.keys)).value;
    SortedKeyIsKey(layouts.keys, lp);
    AttachChildPlacement(acc.routes, lp, layouts.entries[lp], ChildRoute(routePath, lp, e));
  }

  // ---------------------------------------------------------------------
  // Every entry is emitted exactly once
  // ---------------------------------------------------------------------

  /** 1 when the record was made from the file `f`, else 0. */
  function FromFile<C>(r: Route<C>, f: string): nat {
    if r.originalFilePath == Some(f) then 1 else 0
  }

  function ChildCount<C>(children: seq<Route<C>>, f: string): nat
    decreases |children|
  {
    if children == [] then 0
    else ChildCount(children[..|children| - 1], f) + FromFile(children[|children| - 1], f)
  }

  /** How many of a top-level record and its children were made from `f`. */
  function TreeCount<C>(r: Route<C>, f: string): nat {
    FromFile(r, f) + ChildCount(r.children, f)
  }

  /** How many emitted routes, top level and nested, were made from the file `f`. */
  function FileCount<C>(routes: seq<Route<C>>, f: string): nat
    decreases |routes|
  {
    if routes == [] then 0
    else FileCount(routes[..|routes| - 1], f) + TreeCount(routes[|routes| - 1], f)
  }

  /** How many `routeMap` entries of `keys` were made from the file `f`. */
  function EntryCount<C>(keys: seq<string>, routeMap: Dict<RouteMapEntry<C>>, f: string): nat
    requires forall k :: k in keys ==> k in routeMap.entries
    decreases |keys|
  {
    if keys == [] then 0
    else
      EntryCount(keys[..|keys| - 1], routeMap, f)
        + (if routeMap.entries[keys[|keys| - 1]].originalFilePath == f then 1 else 0)
  }

  lemma {:induction false} FileCountUpdate<C>(routes: seq<Route<C>>, i: nat, r: Route<C>, f: string)
    requires i < |routes|
    ensures FileCount(routes[i := r], f) + TreeCount(routes[i], f) == FileCount(routes, f) + TreeCount(r, f)
    decreases |routes|
  {
    var n := |routes| - 1;
    var updated := routes[i := r];
    if i == n {
      assert updated[..n] == routes[..n];
    } else {
      assert updated[..n] == routes[..n][i := r];
      FileCountUpdate(routes[..n], i, r, f);
    }
  }

  lemma FileCountAppend<C>(routes: seq<Route<C>>, r: Route<C>, f: string)
    ensures FileCount(routes + [r], f) == FileCount(routes, f) + TreeCount(r, f)
  {
    assert (routes + [r])[..|routes|] == routes;
  }

  lemma {:induction false} FileCountWithoutFiles<C>(routes: seq<Route<C>>, f: string)
    requires forall r :: r in routes ==> r.originalFilePath.None? && r.children == []
    ensures FileCount(routes, f) == 0
    decreases |routes|
  {
    if routes != [] {
      var init := routes[..|routes| - 1];
      assert forall r :: r in init ==> r in routes;
      FileCountWithoutFiles(init, f);
    }
  }

  /** Attaching a child adds exactly the child's own file. */
  lemma AttachChildCount<C>(routes: seq<Route<C>>, lp: string, layout: LayoutEntry<C>, child: Route<C>, f: string)
    ensures FileCount(AttachChild(routes, lp, layout, child), f) == FileCount(routes, f) + FromFile(child, f)
  {
    match FindRecord(routes, lp)
    case Some(i) =>
      var old_ := routes[i];
      var new_ := old_.(children := old_.children + [child]);
      assert (old_.children + [child])[..|old_.children|] == old_.children;
      FileCountUpdate(routes, i, new_, f);
    case None =>
      var rec := LayoutRoute(lp, layout).(children := [child]);
      FileCountAppend(routes, rec, f);
      assert [child][..0] == [];
      assert ChildCount([child], f) == FromFile(child, f);
      assert TreeCount(rec, f) == FromFile(child, f);
  }

  /** Nesting one entry adds exactly one route made from that entry's file. */
  lemma NestEntryCount<C>(acc: Nesting<C>, routePath: string, e: RouteMapEntry<C>, layouts: Dict<LayoutEntry<C>>, f: string)
    ensures FileCount(NestEntry(acc, routePath, e, layouts).routes, f)
         == FileCount(acc.routes, f) + (if e.originalFilePath == f then 1 else 0)
  {
    match FirstEnclosing(routePath, SortByLength(layouts.keys))
    case None =>
      FileCountAppend(acc.routes, TopLevelRoute(e), f);
    case Some(lp) =>
      SortedKeyIsKey(layouts.keys, lp);
      AttachChildCount(acc.routes, lp, layouts.entries[lp], ChildRoute(routePath, lp, e), f);
  }

  lemma {:induction false} NestKeysCount<C>(acc: Nesting<C>, keys: seq<string>, routeMap: Dict<RouteMapEntry<C>>,
                                            layouts: Dict<LayoutEntry<C>>, f: string)
    requires forall k :: k in keys ==> k in routeMap.entries
    ensures FileCount(NestKeys(acc, keys, routeMap, layouts).routes, f) == FileCount(acc.routes, f) + EntryCount(keys, routeMap, f)
    decreases |keys|
  {
    if keys != [] {
      var init := keys[..|keys| - 1];
      var last := keys[|keys| - 1];
      NestKeysCount(acc, init, routeMap, layouts, f);
      NestEntryCount(NestKeys(acc, init, routeMap, layouts), last, routeMap.entries[last], layouts, f);
    }
  }

  /**
   * Every `routeMap` entry is emitted exactly once, at the top level or as a
   * child of a layout: the routes made from a file are as many as the
   * entries made from it, and the `home` and redirect records name no file.
   */
  lemma BuildEmitsEveryEntryOnce<C>(files: seq<PageFile<C>>, cfg: Config, f: string)
    ensures var c := Collect(files, cfg);
      FileCount(Build(files, cfg).routes, f) == EntryCount(c.routeMap.keys, c.routeMap, f)
  {
    var c := Collect(files, cfg);
    CollectHomeRoutes(files, KindsOf(files, cfg));
    assert forall r :: r in WithRedirect(c) ==> r.originalFilePath.None? && r.children == [];
    FileCountWithoutFiles(WithRedirect(c), f);
    NestKeysCount(Nesting(WithRedirect(c), []), c.routeMap.keys, c.routeMap, c.layouts, f);
  }

  lemma {:induction false} EntryCountZero<C>(keys: seq<string>, routeMap: Dict<RouteMapEntry<C>>, f: string)
    requires forall k :: k in keys ==> k in routeMap.entries && routeMap.entries[k].originalFilePath != f
    ensures EntryCount(keys, routeMap, f) == 0
    decreases |keys|
  {
    if keys != [] {
      EntryCountZero(keys[..|keys| - 1], routeMap, f);
    }
  }

  lemma {:induction false} EntryCountOne<C>(keys: seq<string>, routeMap: Dict<RouteMapEntry<C>>, f: string, k0: string)
    requires forall k :: k in keys ==> k in routeMap.entries
    requires Distinct(keys)
    requires k0 in keys && routeMap.entries[k0].originalFilePath == f
    requires forall k :: k in keys && k != k0 ==> routeMap.entries[k].originalFilePath != f
    ensures EntryCount(keys, routeMap, f) == 1
    decreases |keys|
  {
    var n := |keys| - 1;
    var init := keys[..n];
    if keys[n] == k0 {
      forall k | k in init ensures k != k0 {
        var m :| 0 <= m < n && init[m] == k;
        assert keys[m] == k;
      }
      EntryCountZero(init, routeMap, f);
    } else {
      assert k0 in init by {
        var m :| 0 <= m < |keys| && keys[m] == k0;
        assert init[m] == k0;
      }
      EntryCountOne(init, routeMap, f, k0);
    }
  }

  /**
   * The last page with a given route path is emitted exactly once, at the
   * top level or nested in a layout; an earlier page with the same route
   * path is overwritten.
   */
  lemma BuildEmitsLastLeafOnce<C>(files: seq<PageFile<C>>, cfg: Config, k: string, i: int)
    requires LastLeafFor(KindsOf(files, cfg), k, i)
    ensures FileCount(Build(files, cfg).routes, files[i].path) == 1
  {
    var kinds := KindsOf(files, cfg);
    var c := Collect(files, cfg);
    var entries := c.routeMap.entries;
    var f := files[i].path;
    CollectLeafKeys(files, kinds);
    CollectLastLeafWins(files, kinds);
    CollectKeysDistinct(files, kinds);
    assert k in entries;
    var i' :| MadeFromLastLeaf(files, kinds, k, entries[k], i');
    assert i' == i;
    forall k' | k' in c.routeMap.keys && k' != k ensures entries[k'].originalFilePath != f {
      var j :| MadeFromLastLeaf(files, kinds, k', entries[k'], j);
      assert IsLeafFor(kinds[j], k') && IsLeafFor(kinds[i], k);
    }
    EntryCountOne(c.routeMap.keys, c.routeMap, f, k);
    BuildEmitsEveryEntryOnce(files, cfg, f);
  }

  /** No route is made from a path that is not a leaf page. */
  lemma BuildEmitsNoOtherFile<C>(files: seq<PageFile<C>>, cfg: Config, f: string)
    requires !Classify(f, cfg).Leaf?
    ensures FileCount(Build(files, cfg).routes, f) == 0
  {
    var kinds := KindsOf(files, cfg);
    var c := Collect(files, cfg);
    var entries := c.routeMap.entries;
    CollectLastLeafWins(files, kinds);
    forall k | k in c.routeMap.keys ensures k in entries && entries[k].originalFilePath != f {
      var j :| MadeFromLastLeaf(files, kinds, k, entries[k], j);
      assert entries[k].originalFilePath == files[j].path;
    }
    EntryCountZero(c.routeMap.keys, c.routeMap, f);
    BuildEmitsEveryEntryOnce(files, cfg, f);
  }

  // ---------------------------------------------------------------------
  // One record per layout, created with its first child
  // ---------------------------------------------------------------------

  /** A record that is neither a named route nor a redirect: only a layout's record is. */
  predicate IsLayoutRecord<C>(r: Route<C>) {
    r.name.None? && r.redirect.None?
  }

  /**
   * Every layout record was made from an entry of the layout table, has at
   * least one child, and has a path that no earlier record has.
   */
  ghost predicate LayoutRecordsSound<C>(routes: seq<Route<C>>, layouts: Dict<LayoutEntry<C>>) {
    forall j :: 0 <= j < |routes| && IsLayoutRecord(routes[j]) ==>
      && routes[j].children != []
      && (exists lp :: lp in layouts.entries && routes[j] == LayoutRoute(lp, layouts.entries[lp]).(children := routes[j].children))
      && (forall i :: 0 <= i < j ==> routes[i].path != routes[j].path)
  }

  /** Attaching a child to the layout `lp` of the table keeps the layout records sound. */
  lemma AttachChildKeepsLayoutRecords<C>(routes: seq<Route<C>>, lp: string, child: Route<C>, layouts: Dict<LayoutEntry<C>>)
    requires lp in layouts.entries
    requires LayoutRecordsSound(routes, layouts)
    ensures LayoutRecordsSound(AttachChild(routes, lp, layouts.entries[lp], child), layouts)
  {
    var r := AttachChild(routes, lp, layouts.entries[lp], child);
    match FindRecord(routes, lp)
    case Some(i) =>
      assert r == routes[i := routes[i].(children := routes[i].children + [child])];
      forall j | 0 <= j < |r| && IsLayoutRecord(r[j])
        ensures exists lp' :: lp' in layouts.entries && r[j] == LayoutRoute(lp', layouts.entries[lp']).(children := r[j].children)
      {
        var lp' :| lp' in layouts.entries && routes[j] == LayoutRoute(lp', layouts.entries[lp']).(children := routes[j].children);
        assert r[j] == LayoutRoute(lp', layouts.entries[lp']).(children := r[j].children);
      }
    case None =>
      var rec := LayoutRoute(lp, layouts.entries[lp]).(children := [child]);
      assert r == routes + [rec];
      forall i | 0 <= i < |routes| ensures routes[i].path != rec.path {
        assert !MatchesLayout(routes[i], lp);
      }
      forall j | 0 <= j < |r| && IsLayoutRecord(r[j])
        ensures exists lp' :: lp' in layouts.entries && r[j] == LayoutRoute(lp', layouts.entries[lp']).(children := r[j].children)
      {
        if j == |routes| {
          assert r[j] == LayoutRoute(lp, layouts.entries[lp]).(children := r[j].children);
        } else {
          assert r[j] == routes[j];
        }
      }
  }

  lemma NestEntryKeepsLayoutRecords<C>(acc: Nesting<C>, routePath: string, e: RouteMapEntry<C>, layouts: Dict<LayoutEntry<C>>)
    requires LayoutRecordsSound(acc.routes, layouts)
    ensures LayoutRecordsSound(NestEntry(acc, routePath, e, layouts).routes, layouts)
  {
    match FirstEnclosing(routePath, SortByLength(layouts.keys))
    case None =>
      var r := NestEntry(acc, routePath, e, layouts).routes;
      assert r == acc.routes + [TopLevelRoute(e)];
      assert forall j :: 0 <= j < |acc.routes| ==> r[j] == acc.routes[j];
    case Some(lp) =>
      SortedKeyIsKey(layouts.keys, lp);
      AttachChildKeepsLayoutRecords(acc.routes, lp, ChildRoute(routePath, lp, e), layouts);
  }

  lemma {:induction false} NestKeysKeepsLayoutRecords<C>(acc: Nesting<C>, keys: seq<string>, routeMap: Dict<RouteMapEntry<C>>,
                                                         layouts: Dict<LayoutEntry<C>>)
    requires forall k :: k in keys ==> k in routeMap.entries
    requires LayoutRecordsSound(acc.routes, layouts)
    ensures LayoutRecordsSound(NestKeys(acc, keys, routeMap, layouts).routes, layouts)
    decreases |keys|
  {
    if keys != [] {
      var init := keys[..|keys| - 1];
      var last := keys[|keys| - 1];
      NestKeysKeepsLayoutRecords(acc, init, routeMap, layouts);
      NestEntryKeepsLayoutRecords(NestKeys(acc, init, routeMap, layouts), last, routeMap.entries[last], layouts);
    }
  }

  /**
   * In the result, a layout's record exists only once it has a child, is
   * made from the layout table, and no two layout records share a path.
   */
  lemma BuildLayoutRecords<C>(files: seq<PageFile<C>>, cfg: Config)
    ensures LayoutRecordsSound(Build(files, cfg).routes, Collect(files, cfg).layouts)
    ensures var routes := Build(files, cfg).routes;
      forall i, j :: 0 <= i < j < |routes| && IsLayoutRecord(routes[i]) && IsLayoutRecord(routes[j]) ==>
        routes[i].path != routes[j].path
  {
    var c := Collect(files, cfg);
    CollectHomeRoutes(files, KindsOf(files, cfg));
    assert forall r :: r in WithRedirect(c) ==> !IsLayoutRecord(r);
    NestKeysKeepsLayoutRecords(Nesting(WithRedirect(c), []), c.routeMap.keys, c.routeMap, c.layouts);
  }

  // ---------------------------------------------------------------------
  // One level of nesting
  // ---------------------------------------------------------------------

  /** No child record has children of its own. */
  ghost predicate OneLevel<C>(routes: seq<Route<C>>) {
    forall j, k :: 0 <= j < |routes| && 0 <= k < |routes[j].children| ==> routes[j].children[k].children == []
  }

  /** Attaching a childless record keeps the nesting one level deep. */
  lemma AttachChildOneLevel<C>(routes: seq<Route<C>>, lp: string, layout: LayoutEntry<C>, child: Route<C>)
    requires OneLevel(routes) && child.children == []
    ensures OneLevel(AttachChild(routes, lp, layout, child))
  {
    var r := AttachChild(routes, lp, layout, child);
    match FindRecord(routes, lp)
    case Some(i) =>
      forall j, k | 0 <= j < |r| && 0 <= k < |r[j].children| ensures r[j].children[k].children == [] {
        if j == i && k == |routes[i].children| {
          assert r[j].children[k] == child;
        } else {
          assert r[j].children[k] == routes[j].children[k];
        }
      }
    case None =>
      forall j, k | 0 <= j < |r| && 0 <= k < |r[j].children| ensures r[j].children[k].children == [] {
        if j == |routes| {
          assert r[j].children == [child];
        } else {
          assert r[j] == routes[j];
        }
      }
  }

  /** Nesting one entry keeps the nesting one level deep: a nested entry is a childless record. */
  lemma NestEntryOneLevel<C>(acc: Nesting<C>, routePath: string, e: RouteMapEntry<C>, layouts: Dict<LayoutEntry<C>>)
    requires OneLevel(acc.routes)
    ensures OneLevel(NestEntry(acc, routePath, e, layouts).routes)
  {
    match FirstEnclosing(routePath, SortByLength(layouts.keys))
    case None =>
      var r := NestEntry(acc, routePath, e, layouts).routes;
      assert r == acc.routes + [TopLevelRoute(e)];
      assert forall j :: 0 <= j < |acc.routes| ==> r[j] == acc.routes[j];
    case Some(lp) =>
      SortedKeyIsKey(layouts.keys, lp);
      AttachChildOneLevel(acc.routes, lp, layouts.entries[lp], ChildRoute(routePath, lp, e));
  }

  /** The second pass keeps the nesting one level deep. */
  lemma {:induction false} NestKeysOneLevel<C>(acc: Nesting<C>, keys: seq<string>, routeMap: Dict<RouteMapEntry<C>>,
                                               layouts: Dict<LayoutEntry<C>>)
    requires forall k :: k in keys ==> k in routeMap.entries
    requires OneLevel(acc.routes)
    ensures OneLevel(NestKeys(acc, keys, routeMap, layouts).routes)
    decreases |keys|
  {
    if keys != [] {
      var init := keys[..|keys| - 1];
      var last := keys[|keys| - 1];
      NestKeysOneLevel(acc, init, routeMap, layouts);
      NestEntryOneLevel(NestKeys(acc, init, routeMap, layouts), last, routeMap.entries[last], layouts);
    }
  }

  /** The builder nests one level deep: the children of a record have no children. */
  lemma BuildNestsOneLevel<C>(files: seq<PageFile<C>>, cfg: Config)
    ensures OneLevel(Build(files, cfg).routes)
  {
    var c := Collect(files, cfg);
    CollectHomeRoutes(files, KindsOf(files, cfg));
    assert forall j :: 0 <= j < |WithRedirect(c)| ==> WithRedirect(c)[j].children == [];
    NestKeysOneLevel(Nesting(WithRedirect(c), []), c.routeMap.keys, c.routeMap, c.layouts);
  }
}
