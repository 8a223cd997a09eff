/**
 * The final component check: which paths it reports, and that a project
 * whose every page has a component gets no warning.
 */
module ComponentProps {
  import opened Options
  import opened ObjectMaps
  import opened RoutePaths
  import opened RouteTree
  import opened RouteTreeProps

  /**
   * Some record outside every redirect, at any depth, has the path `p` and
   * no component.
   */
  ghost predicate HasUnloaded<C>(routes: seq<Route<C>>, p: string)
    decreases routes
  {
    exists i :: 0 <= i < |routes| && !IsRedirect(routes[i]) &&
      ((routes[i].component.None? && routes[i].path == p) || HasUnloaded(routes[i].children, p))
  }

  /**
   * The check reports a path exactly when a record outside every redirect
   * has that path and no component.
   */
  lemma {:induction false} MissingComponentsExact<C>(routes: seq<Route<C>>, p: string)
    ensures p in MissingComponents(routes) <==> HasUnloaded(routes, p)
    decreases routes
  {
    if routes != [] {
      var r := routes[0];
      var tail := routes[1..];
      MissingComponentsExact(r.children, p);
      MissingComponentsExact(tail, p);
      if HasUnloaded(routes, p) {
        var i :| 0 <= i < |routes| && !IsRedirect(routes[i]) &&
          ((routes[i].component.None? && routes[i].path == p) || HasUnloaded(routes[i].children, p));
        if i > 0 {
          assert tail[i - 1] == routes[i];
          assert HasUnloaded(tail, p);
        }
      }
      if HasUnloaded(tail, p) {
        var i :| 0 <= i < |tail| && !IsRedirect(tail[i]) &&
          ((tail[i].component.None? && tail[i].path == p) || HasUnloaded(tail[i].children, p));
        assert routes[i + 1] == tail[i];
      }
      if !IsRedirect(r) && ((r.component.None? && r.path == p) || HasUnloaded(r.children, p)) {
        assert HasUnloaded(routes, p) by {
          assert routes[0] == r;
        }
      }
    }
  }

  /** Nothing is reported when no record outside a redirect lacks a component. */
  lemma MissingComponentsEmpty<C>(routes: seq<Route<C>>)
    requires forall p :: !HasUnloaded(routes, p)
    ensures MissingComponents(routes) == []
  {
    if MissingComponents(routes) != [] {
      var p := MissingComponents(routes)[0];
      MissingComponentsExact(routes, p);
      assert false;
    }
  }

  // ---------------------------------------------------------------------
  // Pages that all load produce no warning
  // ---------------------------------------------------------------------

  /** A redirect, or a record with a component whose children have components and no children. */
  ghost predicate RecordLoaded<C>(r: Route<C>) {
    IsRedirect(r) ||
    (r.component.Some? && forall k :: 0 <= k < |r.children| ==> r.children[k].component.Some? && r.children[k].children == [])
  }

  /** Every record outside a redirect has a component, and so do its children. */
  ghost predicate Loaded<C>(routes: seq<Route<C>>) {
    forall i :: 0 <= i < |routes| ==> RecordLoaded(routes[i])
  }

  lemma {:induction false} LoadedChildrenComplete<C>(children: seq<Route<C>>, p: string)
    requires forall k :: 0 <= k < |children| ==> children[k].component.Some? && children[k].children == []
    ensures !HasUnloaded(children, p)
  {
    forall i | 0 <= i < |children| ensures !HasUnloaded(children[i].children, p) {
      assert children[i].children == [];
    }
  }

  lemma LoadedComplete<C>(routes: seq<Route<C>>, p: string)
    requires Loaded(routes)
    ensures !HasUnloaded(routes, p)
  {
    forall i | 0 <= i < |routes| && !IsRedirect(routes[i]) ensures !HasUnloaded(routes[i].children, p) {
      assert RecordLoaded(routes[i]);
      LoadedChildrenComplete(routes[i].children, p);
    }
  }

  lemma AttachChildLoaded<C>(routes: seq<Route<C>>, lp: string, layout: LayoutEntry<C>, child: Route<C>)
    requires Loaded(routes) && layout.component.Some?
    requires child.component.Some? && child.children == []
    ensures Loaded(AttachChild(routes, lp, layout, child))
  {
    match FindRecord(routes, lp)
    case Some(i) =>
      var grown := routes[i].(children := routes[i].children + [child]);
      assert RecordLoaded(grown) by {
        assert RecordLoaded(routes[i]);
        var cs := routes[i].children + [child];
        assert forall k :: 0 <= k < |routes[i].children| ==> cs[k] == routes[i].children[k];
      }
      var r := routes[i := grown];
      forall j | 0 <= j < |r| ensures RecordLoaded(r[j]) {
        if j != i {
          assert r[j] == routes[j];
        }
      }
    case None =>
      var rec := LayoutRoute(lp, layout).(children := [child]);
      assert RecordLoaded(rec);
  }

  /** Nesting a page with a component under layouts with components keeps the routes loaded and warns nothing. */
  lemma NestEntryLoaded<C>(acc: Nesting<C>, routePath: string, e: RouteMapEntry<C>, layouts: Dict<LayoutEntry<C>>)
    requires Loaded(acc.routes) && e.component.Some?
    requires forall k :: k in layouts.entries ==> layouts.entries[k].component.Some?
    ensures Loaded(NestEntry(acc, routePath, e, layouts).routes)
    ensures NestEntry(acc, routePath, e, layouts).warnings == acc.warnings
  {
    match FirstEnclosing(routePath, SortByLength(layouts.keys))
    case None =>
      assert RecordLoaded(TopLevelRoute(e));
    case Some(lp) =>
      SortedKeyIsKey(layouts.keys, lp);
      AttachChildLoaded(acc.routes, lp, layouts.entries[lp], ChildRoute(routePath, lp, e));
  }

  lemma {:induction false} NestKeysLoaded<C>(acc: Nesting<C>, keys: seq<string>, routeMap: Dict<RouteMapEntry<C>>,
                                             layouts: Dict<LayoutEntry<C>>)
    requires forall k :: k in keys ==> k in routeMap.entries && routeMap.entries[k].component.Some?
    requires forall k :: k in layouts.entries ==> layouts.entries[k].component.Some?
    requires Loaded(acc.routes)
    ensures Loaded(NestKeys(acc, keys, routeMap, layouts).routes)
    ensures NestKeys(acc, keys, routeMap, layouts).warnings == acc.warnings
    decreases |keys|
  {
    if keys != [] {
      var init := keys[..|keys| - 1];
      var last := keys[|keys| - 1];
      NestKeysLoaded(acc, init, routeMap, layouts);
      NestEntryLoaded(NestKeys(acc, init, routeMap, layouts), last, routeMap.entries[last], layouts);
    }
  }

  /** Every page has a component. */
  ghost predicate AllPagesLoaded<C>(files: seq<PageFile<C>>) {
    forall i :: 0 <= i < |files| ==> files[i].component.Some?
  }

  /** When every page has a component, so does every record and table entry of the first pass. */
  lemma {:induction false} CollectLoaded<C>(files: seq<PageFile<C>>, kinds: seq<FileKind>)
    requires |kinds| == |files| && AllPagesLoaded(files)
    ensures forall r :: r in CollectKinds(files, kinds).routes ==> r.component.Some?
    ensures forall k :: k in CollectKinds(files, kinds).layouts.entries ==>
      CollectKinds(files, kinds).layouts.entries[k].component.Some?
    ensures forall k :: k in CollectKinds(files, kinds).routeMap.entries ==>
      CollectKinds(files, kinds).routeMap.entries[k].component.Some?
    decreases |files|
  {
    if files != [] {
      var n := |files| - 1;
      var init := files[..n];
      assert AllPagesLoaded(init) by {
        forall i | 0 <= i < n ensures init[i].component.Some? {
          assert init[i] == files[i];
        }
      }
      CollectLoaded(init, kinds[..n]);
      assert files[n].component.Some?;
    }
  }

  /** When every page has a component, the builder prints no warning. */
  lemma BuildWarnsNothingWhenAllLoaded<C>(files: seq<PageFile<C>>, cfg: Config)
    requires AllPagesLoaded(files)
    ensures Build(files, cfg).warnings == []
  {
    var c := Collect(files, cfg);
    CollectLoaded(files, KindsOf(files, cfg));
    CollectHomeRoutes(files, KindsOf(files, cfg));
    assert Loaded(WithRedirect(c));
    NestKeysLoaded(Nesting(WithRedirect(c), []), c.routeMap.keys, c.routeMap, c.layouts);
    var n := NestKeys(Nesting(WithRedirect(c), []), c.routeMap.keys, c.routeMap, c.layouts);
    forall p ensures !HasUnloaded(n.routes, p) {
      LoadedComplete(n.routes, p);
    }
    MissingComponentsEmpty(n.routes);
  }
}
