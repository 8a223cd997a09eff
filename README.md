# vite-plugin-convention-routes, modelled in Dafny

This project models the core of the Vite plugin `vite-plugin-convention-routes` (`src/index.ts`). The plugin turns a directory of `.vue` pages into a Vue Router route table. The model covers two parts.

**The route builder.** This is the JavaScript program that the plugin generates into the app's router file (`src/index.ts:103-338`).
- A first pass over the discovered pages classifies each one:
  - excluded;
  - the root `index`, which becomes the `home` route;
  - a layout `<dir>/_layout`, which goes into the `layouts` table;
  - an ordinary page, which goes into the `routeMap` table, keyed by its route path.
- A `/` redirect to the first layout is added when there is no root index.
- A second pass nests every `routeMap` entry under its deepest enclosing layout. Layouts are tried longest path first. The layout's record is created on first use, and the child gets a path relative to the layout.
- A final walk reports every record without a component.

The builder is a `method` (`RouteTree.BuildRoutes`, with `CollectPages`, `NestRoute` and `AttachToLayout`) that uses the source's loops and tables. It is proved equal to the specification function `RouteTree.Build`. The lemmas in `RouteTreeProps`, `NestingProps` and `ComponentProps` state what `Build` guarantees.

**The plugin hooks.**
- `transform` has a guard on the module id and a regular-expression splice of the generated program into `const routes = []` (`src/index.ts:92-97, 341-353`).
- `resolveId` and `load` serve the virtual module from the `routesCode` variable that `transform` updates (`src/index.ts:73-75, 402-414`).
- `configResolved` records the project root (`src/index.ts:80-90`).

These hooks are the class `Plugin.ConventionRoutesPlugin`, whose fields are the closure variables. The regular expressions are written out as functions over `seq<char>`:
- `\[(\w+)\]` → `:$1` is `JsStrings.RewriteParams`;
- the `routes` declaration pattern is `Plugin.DeclAt` and `Plugin.FindDecl`;
- `^…`/`…$` with literal text is `DropPrefix`/`DropSuffix`.

Page components are opaque values of a type parameter `C`. A component that is `undefined` is `None`. JavaScript objects used as dictionaries are `ObjectMaps.Dict`, which keeps the keys in first-assignment order, as `Object.keys` lists them.

Where the description of the plugin and its code differ, the model follows the code:
- **Trailing `index`.** A trailing `index` is dropped before the parameter rewrite, so `users/index.vue` becomes `/users/`, not `/users` (`ConcreteCases.IndexPageKeepsSlash`). `users/[id]/index.vue` becomes `/users/:id/` (`ConcreteCases.DynamicSegment`), although the comment at `src/index.ts:173` says `users/:id`. Any text ending in `index` loses it, so `reindex` becomes `re`.
- **Splice result.** The generated program starts with a comment line, and the splice puts the trimmed program right after `const routes = ` (`PluginProps.SpliceBareDeclaration`). The transformed file therefore reads `const routes = // …` with the list on the next line. The expectation at `src/index.test.ts:40` that it contains `const routes = [` does not hold for this text.
- **The redirect target.** The redirect goes to the directory of the first layout *discovered* (`RouteTreeProps.BuildRedirect`).
- **Layouts nest only their subdirectories.** `_layout.vue` directly in the routes directory is no layout: it is routed as a page named after it (`RoutePaths.RootLayoutIsPage`). A layout `dir` nests only routes under `dir/`.

## Model

| member | source | states |
|---|---|---|
| JsStrings.DropPrefix | src/index.ts:139 | removing a literal `^` prefix: the prefix followed by the result is the input when it starts with the prefix, and nothing changes otherwise |
| JsStrings.DropSuffix | src/index.ts:140 | removing a literal `$` suffix: the result followed by the suffix is the input when it ends with the suffix, and nothing changes otherwise |
| JsStrings.ReplaceChar | src/index.ts:187 | `/\//g` → `-`: same length, each position holds the replacement exactly where the input held the replaced character |
| JsStrings.RemoveChar | src/index.ts:187 | `/:/g` → `''`: the result holds no `:`, only characters of the input, and is the input when it had no `:` |
| JsStrings.WordPrefixLen | src/index.ts:176 | the `\w+` run: every character counted is a word character and the next one is not |
| JsStrings.TrimStart | src/index.ts:348 | `trim` at the front: the result is a suffix that starts with no white space, and everything cut off was white space |
| JsStrings.TrimEnd | src/index.ts:348 | `trim` at the end: the result is a prefix that ends with no white space, and everything cut off was white space |
| JsStrings.RewriteWithoutBrackets | src/index.ts:176 | text without `[` passes the parameter rewrite unchanged |
| JsStrings.RewriteChars | src/index.ts:176 | every character of the rewritten text comes from the input, except a `:` that replaced a `[` |
| JsStrings.RewriteNonWordHead | src/index.ts:176 | a rewrite of text that starts with no word character starts with no word character, and with `]` exactly when the text does |
| JsStrings.RewriteWordHead | src/index.ts:176 | a word character in front keeps the word run of the rest through the rewrite |
| JsStrings.RewriteKeepsWordRun | src/index.ts:176 | the rewrite keeps the leading word run and whether `]` follows it |
| JsStrings.WordsThenParamFree | src/index.ts:176 | word characters put in front of text with no `[name]` leave no `[name]` |
| JsStrings.RewriteIsParamFree | src/index.ts:176 | after the global rewrite, no `[name]` is left anywhere |
| JsStrings.ParamFreeAfterParam | src/index.ts:176 | a `[name]` rewritten to `:name` in front of parameter-free text leaves no `[name]` |
| JsStrings.ParamFreeAfterChar | src/index.ts:176 | a character that starts no parameter, in front of a parameter-free rewrite, leaves no `[name]` |
| JsStrings.RewriteParamFree | src/index.ts:176 | text with no `[name]` is a fixed point of the rewrite |
| JsStrings.WordPrefixOfPrefix | src/index.ts:176 | a word run that ends inside a prefix is the word run of the whole text |
| JsStrings.ParamFreePrefix | src/index.ts:177 | cutting a suffix off text with no `[name]` leaves none |
| JsStrings.IncludesNeedsChar | src/index.ts:95 | `includes(p)` is false when `p` has a character the text lacks |
| JsStrings.RewriteAfterPlainText | src/index.ts:176 | text without `[` in front is copied and the rest is rewritten on its own |
| JsStrings.WordPrefixOfWords | src/index.ts:176 | word characters in front lengthen the word run by their number |
| JsStrings.RewriteParamHead | src/index.ts:176 | `[<w>]` with a non-empty word `w` in front is rewritten to `:<w>`, and the rest on its own |
| JsStrings.RewriteParams | src/index.ts:176 | definition of `\[(\w+)\]` → `:$1`; properties in `RewriteIsParamFree`, `RewriteParamFree`, `RewriteIdempotent`, `RewriteChars` |
| JsStrings.TrimDashes | src/index.ts:187 | definition of `/^-\|-$/g` → `''`; cases in `ConcreteCases.TrimTrailingDash` |
| JsStrings.ReplaceCharAbsent | src/index.ts:187 | replacing an absent character changes nothing |
| JsStrings.ReplaceCharConcat | src/index.ts:187 | the `/` → `-` replacement distributes over concatenation |
| JsStrings.RemoveCharConcat | src/index.ts:187 | the `:` removal distributes over concatenation |
| JsStrings.RewriteIdempotent | src/index.ts:256-258 | rewriting twice is rewriting once, so the second rewrite of a child path cannot change it |
| ObjectMaps.Empty | src/index.ts:115-118 | a fresh `{}` has no keys and no entries |
| ObjectMaps.Put | src/index.ts:161-164 | `d[k] = v`: the entry is replaced; a new key is appended to `Object.keys`, and an existing key keeps its place |
| ObjectMaps.PutKeepsDistinct | src/index.ts:184-190 | an assignment never lists a key twice in `Object.keys` |
| RoutePaths.RouteNameShape | src/index.ts:187 | a route name is never empty and holds neither `:` nor `/` |
| RoutePaths.Classify | src/index.ts:126-190 | a file is excluded exactly when some excluded directory matches it; a route's key is its path relative to the routes directory without `.vue`, and its processed path is non-empty |
| RoutePaths.ChildPathRewritesOnce | src/index.ts:250-258 | the conditional second `[x]` → `:x` rewrite of a child path never changes it |
| RoutePaths.ProcessedColons | src/index.ts:174-178 | a processed path holds `:` only when the file path held `:` or `[` |
| RoutePaths.ProcessedWithoutBrackets | src/index.ts:174-178 | a path without brackets only loses its trailing `index`, then a trailing `/index` |
| RoutePaths.RewriteHeadNotSlash | src/index.ts:251 | the rewrite never turns a first character other than `/` into `/` |
| RoutePaths.DropSuffixIsPrefix | src/index.ts:252-253 | dropping a suffix leaves a prefix of the text |
| RoutePaths.ChildPathNoLeadingSlash | src/index.ts:245-261 | a child path does not start with `/` unless the route path has an empty segment right after the layout |
| RoutePaths.LayoutIndexIsEmptyChild | src/index.ts:245-261 | the layout directory's own `index` page lies under the layout and gets the empty child path |
| RoutePaths.RoutePathOfPage | src/index.ts:138-140 | `/<routesDir>/<rel>.vue` has the route path `rel` |
| RoutePaths.RootIndexPage | src/index.ts:143-155 | `<routesDir>/index.vue` is the root index unless excluded |
| RoutePaths.LayoutRoutePath | src/index.ts:158-160 | `<dir>/<name>` is not `index`, ends with `/<name>`, and cutting that off leaves `dir` |
| RoutePaths.LayoutPage | src/index.ts:158-164 | `<dir>/<layoutName>.vue` is the layout of `dir` unless excluded |
| RoutePaths.RootLayoutIsPage | src/index.ts:158 | `<layoutName>.vue` directly in the routes directory is no layout; it is a route or ignored |
| RoutePaths.ExcludedDirectory | src/index.ts:126-136 | a file under `/<routesDir>/<e>/` anywhere in the path, or starting `/<routesDir>/<e>.`, is excluded |
| RoutePaths.IncludesInfix | src/index.ts:127 | a text includes every infix |
| RoutePaths.IsExcluded | src/index.ts:126-129 | definition of the exclusion test; properties in `Classify` and `ExcludedDirectory` |
| RoutePaths.RoutePathOf | src/index.ts:138-140 | definition of the route path; properties in `RoutePathOfPage` |
| RoutePaths.ProcessedPath | src/index.ts:174-178 | definition of the processed path; properties in `ProcessedColons`, `ProcessedWithoutBrackets` and the `ConcreteCases` lemmas |
| RoutePaths.RouteName | src/index.ts:187 | definition of the route name; properties in `RouteNameShape` |
| RoutePaths.ChildPath | src/index.ts:245-261 | definition of the child path; properties in `ChildPathRewritesOnce`, `ChildPathNoLeadingSlash`, `LayoutIndexIsEmptyChild` |
| RouteTree.InsertByLengthPermutes | src/index.ts:209-210 | insertion into the sorted layout keys adds the key and drops none |
| RouteTree.InsertByLengthElements | src/index.ts:209-210 | every element of the insertion is the inserted key or an earlier key |
| RouteTree.InsertKeepsDescending | src/index.ts:210 | insertion keeps the keys longest first |
| RouteTree.SortByLengthPermutes | src/index.ts:209-210 | the sorted layout keys are a permutation of `Object.keys(layouts)` |
| RouteTree.SortByLengthDescending | src/index.ts:208-210 | the sorted layout keys are longest first |
| RouteTree.SortedKeyIsKey | src/index.ts:209-213 | every sorted layout key is a key of `layouts` |
| RouteTree.FirstEnclosing | src/index.ts:211-214 | the layout that sets `parentFound` is a key that encloses the route path |
| RouteTree.FindRecord | src/index.ts:217-220 | `find`: the first top-level record whose path is the layout's (or `/` for the empty layout path), or none when no record matches |
| RouteTree.FirstEnclosingExtend | src/index.ts:211-214 | one more iteration of the `forEach` sets the flag only if it was unset and the layout encloses the route |
| RouteTree.CollectPages | src/index.ts:124-191 | the first-pass loop computes exactly the first-pass specification |
| RouteTree.AttachToLayout | src/index.ts:217-290 | `find` or create the layout record, warn on a missing component, and push the child, exactly as `NestUnder` specifies |
| RouteTree.NestRoute | src/index.ts:202-299 | the `parentFound` loop over the sorted layouts nests the entry exactly as `NestEntry` specifies |
| RouteTree.BuildRoutes | src/index.ts:115-336 | the whole builder returns the routes and prints the warnings that `Build` specifies |
| RouteTree.CollectFile | src/index.ts:143-190 | definition of one first-pass step; properties in `RouteTreeProps.CollectFileEffect` and `CollectFileRouteMap` |
| RouteTree.WithRedirect | src/index.ts:193-199 | definition of the redirect step; properties in `RouteTreeProps.BuildRedirect` and `BuildNoRedirect` |
| RouteTree.SortByLength | src/index.ts:209-210 | definition of the longest-first sort; properties in `SortByLengthPermutes` and `SortByLengthDescending` |
| RouteTree.AttachChild | src/index.ts:217-290 | definition of `find`-or-create and push; properties in `NestingProps.AttachChildPlacement` |
| RouteTree.NestUnder | src/index.ts:217-290 | definition of nesting under one layout; properties in `NestingProps.NestEntryNested` |
| RouteTree.NestEntry | src/index.ts:202-299 | definition of the second pass for one entry; properties in `NestingProps.NestEntryTopLevel` and `NestEntryNested` |
| RouteTree.NestKeys | src/index.ts:202-300 | definition of the second pass; properties in `NestingProps.NestKeysCount` and `NestKeysKeepsLayoutRecords` |
| RouteTree.MissingComponents | src/index.ts:303-318 | definition of the final walk; properties in `ComponentProps.MissingComponentsExact` |
| RouteTree.Build | src/index.ts:115-336 | definition of the whole builder; properties in `RouteTreeProps`, `NestingProps` and `ComponentProps` |
| RouteTreeProps.WithoutExcludedConcat | src/index.ts:126-136 | dropping excluded files distributes over concatenation |
| RouteTreeProps.CollectSnoc | src/index.ts:124 | the first pass ends with the last discovered file |
| RouteTreeProps.CollectIgnoresExcluded | src/index.ts:126-136 | the first pass over the files without the excluded ones has the same result |
| RouteTreeProps.BuildIgnoresExcluded | src/index.ts:126-136 | dropping every excluded file leaves routes and warnings unchanged |
| RouteTreeProps.ExcludedFileChangesNothing | src/index.ts:126-136 | an excluded file, wherever it is discovered, changes neither routes nor warnings |
| RouteTreeProps.CollectFileEffect | src/index.ts:143-170 | one first-pass step pushes a `home` route exactly for the root index, and a layout is recorded exactly for a layout file, with the first layout key kept |
| RouteTreeProps.CollectHomeRoutes | src/index.ts:143-155 | after the first pass the routes are `home` records, one per root index file, and `hasRootIndex` is set exactly when there is one |
| RouteTreeProps.RootIndexCounted | src/index.ts:143-144 | the root index count is positive exactly when some file is the root index |
| RouteTreeProps.CollectRootIndex | src/index.ts:121-144 | `hasRootIndex` is set exactly when some file is the root index; otherwise the first pass emits no route |
| RouteTreeProps.HasLayoutSnoc | src/index.ts:158 | some file is a layout exactly when an earlier one is or the last one is |
| RouteTreeProps.CollectHasLayouts | src/index.ts:158-164 | `layouts` has a key exactly when some file is a layout |
| RouteTreeProps.FirstLayoutKey | src/index.ts:197 | `Object.keys(layouts)[0]` is the directory of the first layout file discovered |
| RouteTreeProps.CollectFileRouteMap | src/index.ts:184-190 | one first-pass step sets exactly the leaf's key of `routeMap`, to the entry built from that file, and keeps every other key |
| RouteTreeProps.CollectKeysDistinct | src/index.ts:202 | `Object.keys(routeMap)` lists every route path once |
| RouteTreeProps.LeafKeyKept | src/index.ts:184 | a leaf's route path is a key of `routeMap` after the first pass |
| RouteTreeProps.CollectLeafKeys | src/index.ts:184 | every leaf's route path is a key of `routeMap` after the first pass |
| RouteTreeProps.LastLeafExtend | src/index.ts:184 | a later file that is no leaf for the key keeps the last leaf the last |
| RouteTreeProps.CollectLastLeafWins | src/index.ts:184-190 | each `routeMap` entry was built from the last page with that route path |
| RouteTreeProps.AttachChildExtends | src/index.ts:217-290 | attaching a child keeps every record in place (only `children` grows) and adds no redirect |
| RouteTreeProps.NestEntryExtends | src/index.ts:202-299 | nesting one entry keeps every earlier record in place and adds no redirect |
| RouteTreeProps.NestKeysExtends | src/index.ts:202-300 | the whole second pass keeps every earlier record in place and adds no redirect |
| RouteTreeProps.BuildRedirect | src/index.ts:193-199 | without a root index, the first route is `/` redirecting to `/` + the directory of the first layout discovered |
| RouteTreeProps.BuildNoRedirect | src/index.ts:193-199 | with a root index, or with no layout, no route is a redirect |
| NestingProps.EnclosingNested | src/index.ts:213 | of two layout directories enclosing a path, the shorter one is the longer one or encloses it |
| NestingProps.FirstEnclosingLongest | src/index.ts:208-214 | on longest-first keys, the flag is set exactly when some key encloses the route, and by a longest such key |
| NestingProps.DeepestLayoutWins | src/index.ts:208-214 | no layout is chosen exactly when none encloses the route; otherwise the chosen layout encloses it and lies inside every other enclosing layout |
| NestingProps.AttachChildPlacement | src/index.ts:217-290 | the child becomes the last child of the record `find` returns, or of a new record at the end, whose path is the layout's |
| NestingProps.NestEntryTopLevel | src/index.ts:294-299 | an entry no layout encloses is appended at the top level without `rawPath` |
| NestingProps.NestEntryNested | src/index.ts:211-290 | an enclosed entry becomes, with its relative path, the last child of the record of its layout |
| NestingProps.FileCountUpdate | src/index.ts:290 | replacing a record changes the per-file count by the difference of the two trees |
| NestingProps.FileCountAppend | src/index.ts:298 | pushing a record adds its tree's count |
| NestingProps.FileCountWithoutFiles | src/index.ts:145-198 | `home` and redirect records name no file |
| NestingProps.AttachChildCount | src/index.ts:217-290 | attaching a child adds exactly the child's own file; a new layout record names none |
| NestingProps.NestEntryCount | src/index.ts:202-299 | nesting one entry adds exactly one route made from that entry's file |
| NestingProps.NestKeysCount | src/index.ts:202-300 | the second pass adds as many routes made from a file as there are entries made from it |
| NestingProps.BuildEmitsEveryEntryOnce | src/index.ts:193-300 | every `routeMap` entry is emitted exactly once, at the top level or nested |
| NestingProps.EntryCountZero | src/index.ts:184-190 | no entry is counted for a file that no entry was made from |
| NestingProps.EntryCountOne | src/index.ts:184-190 | with distinct keys, a file that exactly one entry was made from is counted once |
| NestingProps.BuildEmitsLastLeafOnce | src/index.ts:184-300 | the last page with a given route path is emitted exactly once; an earlier one is overwritten |
| NestingProps.BuildEmitsNoOtherFile | src/index.ts:131-181 | no route is made from a file that is excluded, the root index, a layout or an empty route |
| NestingProps.AttachChildKeepsLayoutRecords | src/index.ts:217-241 | attaching a child keeps every layout record built from the table, non-empty, and alone with its path |
| NestingProps.NestEntryKeepsLayoutRecords | src/index.ts:202-299 | nesting one entry keeps the layout records sound |
| NestingProps.NestKeysKeepsLayoutRecords | src/index.ts:202-300 | the second pass keeps the layout records sound |
| NestingProps.BuildLayoutRecords | src/index.ts:217-241 | in the result, every layout record comes from the layout table and has a child, and no two layout records share a path |
| NestingProps.AttachChildOneLevel | src/index.ts:217-290 | attaching a childless child keeps every child of every record childless |
| NestingProps.NestEntryOneLevel | src/index.ts:202-299 | nesting one entry keeps every child childless |
| NestingProps.NestKeysOneLevel | src/index.ts:202-300 | the second pass keeps every child childless |
| NestingProps.BuildNestsOneLevel | src/index.ts:193-300 | the builder nests one level deep: no child of a route has children |
| ComponentProps.MissingComponentsExact | src/index.ts:303-318 | the check reports a path exactly when a record outside every redirect, at any depth, has that path and no component |
| ComponentProps.MissingComponentsEmpty | src/index.ts:303-321 | nothing is reported when no such record exists |
| ComponentProps.LoadedChildrenComplete | src/index.ts:314-316 | children that all have components and no children report nothing |
| ComponentProps.LoadedComplete | src/index.ts:303-318 | routes whose non-redirect records all have components report nothing |
| ComponentProps.AttachChildLoaded | src/index.ts:217-290 | attaching a loaded child to a loaded layout keeps every record loaded |
| ComponentProps.NestEntryLoaded | src/index.ts:285-290 | nesting a loaded page under loaded layouts keeps the routes loaded and prints no warning |
| ComponentProps.NestKeysLoaded | src/index.ts:202-300 | the second pass over loaded pages and layouts prints no warning |
| ComponentProps.CollectLoaded | src/index.ts:145-190 | when every page has a component, so does every `home` route and every table entry |
| ComponentProps.BuildWarnsNothingWhenAllLoaded | src/index.ts:285-321 | when every page has a component, the builder prints no warning |
| ConcreteCases.IndexPageKeepsSlash | src/index.ts:174-177 | `users/index` becomes `users/` |
| ConcreteCases.TrimTrailingDash | src/index.ts:187 | one trailing `-` is trimmed from a name |
| ConcreteCases.DirectoryName | src/index.ts:187 | a directory index page `<w>/` is named `<w>` |
| ConcreteCases.DashedDynamic | src/index.ts:187 | `<w>/:<v>/` becomes `<w>-:<v>-` |
| ConcreteCases.BareDynamic | src/index.ts:187 | the `:` removal leaves `<w>-<v>-` |
| ConcreteCases.DynamicDirectoryName | src/index.ts:187 | the processed path `<w>/:<v>/` is named `<w>-<v>` |
| ConcreteCases.DynamicPageName | src/index.ts:173-187 | the page `<w>/[<v>]/index` becomes `<w>/:<v>/` and is named `<w>-<v>` |
| ConcreteCases.DynamicChildPath | src/index.ts:245-261 | `<dir>/[<v>]/index` lies under the layout `dir` and gets the child path `:<v>` |
| ConcreteCases.UsersIdChildPath | src/index.ts:245-261 | in the example app, `users/[id]/index` gets the child path `:id` under the `users` layout |
| ConcreteCases.UsersLayout | src/index.ts:126-164 | under the default options, `src/views/users/_layout.vue` is not excluded and is the layout of `users` |
| ConcreteCases.IndexPageName | src/index.ts:187 | `/users/` is named `users` |
| ConcreteCases.TrailingIndexInsideSegment | src/index.ts:175 | `reindex` becomes `re` |
| ConcreteCases.IdParamRewritten | src/index.ts:176 | `[id]/` becomes `:id/` |
| ConcreteCases.DynamicSegment | src/index.ts:173-178 | `users/[id]/index` becomes `users/:id/` |
| ConcreteCases.DynamicSegmentName | src/index.ts:187 | `/users/:id/` is named `users-id` |
| ConcreteCases.RouterFileGuard | src/index.test.ts:34 | `/src/router/index.ts` passes the `transform` guard |
| ConcreteCases.OtherModuleSkipped | src/index.test.ts:46 | `/src/other/file.ts` fails the guard |
| ConcreteCases.RouterVueSkipped | src/index.ts:96 | `/src/router/index.vue` fails the guard |
| Plugin.SkipSpaces | src/index.ts:345 | a greedy `\s*`: the position reached is not white space |
| Plugin.SkippedAreSpaces | src/index.ts:345 | everything `\s*` consumed is white space |
| Plugin.AfterAnnotation | src/index.ts:345 | the optional `: RouteRecordRaw[]` group consumes nothing when no `:` follows `routes`; the typed case is `DeclMatch.AfterAnnotationTyped` |
| Plugin.EmptyListAt | src/index.ts:345 | `=\s*\[\s*\]` matches with `[` and `]` at its ends and only white space between them |
| Plugin.DeclAt | src/index.ts:345 | a match at `i` starts with `const` and ends with `[`, white space, `]`; that it matches exactly the regular expression is `DeclMatch.DeclAtExact` |
| Plugin.RoutesAt | src/index.ts:345 | the part from `routes` on: a match lies after its start and ends with `[`, white space, `]` |
| Plugin.AssignmentAt | src/index.ts:345 | the part from the optional annotation on: a match ends with `[`, white space, `]` |
| Plugin.FindDecl | src/index.ts:345-346 | the leftmost match position, or none when the pattern matches nowhere |
| Plugin.Payload | src/index.ts:348 | the trimmed program with one trailing `;` removed, and it starts with no white space |
| Plugin.ResolveId | src/index.ts:402-407 | only `virtual:convention-routes` is resolved, to its `\0` id |
| Plugin.IsRouterFile | src/index.ts:94-97 | definition of the `transform` guard; cases in `ConcreteCases.RouterFileGuard`, `OtherModuleSkipped`, `RouterVueSkipped` |
| Plugin.Splice | src/index.ts:345-351 | definition of the splice; properties in `PluginProps.SpliceReplacesFirstMatch` and `SpliceNoneWhenNoMatch` |
| Plugin.ConventionRoutesPlugin.constructor | src/index.ts:73-75 | `routesCode` and the project root start empty |
| Plugin.ConventionRoutesPlugin.ConfigResolved | src/index.ts:80-82 | the project root is recorded and `routesCode` is unchanged |
| Plugin.ConventionRoutesPlugin.Transform | src/index.ts:92-353 | a router file gets its declaration spliced (`null` when none matches) and `routesCode` is set; any other module gets `null` and nothing changes |
| Plugin.ConventionRoutesPlugin.Load | src/index.ts:409-414 | only the resolved id loads, as `routesCode`, or as the empty route list while that is empty |
| PluginProps.SpliceNoneWhenNoMatch | src/index.ts:345-351 | `transform` returns `null` for a router file exactly when the pattern matches nowhere |
| PluginProps.FindDeclLeftmost | src/index.ts:345-347 | the splice uses the leftmost match |
| PluginProps.DeclShape | src/index.ts:345 | a match's `[` and `]` enclose only white space |
| PluginProps.SpliceReplacesFirstMatch | src/index.ts:345-349 | the leftmost match's `[ ]` is replaced by the payload, and the text before and after is kept |
| PluginProps.SpliceBareDeclaration | src/index.ts:345-349 | `const routes = []` becomes `const routes = ` followed by the payload |
| PluginProps.ExampleSpans | example/src/router/index.ts:4 | the example app's declaration `const routes: RouteRecordRaw[] = []` matches at its start, with the list at its end |
| PluginProps.SpliceAnnotatedDeclaration | example/src/router/index.ts:4 | the example app's typed declaration becomes `const routes: RouteRecordRaw[] = ` followed by the payload |
| DeclMatch.AfterAnnotationTyped | src/index.ts:345 | a `:`, white space and `RouteRecordRaw[]` after `routes` are consumed with the white space that follows |
| DeclMatch.DeclAtSound | src/index.ts:345 | every match `DeclAt` reports is a match of the regular expression: `const`, white space, `routes`, the optional annotation, `=`, `[`, `]` |
| DeclMatch.DeclAtComplete | src/index.ts:345 | every match of the regular expression at `i` is the one `DeclAt` reports |
| DeclMatch.DeclAtExact | src/index.ts:345 | `DeclAt` reports a match at `i` with the list at `p..e` exactly when the regular expression matches there |
| PluginProps.VirtualModuleBeforeTransform | src/index.test.ts:52-59 | before any transform, the virtual module is `export default [];` |
| PluginProps.TransformThenLoad | src/index.test.ts:27-50 | another module is returned as `null`, the router file is spliced, and the virtual module then serves the route program |

## Left out

- `closeBundle` (the declaration file written with `fs`), `configureServer` (the file watcher) and the plugin's `name` are file-system and server I/O. They are not part of this model.
- Verbose logging (`console.log`) is output only and changes no state.
- `import.meta.glob` is the input of the builder: a sequence of discovered files with their components, in discovery order. The `extensions`, `isLazy`, `generateDeclaration` and `declarationPath` options do not change the route tree's shape. In eager mode, an absent `default` export is modelled as a missing component.
- The generated program text is an opaque constructor argument of the plugin class. The template's instantiation with the options is not modelled as text; what the program computes is `RouteTree.Build`.
- `routesDir` and `layoutName` are spliced into regular expressions (`src/index.ts:139, 160`). The model treats them as literal text, so a value holding regular-expression metacharacters is not modelled. `excludes` are literal text already: they are tested with `includes` and `startsWith` (`src/index.ts:126-129`).
- The JavaScript ordering of integer-like keys in `Object.keys` is not modelled: keys keep their first-assignment order.
- The component re-fetch at `src/index.ts:264-271` is left out. The copied record always holds the entry's component, so the first branch cannot fire. The second branch looks up `pages` under the file path the component came from and finds the same value.
- The `children` property is modelled as a sequence in which an empty sequence means the record has none. No record ever holds an empty `children` array, because a layout record is created with its first child.
- A layout record is only found among the top-level routes. Children are never searched, as in the source.
- `MissingComponents` recurses over the nested `children` of any depth. The builder itself never nests deeper than one level (`NestingProps.BuildNestsOneLevel`).
- `ConcreteCases` states pieces of the five-page example (`index`, `about`, `users/_layout`, `users/index`, `users/[id]/index`): the processed paths and names of `users/index` and `users/[id]/index`, the child path `:id` (`UsersIdChildPath`) and the classification of `users/_layout` (`UsersLayout`). It does not state `Build` on that whole file list.
- `RouteTree.FirstEnclosing`: its contract states only that a chosen layout encloses the route. That the chosen layout is the deepest is stated in `NestingProps.DeepestLayoutWins`.
