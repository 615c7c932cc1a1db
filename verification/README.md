# Delaunay demo page and module loader, in Dafny

This project models the interactive core of a portfolio site's Delaunay
triangulation demo page. There are two parts:

- **The page controller** (`assets/js/delaunay.js`). It owns a list of points, the
  "show Voronoi" flag and the SVG width; the SVG height is fixed at 600. The
  user changes the points by clicking on the SVG, by loading the 9-point
  example, by adding random points, by clearing, or by toggling the Voronoi
  overlay. A window resize recomputes the width. After every change,
  `updateTriangulation` redraws everything and rewrites the statistics panel:
  point count, triangle count, and the minimum and mean interior angle.
- **The memoising module loader** (`assets/js/module-loader.js`). It maps the
  key `specifier + "::" + (fallbackUrl || '')` to the outcome of one load. A
  load first imports the specifier and, only if that fails and a fallback URL
  is present, the fallback URL.

Modules:

- `Wrappers` (`wrappers.dfy`): `Option`, which stands for `undefined`.
- `Decimal` (`decimal.dfy`): `parseInt(s, 10)` as defined in section 19.2.5
  of ECMA-262, and the text of an integer-valued Number.
- `Triangulation` (`triangulation.dfy`): points, triangles, the cosine
  clamp, the angle list, the minimum and mean, and the golden-angle hue.
- `StatsPanel` (`stats_panel.dfy`): the text rule of `updateStats`.
- `DelaunayPage` (`delaunay_page.dfy`): the page state, its transitions,
  the button dispatch rule and the event loop.
- `ModuleLoader` (`module_loader.dfy`): the cache and the
  primary → fallback → rethrow order.

Every handler is a pure function. It takes the page before the event and
returns a `Reaction`, which holds the page after the event, the picture drawn
(absent when the handler returns before redrawing) and the new text of the
Voronoi button's label (absent when the label is not touched).

The model takes these foreign computations as parameters, collected in an
`Engine` value:

- the d3-delaunay triangulation;
- the cosine of the angle between two edge vectors (`dot / (hypot · hypot)`);
- `acos` in degrees;
- `Math.round`.

`Math.random()` is a stream `nat -> Random` of values in [0, 1). Round `k`
of the random-point loop draws values `2k` (x) and `2k + 1` (y). `import()`
is a function `string -> Outcome`. The pointer position of a click, the
container's `clientWidth` and the clicked button's attributes are inputs.
Coordinates go through addition, subtraction, multiplication (by constants,
by `Math.random()` values and, inside the cosine, by each other) and
comparison. The model uses exact reals; rounding is listed under Left out.

Where the code's behaviour is easy to misread, the model follows the code:

- Adding random points with a negative count adds nothing but still redraws.
- Click coordinates are not clamped to the SVG.
- The triangulation is never asked for fewer than three points.

There is one deliberate departure. With three or more points and zero
triangles, the code's statistics are +Infinity and NaN. `UpdateTriangulation`,
and with it every handler that redraws, reports the corrected (0, 0) instead.
Only `StatsAsWritten` keeps the code's own numbers. See Findings.

## Model

| member | source | states |
|---|---|---|
| `Decimal.ParseInt` | assets/js/delaunay.js:349 | `parseInt(addCount, 10)` is NaN exactly when no decimal digit follows the leading white space and the optional sign |
| `Decimal.ParseIntSkipsWhite` | assets/js/delaunay.js:349 | any prefix of ECMAScript white space and line terminators leaves the parse unchanged |
| `Decimal.ParseIntStopsAtNonDigit` | assets/js/delaunay.js:349 | after an optional sign, the maximal digit run is read and everything from the first non-digit on is ignored; a `-` negates |
| `Decimal.ParseIntNaN` | assets/js/delaunay.js:349-350 | white space, an optional sign and then no digit gives NaN, which the handler then ignores |
| `Decimal.Digits` | assets/js/delaunay.js:278-279 | the digits of a count are non-empty, all decimal, without a leading zero, and denote the count |
| `Decimal.ToDecimal` | assets/js/delaunay.js:278-279 | the text of an integer starts with `-` exactly for negative numbers, and the rest is the decimal digits of its magnitude, with no leading zero |
| `Decimal.ParseIntOfDecimal` | assets/js/delaunay.js:278-279 | round trip: `parseInt` of an integer's text, even when followed by a non-digit such as `°`, gives the integer back |
| `Decimal.ToDecimalInjective` | assets/js/delaunay.js:278-279 | different counts are shown as different texts |
| `Triangulation.Clamp` | assets/js/delaunay.js:197 | `Math.max(-1, Math.min(1, x))` lies in [-1, 1], keeps values already there, and maps larger values to 1 and smaller ones to -1 |
| `Triangulation.CornerAngleInRange` | assets/js/delaunay.js:188-198 | every angle is taken from a clamped cosine, so it lies in [0, 180] whenever `acos` does on [-1, 1] |
| `Triangulation.AngleList` | assets/js/delaunay.js:185-200 | the angle list has three entries per triangle; entry `3j + i` is the angle at vertex `(i + 1) % 3` of triangle `j`, between the edges to vertices `i` and `(i + 2) % 3` |
| `Triangulation.AnglesInRange` | assets/js/delaunay.js:185-200 | every entry of the angle list lies in [0, 180] |
| `Triangulation.Min` | assets/js/delaunay.js:233 | `Math.min` of a non-empty list is one of its entries and no entry is smaller |
| `Triangulation.SumAtLeast` | assets/js/delaunay.js:234 | a sum of n values that are each at least `lo` is at least `n · lo` |
| `Triangulation.SumAtMost` | assets/js/delaunay.js:234 | a sum of n values that are each at most `hi` is at most `n · hi` |
| `Triangulation.Summarize` | assets/js/delaunay.js:233-234 | no angles give (0, 0); otherwise the minimum is an angle and below every angle, mean · count = sum, and minimum ≤ mean |
| `Triangulation.SummaryInRange` | assets/js/delaunay.js:233-234 | for angles in [0, 180], 0 ≤ minimum ≤ mean ≤ 180 |
| `Triangulation.TriangleSummaryInRange` | assets/js/delaunay.js:185-234 | for any triangulation, 0 ≤ minimum angle ≤ mean angle ≤ 180 when `acos` stays in [0, 180] |
| `Triangulation.SummarizeAsWritten` | assets/js/delaunay.js:233-234 | the source's own numbers: an empty list gives +Infinity for the minimum and NaN for the mean, and a non-empty list gives neither |
| `Triangulation.SummariesAgree` | assets/js/delaunay.js:233-234 | on a non-empty list, the source's numbers are the model's numbers |
| `Triangulation.Hue` | assets/js/delaunay.js:220 | the hue lies in [0, 360) and differs from `i · 137.5` by a whole multiple of 360 |
| `Triangulation.HueIsRemainder` | assets/js/delaunay.js:220 | the hue is the only remainder of `i · 137.5` by 360 in [0, 360), which is what `%` gives for a non-negative dividend |
| `Triangulation.HueEqualIff` | assets/js/delaunay.js:220 | two triangles get the same colour if and only if their indices differ by a multiple of 144 |
| `Triangulation.HueDistinct` | assets/js/delaunay.js:220 | the first 144 triangles all get different colours |
| `StatsPanel.AngleText` | assets/js/delaunay.js:280-285 | a zero angle shows "0°"; any other angle shows the decimal text of the rounded angle followed by `°` (a `-` only when negative, no leading zero), which `parseInt` reads back as the rounded angle |
| `StatsPanel.NumText` | assets/js/delaunay.js:281 | NaN is falsy and shows "0°"; +Infinity is truthy and shows "Infinity°"; finite numbers follow the angle rule |
| `StatsPanel.Display` | assets/js/delaunay.js:270-286 | the count texts are the plain decimal texts of the counts, which `parseInt` reads back as the counts, and the angle texts follow the angle rule |
| `StatsPanel.DisplayAsWritten` | assets/js/delaunay.js:270-286 | the same panel, filled from the source's own numbers, which may be infinite or NaN: the counts as plain decimal texts, the angles by the truthiness rule of `NumText` |
| `StatsPanel.DisplaysAgree` | assets/js/delaunay.js:280-285 | for finite numbers, the two panels are the same |
| `DelaunayPage.RecalcSvgSize` | assets/js/delaunay.js:159-165 | with a container, width = max(clientWidth − 80, 320), so it is at least 320; without one, the page is unchanged; points and flag never change |
| `DelaunayPage.RecalcSvgSizeIdempotent` | assets/js/delaunay.js:159-165 | the width depends only on the container, so resizing twice to the same width is the same as resizing once |
| `DelaunayPage.AddPoint` | assets/js/delaunay.js:288-292 | a click appends exactly one point (x, y) at the end; earlier points, flag and width are unchanged |
| `DelaunayPage.ExampleLayout` | assets/js/delaunay.js:295-305 | the example has exactly 9 points, each the listed fraction pair of (width, 600) |
| `DelaunayPage.LoadExample` | assets/js/delaunay.js:294-307 | the points are replaced by the example layout for the current width; flag and width are unchanged |
| `DelaunayPage.ExampleFirstPoint` | assets/js/delaunay.js:296 | on a 1000-pixel-wide SVG the first example point is (300, 180) |
| `DelaunayPage.ExampleLayoutSymmetric` | assets/js/delaunay.js:295-305 | in exact arithmetic, the layout is symmetric about the vertical centre line: each point has its mirror image in the layout. In doubles, `width * 0.7` and `width - width * 0.3` can differ in the last bit |
| `DelaunayPage.ExampleLayoutInside` | assets/js/delaunay.js:295-305 | every example point lies within 20%–80% of the width and 30%–70% of the height |
| `DelaunayPage.ExampleLayoutDistinct` | assets/js/delaunay.js:295-305 | on a positive width the nine points are pairwise different |
| `DelaunayPage.Spread` | assets/js/delaunay.js:313-314 | `Math.random() · span` lies between 0 and `span`, and does not reach `span` when `span` > 0 |
| `DelaunayPage.RandomPointInBox` | assets/js/delaunay.js:310-315 | a random point has y in [60, 540); x is in [60, width − 60] when width ≥ 120, and in (width − 60, 60] otherwise |
| `DelaunayPage.AppendRandom` | assets/js/delaunay.js:311-316 | n rounds of the loop add exactly n points after an unchanged prefix; round k's point is built from random values 2k and 2k + 1 |
| `DelaunayPage.AddRandomPoints` | assets/js/delaunay.js:309-318 | the length grows by max(count, 0), the existing points are a prefix, flag and width are unchanged, and each new point is inside the margins |
| `DelaunayPage.ClearPoints` | assets/js/delaunay.js:320-323 | the points become empty; flag and width are unchanged |
| `DelaunayPage.ToggleVoronoi` | assets/js/delaunay.js:325-326 | the flag flips; points and width are unchanged |
| `DelaunayPage.ToggleTwice` | assets/js/delaunay.js:326 | toggling twice restores the page |
| `DelaunayPage.ToggleLabel` | assets/js/delaunay.js:327-330 | the label is "Hide Voronoi" exactly when the new flag is set, and "Show Voronoi" exactly when it is not |
| `DelaunayPage.UpdateTriangulation` | assets/js/delaunay.js:172-237 | all points are drawn; fewer than 3 points give no triangles, no overlay and stats (n, 0, 0, 0); otherwise the triangles are the triangulation's, and the minimum and mean are those of the combined angle list of all triangles (three angles each, from clamped cosines); the counts match, minimum ≤ mean (both in [0, 180] for a sane `acos`), triangle i has hue i in [0, 360), and the Voronoi cells (cell i for point i, clipped to width × 600) are drawn if and only if the flag is set and there are at least 3 points |
| `DelaunayPage.StatsAsWritten` | assets/js/delaunay.js:175-236 | the numbers the source passes to `updateStats`: (n, 0, 0, 0) below 3 points; otherwise the triangle count and the raw `Math.min` and mean of the combined angle list, which are +Infinity and NaN when there are no triangles |
| `DelaunayPage.EmptyTriangulationShowsInfinity` | assets/js/delaunay.js:233-236 | with 3 or more points and no triangles, the source shows minimum "Infinity°" and mean "0°", while the model shows "0°" for both |
| `DelaunayPage.StatsAgreeOtherwise` | assets/js/delaunay.js:175-236 | in every other case, the model's statistics are exactly the source's |
| `DelaunayPage.OnResize` | assets/js/delaunay.js:135-148 | a resize keeps the points and the flag, sets the width to max(clientWidth − 80, 320) when there is a container (else changes nothing), and draws the resulting page without touching the label |
| `DelaunayPage.OnCanvasClick` | assets/js/delaunay.js:288-292 | a click appends exactly the point (x, y) after the unchanged earlier points, keeps flag and width, and draws the resulting page without touching the label |
| `DelaunayPage.Decode` | assets/js/delaunay.js:342-353 | dispatch order is load-example, then clear, then toggle-voronoi, then the count; with no known action, a count that parses selects adding exactly that many points, and a count command always carries `parseInt` of the attribute; nothing is selected if and only if no action matches and the count is missing, empty or NaN |
| `DelaunayPage.Execute` | assets/js/delaunay.js:342-353 | load-example loads the example, clear clears, toggle-voronoi toggles the flag and a count adds that many random points; every command ends in a redraw of the new page; only a toggle, and only with a toggle button present, sets the label, and then to the label of the new flag |
| `DelaunayPage.OnControlClick` | assets/js/delaunay.js:336-355 | a click outside any button, or on a button that selects nothing, leaves the page unchanged and draws nothing; otherwise the selected command runs |
| `DelaunayPage.BadCountIsIgnored` | assets/js/delaunay.js:348-353 | a button with no known action and a NaN or missing count changes nothing and redraws nothing |
| `DelaunayPage.DecodeCount` | assets/js/delaunay.js:348-351 | a button with only a count that parses selects adding that many points |
| `DelaunayPage.CountWithSuffix` | assets/js/delaunay.js:348-351 | a count attribute such as "12 points" adds exactly twelve points and redraws |
| `DelaunayPage.Boot` | assets/js/delaunay.js:154-170 | page set-up sizes the SVG, then loads the example (line 357): the 9 example points for the resulting width, flag off, width max(clientWidth − 80, 320) with a container and 0 without one, and the picture of that page drawn |
| `DelaunayPage.HandleRedrawsCurrentPage` | assets/js/delaunay.js:172-173 | after any event, a picture, if drawn, is the picture of the page as it now is; with no picture drawn, the page is unchanged |
| `DelaunayPage.HandleKeepsMinWidth` | assets/js/delaunay.js:159-165 | no event takes a width of at least 320 below 320 |
| `DelaunayPage.RunKeepsMinWidth` | assets/js/delaunay.js:159-165 | the width stays at least 320 over any sequence of events, so every random point lands inside the margins |
| `ModuleLoader.FallbackText` | assets/js/module-loader.js:14 | `fallbackUrl \|\| ''` is the URL when one is given, else the empty text |
| `ModuleLoader.CacheKey` | assets/js/module-loader.js:14 | the key is the specifier, then "::", then the fallback text |
| `ModuleLoader.EmptyFallbackSharesKey` | assets/js/module-loader.js:14 | no fallback and an empty fallback give the same key |
| `ModuleLoader.CacheKeyInjective` | assets/js/module-loader.js:14 | for specifiers without a colon, equal keys mean equal specifiers and equal fallback texts |
| `ModuleLoader.CacheKeyCollision` | assets/js/module-loader.js:14 | with a colon in the specifier, two different requests can share a key |
| `ModuleLoader.Resolve` | assets/js/module-loader.js:18-28 | the specifier is always imported first; on success that is the outcome; on failure with no (or an empty) fallback the original error stands; otherwise the outcome is that of importing the fallback URL |
| `ModuleLoader.ResolutionIsLastImport` | assets/js/module-loader.js:19-27 | the outcome is that of the last import tried, and a failure means every import tried failed |
| `ModuleLoader.LoadWithFallback` | assets/js/module-loader.js:13-32 | the result is the stored entry for the key; an existing key returns its entry, imports nothing and leaves the table alone; a new key adds exactly that key, holding the resolution's outcome, and keeps all other entries |
| `ModuleLoader.LoadIdempotent` | assets/js/module-loader.js:15-31 | a second identical call returns the first outcome, imports nothing and leaves the table unchanged |
| `ModuleLoader.LoadNeverRetries` | assets/js/module-loader.js:15-31 | the first outcome, failure included, is returned by later calls whatever `import()` would now do |
| `ModuleLoader.EmptyFallbackIsNoFallback` | assets/js/module-loader.js:14-22 | a call with an empty fallback behaves exactly like a call without one |
| `ModuleLoader.OneResolutionPerKey` | assets/js/module-loader.js:15-31 | over any run of calls, the number of resolutions equals the number of keys added, and existing entries never change |

## Left out

- The Three.js background (assets/js/delaunay.js:43-149, apart from the resize listener), the SVG drawing in `drawPoints`, and D3 transitions and delays: these only produce output. The model records which points, triangles, hues and Voronoi cells are drawn, not how.
- The `updated` CSS flash of the stats panel and its 250 ms timer: presentation only.
- The `active` class the Voronoi button gets from `classList.toggle('active', showVoronoi)` (assets/js/delaunay.js:330): presentation only.
- The d3-delaunay internals and Voronoi cell paths: the library is foreign. The triangulation is an `Engine` field, and the overlay records only the clip rectangle and which cells are drawn.
- Floating-point values: `Math.acos`, `Math.hypot` and `Math.round` are `Engine` fields. Rounding in `width * 0.3`, in the random-point arithmetic and in the angle sum is not modelled; reals are exact.
- `Triangulation.CornerAngleInRange`: a triangle with two coincident vertices makes the source divide 0 by 0. The clamp does not catch the resulting NaN. The cosine field of the model is always a real number, so this case is not modelled.
- `Decimal.ParseInt`: `-0` is reported as 0, because the only use is as a loop bound. Rounding of digit strings beyond 2^53 to the nearest Number is not modelled.
- `Decimal.ToDecimal`: the exponent form JavaScript uses from 10^21 upwards is not modelled. Counts are array lengths, and rounded angles are at most 180 when `acos` stays in range.
- `DelaunayPage.AddRandomPoints`: its contract bounds x only when the width is at least 120. `DelaunayPage.RandomPointInBox` covers the narrower case. The width is at least 320 after any resize with a container present.
- Missing DOM elements are not modelled. A missing SVG stops set-up. A missing control container means there are no button events. The model assumes the stat nodes are present. The toggle button's absence is modelled.
- Module loading in `initDelaunayPage` (assets/js/delaunay.js:8-33) is not modelled: unwrapping `?.default` namespaces and leaving the page inert on failure is JavaScript object plumbing around the loader.
- Promises in the loader: a pending promise shared by concurrent calls is not modelled. The table holds the outcome the stored promise settles to. The `console.warn` on fallback is logging only.

## Findings

| source | as written | input that shows it | evidently intended | confidence | as-written member | corrected member |
|---|---|---|---|---|---|---|
| assets/js/delaunay.js:233-236 | With 3 or more points and no triangles, `Math.min(...[])` is +Infinity and the mean is `0 / 0` = NaN. The panel then shows the minimum angle as "Infinity°". | Three points where the triangulation yields no triangle, e.g. three clicks on the same pixel (assuming d3-delaunay returns no triangle for coincident points) | Zero triangles report minimum and mean 0, as with fewer than 3 points (the `minAngle ? … : '0°'` guard shows the intent) | medium; not executed; depends on the library's output for coincident points | `DelaunayPage.StatsAsWritten` (shown by `DelaunayPage.EmptyTriangulationShowsInfinity`) | `Triangulation.Summarize` (used by `DelaunayPage.UpdateTriangulation`) |
