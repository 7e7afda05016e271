# jQuery Unveil, modelled in Dafny

jQuery Unveil lazily loads images and embeds. `$(elements).unveil(options, callback)`
keeps the elements as a pending set of placeholders. On every scroll, resize or
`lookup` event it scans them and finds those whose vertical extent comes within
`threshold` pixels of the window. It fires a one-shot "unveil" handler on those
elements, either at once or after `delay` milliseconds if they are still in view.
In `img` mode the handler copies `data-src-retina` or `data-src` into `src`. In any
other mode it replaces the placeholder by a new element (an `<iframe>` by default).
That element carries all of the placeholder's attributes, minus the loading class.

The model has these parts:

- `Visibility`: the `filterView` test (`InView`) as a predicate on integer geometry.
  The lemmas prove it equal to an interval-overlap reading, prove that hidden elements
  always fail, prove both bounds inclusive on concrete boxes, and prove that a larger
  threshold never takes an element out of view.
- `Seqs`: jQuery's `.filter(fn)` and `.not(collection)` on ordered collections.
- `Dom` and `ClassList`: an element's ordered attribute list, `getAttribute` and
  `setAttribute`, and jQuery's `removeClass` on the `class` attribute. `removeClass`
  reads `class` as whitespace-separated names and writes it back joined by single
  spaces. The lemma `NamesOfJoin` proves that this write-back round-trips.
- `Config`: the settings as `$.extend` of the defaults with the caller's options.
- `Activation`: the handler's effect on one element as a pure function (`Activate`).
  The `$.each` loop that copies attributes onto the new element is a method with a
  loop (`CopyAttributes`).
- `Plugin`: the plugin's closure state as the class `Unveil`. It holds the pending
  `placeholders`, the last activated batch `loaded`, and the batches captured by delay
  timers that have not expired yet. It also holds the document that the handler
  changes: attributes, the per-element `fired` flag that models `.one` (one handler per element), the replacement
  elements, and the callback log.
  - `Scan` is the `unveil()` function.
  - `TimerFire` is the expiry of the oldest delay timer.
  - `Fire` is the handler.
  - `Trigger` is `.trigger("unveil")` on a batch.
  - Each of these methods is proved against the specification functions `FireOne` and
    `FireAll`. The lemmas about those functions give "at most once":
    - a fired element is never touched again;
    - the callback log never repeats an element;
    - firing twice is the same as firing once.
  - `DelayedActivationLags` is a verified client scenario of the lag described below.

Timers all share the same delay, so they expire in the order they were set. The model
therefore keeps them in a queue, and `TimerFire` takes the oldest. A scan with a delay
runs `placeholders.not(loaded)` before its own timer assigns `loaded`. So it drops the
batch of the timer that expired last, not its own batch. The model keeps this as the
code has it. An element activated by a timer stays pending until a later scan, and
that scan must follow a timer whose batch contained the element.

Three consequences of the code are kept as they are:

- Pending elements and elements in a delayed batch are not kept apart. A scan can give
  an element that is already waiting to a second timer.
- An activated element is not removed from the pending set at the moment it is
  activated.
- More than one delay timer can be outstanding at a time.

None of these differences activates anything twice, because of the `fired` flag.

## Model

| member | source | states |
|---|---|---|
| `Visibility.InView` | jquery.unveil.js:71-81 | with a non-negative threshold, a shown element passes `filterView` when its top edge or its bottom edge lies in the window (for a non-negative element height), or when it spans the whole window (for a non-negative window height) |
| `Visibility.InViewIffOverlaps` | jquery.unveil.js:71-81 | `filterView` holds iff the element is shown and some row of `[top, top+height]` lies in `[scrollTop - threshold, scrollTop + height + threshold]` (for non-negative element height and a non-empty widened window) |
| `Visibility.HiddenNeverInView` | jquery.unveil.js:73 | a hidden element is never in view, wherever it is |
| `Visibility.ThresholdBoundary` | jquery.unveil.js:75-80 | both bounds are inclusive: window [0,500], threshold 100: top 600 is in view, top 601 is not; a bottom edge at -100 is in view, at -101 it is not |
| `Visibility.InViewMonotone` | jquery.unveil.js:80 | raising the threshold never takes an element out of view |
| `Visibility.InViewOf` | jquery.unveil.js:86 | `placeholders.filter(filterView)` holds exactly the pending elements that are in view, and no more elements than the pending set |
| `Visibility.OutOfViewOf` | jquery.unveil.js:98 | the pending elements that are not in view, and no more elements than the pending set |
| `Visibility.RemovingInView` | jquery.unveil.js:86-98 | with no delay, `placeholders.not(inview)` is exactly the pending elements out of view, in their order |
| `Seqs.Filter` | jquery.unveil.js:86 | `.filter(fn)` keeps exactly the members passing `fn`, each as often as it occurs, and never grows the collection |
| `Seqs.FilterConcat` | jquery.unveil.js:86 | `.filter(fn)` keeps the collection's order: filtering `a + b` is filtering `a`, then `b`, and one member stays iff it passes |
| `Seqs.Without` | jquery.unveil.js:98 | `.not(c)` keeps exactly the members not in `c`, each as often as it occurs, and never grows the collection |
| `Seqs.WithoutConcat` | jquery.unveil.js:98 | `.not(c)` keeps the collection's order: `(a + b).not(c)` is `a.not(c)`, then `b.not(c)`, and one member stays iff it is not in `c` |
| `Seqs.WithoutNothing` | jquery.unveil.js:34 | `.not` of an empty (or unset) `loaded` keeps the collection unchanged |
| `Seqs.WithoutFiltered` | jquery.unveil.js:86-98 | dropping the members that pass a test leaves, in order, those that fail it |
| `Dom.Lookup` | jquery.unveil.js:46-47 | `getAttribute` returns a value of an attribute with that name, and `null` exactly when there is none |
| `Dom.SetAttr` | jquery.unveil.js:49 | after `setAttribute(n, v)`, `n` reads `v`, every other name reads as before, and the list grows only when `n` was absent |
| `Dom.SetAttrAppends` | jquery.unveil.js:59-61 | setting an absent attribute appends it at the end of the list |
| `Dom.SetAttrKeepsDistinct` | jquery.unveil.js:49 | `setAttribute` never gives an element two attributes of one name |
| `ClassList.NamesOfJoin` | jquery.unveil.js:62 | the class list `removeClass` writes back reads back as the same class names |
| `ClassList.RemoveClass` | jquery.unveil.js:62 | `removeClass(loadingClass)` leaves every other attribute as it was, keeps `class` present iff it was, and leaves the old class names minus the loading class's names, in their order (all of them when `loadingClass` names no class), none of which remain |
| `Config.Extend` | jquery.unveil.js:35-41 | each setting is the caller's option when given and its default otherwise |
| `Config.DefaultSettings` | jquery.unveil.js:35-41 | the defaults: threshold 1000, replaceTag `<iframe>`, delay 0, mode `img`, loadingClass `loading` |
| `Activation.Attrib` | jquery.unveil.js:32 | the attribute read first is `data-src-retina` exactly on a retina display, and `data-src` exactly on a standard one |
| `Activation.ChooseSource` | jquery.unveil.js:46-48 | the source is non-empty when present. It is the density-specific attribute when that is non-empty, and `data-src` otherwise. There is none iff both are absent or empty |
| `Activation.SourceOrder` | jquery.unveil.js:46-47 | the retina source wins on a retina display, `data-src` on a standard one, `data-src` is the fallback, and empty values give no source |
| `Activation.Activate` | jquery.unveil.js:43-66 | img mode: `src` becomes the chosen source and the callback runs iff a source exists, and nothing else changes. Other modes: the element keeps its attributes, and a replacement with the configured tag carries every attribute except `class`, whose names are the old ones minus the loading class's, in their order. The callback always runs |
| `Activation.CopyAttributes` | jquery.unveil.js:57-61 | copying the attribute list one by one onto an element that has none yields the same list |
| `Activation.SubstitutionExample` | jquery.unveil.js:54-64 | `id=x data-src=y class="loading foo"` with replaceTag `<embed>` becomes an `<embed>` with `id=x data-src=y class="foo"` |
| `Plugin.FireOne` | jquery.unveil.js:43-66 | a trigger marks the element fired, and an element that had fired already is left unchanged. On a first trigger in img mode, `src` becomes the chosen source when there is one and the attributes stay as they were when there is none, with no replacement. In any other mode the element keeps its attributes and gets a replacement with the configured tag and `removeClass`'s attributes. The callback is logged iff a callback function was given and the mode is not img or a source exists. No other element changes |
| `Plugin.FireAll` | jquery.unveil.js:91 | triggering a batch fires exactly the batch's elements (added to those already fired), leaves the attributes and replacement of every element outside the batch as they were, and only appends batch elements to the callback log |
| `Plugin.FireAllConcat` | jquery.unveil.js:91 | `.trigger("unveil")` runs the handler on the batch's members in the batch's order: triggering `a + b` is triggering `a` and then `b`, and triggering one element is `FireOne` on it, so callbacks are logged in batch order |
| `Plugin.FireAllActivates` | jquery.unveil.js:43-66 | in a consistent document, every batch member that had not fired ends the trigger with exactly `Activate`'s effect: its attributes, its replacement (present iff `Activate` builds one), and a callback entry iff `Activate` calls back and a callback function was given |
| `Plugin.FireOneOnce` | jquery.unveil.js:43 | firing an element a second time changes nothing |
| `Plugin.FireOneConsistent` | jquery.unveil.js:43-66 | one handler run keeps names distinct, replacement and callback only on fired elements, and no element twice in the callback log |
| `Plugin.FireAllConsistent` | jquery.unveil.js:95 | the same holds after triggering a whole batch |
| `Plugin.FiredElementsFrozen` | jquery.unveil.js:43 | once an element has fired, no trigger changes its attributes, its replacement or its callback record |
| `Plugin.ScrolledAwayNotActivated` | jquery.unveil.js:89-91 | a batch member out of view at timer expiry is not fired, not changed and not replaced by that timer |
| `Plugin.Unveil.constructor` | jquery.unveil.js:28-43 | settings from `$.extend`, everything pending, then the state after the first scan at line 103 |
| `Plugin.Unveil.Fire` | jquery.unveil.js:43-66 | the handler's run on one element is `FireOne` of the old document |
| `Plugin.Unveil.Trigger` | jquery.unveil.js:91 | `.trigger("unveil")` on a batch is `FireAll` of the old document, and the document stays consistent |
| `Plugin.Unveil.Scan` | jquery.unveil.js:85-99 | the in-view elements go to a new timer (delay) or are fired and become `loaded` (no delay). Pending becomes the old pending minus `loaded`, which with no delay is exactly the old pending out of view. No element leaves pending without having fired |
| `Plugin.Unveil.TimerFire` | jquery.unveil.js:89-92 | the oldest timer's batch is re-filtered, its members still in view are fired and become `loaded`, and pending is unchanged |

## Left out

- Locating elements with jQuery or Zepto is not modelled. Elements are numbers, and
  their attributes are a map from element to an ordered attribute list.
- Parsing `replaceTag` (`$(settings.replaceTag)`) is not modelled. The model assumes
  `replaceTag` is markup such as `<iframe>`, which jQuery turns into a new element. The
  replacement's tag is the setting's string, and it starts with no attributes of its
  own. A bare tag name such as `embed` is a selector in jQuery: it matches existing
  elements instead of creating one, which the model does not capture.
- The document surgery of `replaceWith` is recorded only as "this element was replaced
  by this one". After replacement, the caller-supplied geometry says whether the
  detached original is hidden.
- Binding to `scroll`, `resize` and `lookup` is not modelled, and neither is real
  `setTimeout` scheduling. A scan and a timer expiry are explicit method calls
  (`Scan`, `TimerFire`). The `timer` variable, which is written but never read, is
  not kept.
- `window.devicePixelRatio > 1` is a floating-point host query. It is taken as the
  boolean `retina`.
- Scroll offset, window height, element offset, element height and `:hidden` are host
  queries. They are inputs: a `Viewport` and a per-element `Box`, measured once per
  scan or timer expiry.
- The user callback's own behaviour is not modelled. Only the element it was called
  on is recorded. `typeof callback === "function"` is the flag `hasCallback`.
- "unveil" events bubble from an element to its ancestors. When one element of the
  collection contains another, triggering the inner one may fire the outer one's
  handler too. This is not modelled: each trigger fires only its own element.
- jQuery's `.attr` hook for boolean attributes (such as `hidden`) writes the
  attribute's name as its value. The model copies every value verbatim.
- `ClassList.RemoveClass`: `removeClass` follows jQuery 3. Class names are split at
  HTML whitespace and the remainder is joined by single spaces. Older jQuery versions
  normalise whitespace slightly differently.
- `Visibility.InViewIffOverlaps`: the overlap reading is proved only for a
  non-negative element height and a non-empty widened window. With a negative
  threshold wider than half the window, `filterView` can accept an element that no
  row of the window touches.
- `.one("unveil", ...)` binds one handler per entry of the collection, keyed on the
  event name. An element listed twice in the collection carries two one-shot handlers,
  and a second `.unveil()` call on the same elements binds more. In jQuery a first
  trigger then runs each of them: `src` is written more than once, or the element is
  replaced more than once, and the callback runs more than once. The model keeps one
  `fired` flag per element and fires a repeated element once. Handlers from other
  `.unveil()` calls are not modelled.
- Option values of the wrong JavaScript type (a string threshold, say) are not
  modelled. Settings are typed integers and strings.
