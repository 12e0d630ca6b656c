# canvas-app core, modelled in Dafny

canvas-app drives Fabric.js canvases from a declarative tree. `element`
builds virtual nodes. `render` flattens a tree with `collect`, then
reconciles the leaves with the ordered object list of a parent container:
each leaf finds its object by explicit key or by position; the object is
created, updated, or left as it is; and the objects no leaf claimed are
swept away in one batched `remove`. `createApp` holds a frozen application state in a
closure and notifies its subscribers synchronously on every write. The
first subscriber refreshes every surface. The state carries the `$anim`
and `$animColor` helpers, which keep one token per animated name so that
a superseded animation stops writing. `component` memoizes a view on the
last projected props.

The project is split into these modules:

- `Values` (values.dfy): JavaScript values, with `Option` and `Result`.
- `Names` (names.dfy): `normalizeName`, the event tables and the handler
  chosen for a canvas event.
- `Tree` (tree.dfy): nodes, `element` and `collect`. A truthy primitive
  child, such as a string or a number, has no node of its own. `collect`
  pushes it as a leaf with an undefined `type`, the inherited props and no
  children. Its normalised type is "", so the pass throws "Element type  is
  not supported" there. The node `Elem(Named(""), map[], [])` stands for it,
  since it gives the same leaf and the same exception.
- `Scene` (scene.dfy): the parent container as a value.
  - Objects are values with an `id` that stands for their identity.
  - The `__shouldRemove` flags are a set of marked ids.
  - Every call made on the container or its objects is appended to a call
    log.
  - One leaf step, the leaf loop, the sweep and the whole pass are pure
    functions.
- `Canvas` (container.dfy): the container as a class with methods that
  update its fields in place. It also holds the imperative `render`. Each
  method is proved to leave exactly the state that the matching `Scene`
  function computes.
- `Reconcile` (reconcile.dfy) and `Pass` (pass.dfy): what one leaf does
  and what a whole pass does.
- `App` (app.dfy): the state container, as a `Store` value with
  functions on it and as the `AppState` class.
- `Anim` (anim.dfy): the animation token registry. The interpolation
  engine is replaced by external tick and completion events. `$anim` and `$animColor` share their token logic line for line (index.js:408-444 repeats index.js:371-406), so each row citing one covers the other.
- `Memo` (memo.dfy): the component cache.
- `Refresh` (surface.dfy): the default surface subscriber.

Where the code and its evident description differ, the model follows the
code:

- A superseded animation still runs its `onComplete`. It sets its own
  token's flags and calls `complete`.
- A positional create can remove an object that an earlier keyed leaf
  already claimed. The model proves only that every surviving object was
  claimed, not that claimed objects survive.
- What is proved about rendering the same tree twice is narrow. The
  first render must go into an empty container, with distinct keys and
  supported types. Then the second render keeps every object, and its only
  calls are `setCoords` and `ref` (`Pass.RenderTwice`). `Pass.RenderAgain`
  proves the same for a container laid out for the leaves. Nothing is
  claimed for a container that already held other objects. There, a kept
  object compares against its stale `__props` and may be `set` again on
  every render.
- The update branch never refreshes `__props`. A kept object is compared
  with the props it was created with for as long as it lives.
- The subscriber's second removal is redundant: `render` has already
  removed every object of the snapshot that is still marked.
- The memoizer's cache starts at `undefined`. On a component's very first
  call, a projection that is `undefined` returns `undefined` without
  calling the view.

## Model

| member | source | states |
|---|---|---|
| Names.NormalizeNameIsCanonical | index.js:69-71 | a normalised type name consists only of letters and digits, does not start with a lower-case letter, and normalising it again changes nothing |
| Names.EventPropNameOfWords | index.js:63-66 | the handler property of a raw event is "on" followed by each of its colon-separated words with the first letter upper-cased ("mouse:up:before" gives "onMouseUpBefore") |
| Names.MouseUpIsClick | index.js:22-66 | "mouse:up" is dispatched to `onMouseUp`, whose legacy alias is `onClick` |
| Names.MouseDblclickIsDblClick | index.js:22-66 | "mouse:dblclick" is dispatched to `onMouseDblclick`, whose legacy alias is `onDblClick` |
| Names.EventPropsStartWithOn | index.js:17-67 | every name in the event table starts with "on"; the empty first word of the split event list puts the bare "on" in the table |
| Names.NotAHandler | index.js:17-67 | a property whose name does not start with "on", such as `left`, `top`, `width` or `height`, is never taken for an event handler |
| Names.HandlerFor | index.js:549-557 | a handler is invoked exactly when the target exists and has a truthy primary handler, or has the legacy alias of one; the primary handler wins |
| Names.Dispatch | index.js:546-561 | a handler is invoked only for a listened-to event and only if the target holds it, truthy; the event's own handler wins whenever the target has it, otherwise only its legacy alias can run; nothing runs exactly when the event is not listened to, there is no target, or neither handler is truthy; the event's handler name is in the event table |
| Tree.CollectShapes | index.js:105-137 | a falsy node gives nothing; a named element gives one leaf whose props are the inherited ones overridden by its own; a block passes its own props (or `{}`) to its children, whatever was inherited; a typed function's output inherits nothing |
| Tree.CollectAllAppend | index.js:112-115 | an array flattens to the concatenation of its parts, in order |
| Tree.FalsyContributesNothing | index.js:110-115 | dropping the falsy elements of an array changes no leaf |
| Tree.InheritedOnlyUnderlays | index.js:105-137 | inherited props never change which leaves come out, their order, types or children; at most they sit under a leaf's own props |
| Tree.ValueInheritedOnlyUnderlays | index.js:110-137 | the same after the function check |
| Tree.AllInheritedOnlyUnderlays | index.js:112-115 | the same for the elements of an array |
| Canvas.CollectInto | index.js:105-139 | the recursive push into the shared `list` appends exactly the leaves the flattening function gives |
| Canvas.CollectValueInto | index.js:110-137 | the same after the function check |
| Canvas.CollectAllInto | index.js:112-115 | the same for an array's elements, in order |
| Scene.FirstWithKeyIsFirst | index.js:172 | the key search returns the first object carrying the key, and nothing when no object carries it |
| Scene.WithoutMembers | index.js:229 | `remove` keeps exactly the objects whose ids are not listed |
| Scene.MarkedAmong | index.js:252 | the filter keeps exactly the snapshot's objects that are still marked |
| Scene.RunErrorPersists | index.js:161-166 | once a leaf has thrown, later leaves change nothing |
| Canvas.ShouldUpdate | index.js:77-87 | the scan with early exit reports a change exactly when some new prop differs from the stamped one, a missing stamp entry reading as `undefined` |
| Canvas.SplitProps | index.js:177-191 | the props named in the event table become event handlers, all others structural, and coordinates are flagged exactly when a structural `left`, `top`, `width` or `height` is present |
| Canvas.Container.Item | index.js:174 | `item(index)` is the object at that index, or none past the end |
| Canvas.Container.FindByKey | index.js:172 | the lookup returns the match a keyed leaf gets |
| Canvas.Container.GetObjects | index.js:143 | `getObjects()` returns the current list |
| Canvas.Container.Construct | index.js:207-220 | a fresh object stamped with `__key`, `__props` and `__type`, with its construction logged |
| Canvas.Container.InsertAt | index.js:222 | the list after `insertAt` is the insertion, and the call is logged |
| Canvas.Container.Remove | index.js:252-255 | the list after `remove` keeps exactly the unlisted objects, and the call is logged |
| Canvas.Container.Set | index.js:195 | `obj.set(props)` assigns onto that object only, and the call is logged |
| Canvas.Container.AssignFields | index.js:197-199 | `Object.assign` onto that object only, with nothing logged |
| Canvas.Container.SetCoords | index.js:243-245 | logs `setCoords` for that object |
| Canvas.Container.CallRef | index.js:248 | logs the `ref` callback with the object |
| Canvas.Container.Mark | index.js:145 | the object is marked for removal |
| Canvas.Container.Unmark | index.js:241 | the object's removal mark is cleared |
| Canvas.Container.GetActiveObjects | index.js:521 | returns the active selection |
| Canvas.Container.ReplaceConfigs | index.js:515-518 | stores the new configuration and logs `calcOffset` |
| Canvas.Container.DiscardActiveObjects | index.js:537-539 | empties the selection and logs the call |
| Canvas.Container.RequestRenderAll | index.js:540 | logs the redraw request |
| Canvas.Container.MarkChildAdded | index.js:224-226 | sets the group's child-added flag |
| Canvas.Container.constructor | index.js:353-355 | a new surface holds no object, nothing marked or active, and stores its configuration |
| Canvas.Update | index.js:193-200 | the structural props go through the setter and the handlers are assigned as plain fields |
| Canvas.Finish | index.js:241-249 | clears the mark, recalculates coordinates if asked, then calls `ref` |
| Canvas.Place | index.js:206-230 | constructs, inserts at the leaf's index, flags a group, and removes the displaced object |
| Canvas.CreateAndPlace | index.js:206-236 | the create branch, ending with the update and a forced coordinate recalculation |
| Canvas.Reuse | index.js:237-249 | the kept branch: update only when some prop changed |
| Canvas.ResolveLeaf | index.js:147-250 | one iteration of the leaf loop leaves exactly the state of the pure leaf step, or throws its message having changed nothing |
| Canvas.MarkEach | index.js:145 | the loop marks every object of the snapshot |
| Canvas.ResolveNext | index.js:147-250 | one more leaf, with nothing happening after an exception |
| Canvas.ResolveAll | index.js:147-250 | the leaf loop leaves exactly the state and the exception of the pure pass over the leaves |
| Canvas.SweepMarked | index.js:252-255 | the final filter and batched `remove` |
| Canvas.Render | index.js:100-256 | the imperative `render` leaves exactly the state and the exception of the pure render pass |
| Reconcile.StepFailsOnlyWhenUnsupported | index.js:161-166 | a leaf throws exactly when its normalised type is not provided, with the message "Element type T is not supported" |
| Reconcile.KeyedMatchAnywhere | index.js:170-172 | a keyed leaf finds the first object with its key wherever it stands, and keeps it when the type agrees |
| Reconcile.UnkeyedMatchesByIndex | index.js:173-204 | an unkeyed leaf finds the object at its own index, and keeps it exactly when that object has the same type and was keyed by that index |
| Reconcile.MatchIsPresent | index.js:170-175 | a matched object is one of the container's objects |
| Reconcile.InsertDistinct | index.js:222 | inserting an object with a fresh id keeps the ids distinct |
| Reconcile.WithoutDistinct | index.js:229 | removing objects keeps the ids distinct |
| Reconcile.WithoutOne | index.js:229 | removing one id removes one object if present, none otherwise |
| Reconcile.ReuseBranchFacts | index.js:237-249 | a kept object keeps its place and identity fields, including a stale `__props`; `set` is called exactly when a prop changed, `setCoords` exactly when a coordinate prop is present, and `ref` last |
| Reconcile.StepReuse | index.js:206-249 | when no create is needed, the step keeps every object's identity and only clears the matched object's mark |
| Reconcile.PlacedFacts | index.js:207-230 | placing a fresh object: it is present with distinct ids, the displaced object is gone, and the log starts with the construction and `insertAt` |
| Reconcile.CreateBranchFacts | index.js:206-236 | the create branch brings in one fresh object with the effective key, type and prepared props, at the leaf's index (last past the end, one place earlier when the displaced object stood before the index), removes the displaced one, and logs construction, insertion, update and coordinates |
| Reconcile.StepCreate | index.js:206-236 | when a create is needed the step takes the create branch: one fresh object with the leaf's effective key, type and prepared props stands at the leaf's index (last past the end, one place earlier when the object it displaces stood before the index), the displaced object is gone, and construction, insertion, `set` and `setCoords` are logged |
| Reconcile.PlacedAt | index.js:222-229 | after `insertAt` and the removal of the displaced object, the new object stands at the index (last past the end), or one place earlier when the removed object stood before the index |
| Reconcile.CreateBranchIds | index.js:206-236 | the create branch leaves the objects in the order of the insertion followed by the removal of the displaced object |
| Pass.CreateBranchValid | index.js:206-236 | the create branch keeps the container valid and brings in only the fresh id |
| Pass.StepKeepsValid | index.js:147-250 | a leaf keeps the container valid, clears only its claimed object's mark, and brings in no other object |
| Pass.StepKeepsSurface | index.js:147-250 | a leaf touches neither the configuration nor the selection |
| Pass.RunClaims | index.js:147-250 | along the loop the container stays valid, exactly the claimed objects are unmarked, and every present object was present before or claimed |
| Pass.RunSupported | index.js:161-166 | leaves whose types are all provided never throw |
| Pass.RunStopsAtFirstUnsupported | index.js:161-166 | the loop ends at the first unsupported type, with its message, keeping the earlier leaves' changes |
| Pass.StopsAtFirstUnsupported | index.js:147-255 | a pass that meets an unsupported type throws after resolving the earlier leaves and sweeps nothing |
| Pass.SurvivorsWereClaimed | index.js:143-255 | after a successful pass every object present was claimed by a leaf, so an unclaimed object of the snapshot is gone and there are no more objects than leaves |
| Pass.CreatedSurviveSweep | index.js:252-255 | an object created during the pass is never in the final removal |
| Pass.EmptyTreeClears | index.js:252-255 | rendering no leaves removes every object |
| Pass.FreshMiss | index.js:170-175 | with distinct keys, a leaf finds none of the objects laid out for the leaves before it |
| Pass.LaidMatch | index.js:170-206 | against a laid-out list, each leaf finds its own object and keeps it |
| Pass.RunFresh | index.js:147-250 | into an empty container, leaves with distinct keys lay out one new object each, in order |
| Pass.RunOverLaid | index.js:147-250 | over its own layout, each leaf keeps its object untouched, and the only calls are `setCoords` and `ref` |
| Pass.FirstRender | index.js:100-256 | a first pass into an empty container lays the leaves out |
| Pass.RenderAgain | index.js:100-256 | rendering the leaves a list is laid out for creates, removes and changes nothing |
| Pass.RenderTwice | index.js:100-256 | the same tree rendered twice: the second pass keeps every object and calls only `setCoords` and `ref` |
| App.SplitPath | index.js:317-320 | a path is cut into at least one segment |
| App.JoinSplit | index.js:317-320 | splitting a path at its dots and joining the segments gives the path back |
| App.SplitJoin | index.js:317-320 | joining dot-free segments and splitting again gives the segments back |
| App.SplitShape | index.js:317-320 | a path splits into several segments exactly when it has a dot |
| App.SetIn | index.js:317-320 | a nested write keeps every other top-level property |
| App.GetAfterSet | index.js:317-320 | reading a path right after writing it gives the value written |
| App.Notify | index.js:328 | each subscriber is called once with the state, in registration order |
| App.Without | index.js:308 | the filter keeps exactly the other subscribers |
| App.WithoutConcat | index.js:308 | the filter keeps the order of the others |
| App.CreatedNotifiesSurface | index.js:506-563 | creation notifies the surface once with the initial state over the helpers, the initial state's own keys winning |
| App.FalsyWriteIsIgnored | index.js:313-315 | a falsy argument changes nothing and notifies nobody |
| App.MissingArgumentRenotifies | index.js:297-328 | a call whose first argument is explicitly `undefined`, as in `app(undefined)` or `app(undefined, v)`, defaults it to `true`, keeps the state and still notifies every subscriber; `app()` with no arguments is the read App.AppState.Get and notifies nobody |
| App.PathWrite | index.js:317-328 | a string write makes the path read back the value, keeps the other top-level properties, and notifies every subscriber with the new state, in order |
| App.MergeWrite | index.js:321-328 | an object write is a shallow merge where the argument's keys win, followed by the notifications in order |
| App.SubscribeThenUnsubscribe | index.js:302-309 | subscribing appends the function and returns a handle; using the handle removes every subscription of that function and keeps the others in order |
| App.UnsubscribeIsIdempotent | index.js:304-308 | a second call of an unsubscribe function does nothing, and neither does another handle of a removed function |
| App.DebounceKeepsLatest | index.js:331 | only the latest debounced call takes effect, exactly as if made directly |
| App.ApplyKeepsValid | index.js:297-329 | every write keeps the surface first and every listener removable |
| App.UnsubscribeKeepsValid | index.js:305-309 | the same for unsubscribing |
| App.FlushKeepsValid | index.js:331 | the same for the debounced call |
| App.SurfaceNotifiedFirst | index.js:508-509 | every write calls the surface subscriber first |
| App.AppState.constructor | index.js:506-563 | the store `createApp` leaves behind |
| App.AppState.Get | index.js:299 | `app()` returns the current state |
| App.AppState.Apply | index.js:297-329 | `app(arg, value)` leaves exactly the store the pure operation gives and returns its unsubscribe handle |
| App.AppState.NotifyAll | index.js:328 | the loop calls each subscriber once with the state, in order |
| App.AppState.Unsubscribe | index.js:305-309 | the unsubscribe function's effect |
| App.AppState.Debounce | index.js:331 | remembers only the latest arguments |
| App.AppState.Flush | index.js:331 | applies the latest arguments once |
| Anim.StartRegisters | index.js:371-426 | a start makes a fresh token holding the start value and target the name's token, leaves other names and earlier tokens alone, and starts an animation from that value exactly when `stop` is falsy; a colour animation gets no `by` |
| Anim.StartSupersedes | index.js:375-393 | after a start under a name, no earlier animation of that name is current |
| Anim.TickWritesOnlyWhenCurrent | index.js:391-398 | a tick always marks its own token running, even a superseded one, and writes the value and calls `change` exactly when its token is still current |
| Anim.CompleteMarksToken | index.js:399-405 | a completion sets its token complete and not running and calls `complete`, superseded or not, writing nothing |
| Anim.QueryFindsToken | index.js:369-370 | `$anim(name)` returns the name's token, or an idle answer that reads as not running |
| Anim.RestartSilencesOldTicks | index.js:375-398 | after a restart or a `stop` start under the same name, the first animation's ticks do nothing and the second's write |
| Anim.ColorNameOnlyStarts | index.js:408-426 | `$animColor(name)` alone starts an animation from the state at `name` instead of querying |
| Anim.WriteEffectReadsBack | index.js:394 | a tick's write, once the debounce delay elapses, makes the state read back the value at the animation's name |
| Anim.ZeroDurationScenario | index.js:364-406 | `$anim("x.y", {to: 100, duration: 0})` reads its start value from the state, writes 100 once, completes, and the state then reads 100 at "x.y" |
| Anim.Animations.constructor | index.js:296 | an empty registry |
| Anim.Animations.Query | index.js:369-370 | the query answer, found exactly for a registered name |
| Anim.Animations.Start | index.js:371-426 | a start updates the registry as the pure operation does and keeps it valid |
| Anim.Animations.Tick | index.js:391-398 | `onChange` updates the registry as the pure operation does |
| Anim.Animations.Complete | index.js:399-405 | `onComplete` updates the registry as the pure operation does |
| Memo.CallIsTransparent | index.js:265-273 | the view is called, once, exactly when the projection differs from the cached one; once called, every result is the view's tree for the projection |
| Memo.CacheSharedAcrossProps | index.js:263-273 | one cache serves every props instance: an equal projection from other props returns the same tree without calling the view |
| Memo.AlternatingProjections | index.js:265-273 | two different projections in a row call the view twice and return its trees in order |
| Memo.Component.constructor | index.js:258-263 | with one argument, the projector passes the props through unchanged |
| Memo.Component.Call | index.js:265-273 | a call updates the cache and returns the tree exactly as the pure operation does |
| Refresh.ConfigsReplacedWhenChanged | index.js:511-518 | the surface holds the new configuration afterwards, and `calcOffset` is called exactly when the configuration changed |
| Refresh.AfterRenderFacts | index.js:525-540 | after the render, only the second removal changes objects; the selection is discarded exactly when a removed object was active; a redraw is requested last |
| Refresh.SecondSweepRemovesNothing | index.js:520-536 | the second removal finds nothing left to remove |
| Refresh.PassKeepsSurface | index.js:524 | the render pass touches neither the configuration nor the selection |
| Refresh.RefreshFacts | index.js:509-541 | after a refresh, every object on the surface was claimed by a leaf, there are no more objects than leaves, the configuration is the new one, the selection is discarded exactly when needed, and a redraw is requested last |
| Refresh.EmptyTreeRemovesAllAtOnce | index.js:252-255 | an empty tree removes every object in one batched call |
| Refresh.SingleLeafCreates | index.js:206-245 | one leaf into an empty container creates one object with the effective key, the type and the prepared props, and recalculates its coordinates |
| Refresh.KeptCallsFacts | index.js:237-249 | a kept object gets `set` exactly when a prop changed, `setCoords` exactly when a coordinate prop is present, and at most three calls |
| Refresh.SingleKeyedLeafKeeps | index.js:170-255 | a keyed leaf keeps the one object carrying its key: nothing is created or removed |
| Refresh.ChangedLeafMoves | index.js:237-245 | a kept object whose coordinates changed is set again and has its coordinates recalculated |
| Refresh.RectCreated | index.js:206-245 | rendering a keyed rectangle into an empty container creates it |
| Refresh.RectMoved | index.js:237-245 | rendering it again with another `left` keeps it, sets it and recalculates its coordinates |
| Refresh.RectScenario | index.js:100-256 | the two renders in a row keep one and the same rectangle |
| Refresh.SweepAgain | index.js:525-540 | the filter loop, the selection check and the redraw leave exactly the state the pure steps give |
| Refresh.ConfigureAndMark | index.js:511-523 | takes the snapshots, replaces a changed configuration and marks every object |
| Refresh.RefreshSurface | index.js:509-541 | the subscriber's work on one surface leaves exactly the state and the exception of its pure counterpart |

## Left out

- Fabric.js itself is not part of this model. This covers constructors, `set`, `setCoords`, `calcOffset`, `renderAll` and the drawing. The calls made on it are recorded in a log. Each constructor is only checked to exist in a set of provided type names.
- `updateObject` and its setter lookup are not modelled. Its only call passes no props (index.js:516), so it changes nothing.
- `canvas.selection` is modelled as a boolean, and `parent.canvas || parent` is not distinguished from the parent.
- Fabric's `remove` clearing the active object itself is not modelled. Only the subscriber's explicit `discardActiveObjects` empties the selection.
- `uniqueId` and the `__id` of components are left out: nothing in the core reads them.
- Lodash `set` and `get` are modelled with dot-separated paths only. Bracket syntax is not modelled.
- Writing a path copies the nested objects on the way. The source mutates nested objects that old snapshots share, and that sharing is not modelled.
- `isEqual` is modelled as structural equality on values. Numbers are integers; floating point and `NaN` are not modelled.
- App.DebounceS and App.FlushS cannot represent `app.debounce()` with no arguments. In the source it flushes to `app()`, the read that notifies nobody (index.js:299, 331). A `Deferred` always holds two arguments, so the model flushes it as `app(undefined, undefined)`, which notifies every subscriber with the unchanged state.
- Debounce timing is left out. `app.debounce` keeps only its latest arguments, and an explicit flush applies them. The surface's `debounceRenderAll` is a logged request.
- The interpolation, easing and timers of `animate` and `animateColor` are left out. Their ticks and completions are external events.
- Destructuring `null` options in `$anim` throws in the source. This case is not modelled: the options are a record.
- `$load.image` is not part of this model. It uses promises, the DOM, `toDataURL` and cross-origin loading.
- DOM lookup with `document.getElementById`, the choice between one canvas and several, and registering listeners with `fabricCanvas.on` are left out. Only the choice of handler is modelled.
- Several canvases are modelled one surface at a time, through `Refresh.RefreshSurface`.
- A state function returns the node the pass would compute from its one snapshot (index.js:101). A function that returns another function is not applied again, as in the source.
- Names.NormalizeName, and so Names.NormalizeNameIsCanonical, treats every maximal run of ASCII letters and digits as one word. Lodash `startCase` also splits a digit run from the letters after it, drops apostrophes, strips diacritics and keeps non-ASCII letters. For "1abc", "it's" and "é" lodash gives "1Abc", "Its" and "E", where the model gives "1abc", "ItS" and "". The element types and event names in use are ASCII words separated by punctuation, and on those the two agree.
- App.GetIn reads through objects only. Lodash `get` also reads array elements by index and properties of strings and functions. The model reads `undefined` there: `get(app(), "items.1")` on `items: [1, 2]`, the read `$anim` makes at index.js:372, is 2 in the source and `undefined` in the model, so `$anim("items.1", ...)` starts from `undefined`.
- App.SetIn writes through objects only, and replaces any other value on the way with a new object. Lodash `set` writes into an existing array or function, and creates an array, not an object, when the next segment is an index. `app("items.0", 5)` on `items: [1, 2]` gives `[5, 2]` in the source and `{0: 5}` in the model. Lodash's refusal of `__proto__`, `constructor` and `prototype` segments is not modelled either.
- App.PathWrite, App.GetAfterSet and Anim.WriteEffectReadsBack inherit these limits of App.SetIn and App.GetIn: for paths that pass through arrays or functions, and for paths with a `__proto__`, `constructor` or `prototype` segment. In the source, `app("a.constructor", 5)` leaves the state as it was, and `get` then reads the inherited `Object` function, not 5.
- App.Notify, and with it App.ApplyS, App.AppState.NotifyAll, App.PathWrite, App.MergeWrite and App.MissingArgumentRenotifies, treats subscribers as calls that always return. In the source, a subscriber that throws stops `forEach`: later subscribers are not called, and the exception propagates out of `app()` and `createApp`. The surface subscriber throws this way on an unsupported element type. A subscriber that writes the state again, so that later subscribers see the newer state, is not modelled either.
- App.AppState.NotifyAll has the same limits as App.Notify.
- Scene.FirstWithKeyIsFirst, Reconcile.KeyedMatchAnywhere and Canvas.Container.FindByKey compare keys as values. The source compares with `===`, which compares objects, arrays and functions by reference. A leaf keyed by a fresh object literal such as `{id: 1}` never finds its object in the source, so the source recreates it on every render, while the model keeps it.
- Reconcile.UnkeyedMatchesByIndex and Reconcile.StepReuse keep an object when its stored key equals the effective key as a value. The same `===` difference applies.
- Names.NotAHandler, Canvas.SplitProps, Canvas.ShouldUpdate and Anim.QueryS treat `eventHash`, `__props` and `animations` as plain maps. In the source, `k in eventHash` (index.js:182) also holds for names inherited from `Object.prototype`, such as `constructor`, `toString`, `valueOf`, `hasOwnProperty` and `__proto__`. A prop with such a name is assigned as a plain field and never passed to `set`. Likewise, `child.__props[k]` (index.js:80) reads the inherited function, not `undefined`, when such a name is missing from `__props`. The model's table and lookup hold only own entries, so for these names a prop is structural and a missing stamp entry reads as `undefined`. The same holds for the registry `animations = {}`: `animations[name] || { running: false }` (index.js:370) returns the inherited `Object` function for `$anim("constructor")`, where Anim.QueryS gives the idle answer. Both read `.running` as falsy, so only the identity of the answer differs.
- Reconcile.StepFailsOnlyWhenUnsupported, Pass.RunSupported, Pass.RunStopsAtFirstUnsupported and Pass.StopsAtFirstUnsupported treat the `ref` callback as a call that always returns. In the source, `ref(obj)` (index.js:247-249) throws when `ref` is truthy but not a function, or when the callback itself throws. That happens after the leaf's object has been created or updated, unmarked and given `setCoords`, and the throw ends the pass before the sweep. The model logs the call and carries on, so in the model an unsupported type is the only way a leaf throws.
- `dist/index.js` is the transpiled copy of the same code and is not modelled separately.
