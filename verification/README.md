# ivy-codemirror, modelled in Dafny

This project models the core of `ivy-codemirror`, an Ember component that
wraps a CodeMirror editor, in three parts:

- **The AMD-style loader** (`loader.dfy`, `module_name.dfy`). The standalone
  bundle ships a small loader. `define` records a module's dependency list
  and factory. `require` runs the factory once its dependencies are loaded
  and caches the result. Before running the factory it installs an `{}`
  placeholder, which is what modules that list `exports` receive. A load
  that throws is marked `FAILED`. `resolve` interprets `./` and `../`
  dependency names relative to the module that declares them.
- **The `ivy-codemirror` component** (`ivy_codemirror.dfy`, `ivy_options.dfy`,
  `code_mirror.dfy`). This is two-way synchronisation between the
  component's properties and the editor widget:
  - 21 properties are mirrored into widget options by observers;
  - the `value` property is written into the buffer only when it differs;
  - user edits flow back to `value` through the `beforeChange`/`change`
    events, with `valueWillChange`/`valueDidChange` actions;
  - a buffer write raises the same events synchronously, so the component's
    own listeners echo it back into `value` (a `null` value becomes `''`);
  - `lint` adds or removes the lint-marker gutter;
  - `width`/`height` resize the widget;
  - every observer and event listener has a teardown that runs on
    `willDestroyElement`.
- **The `ivy-merge-codemirror` extension** (`ivy_merge_codemirror.dfy`). This
  is a three-pane merge view. The middle pane is the editor above. The left
  pane is optional and is created only when `leftValue` is truthy or
  `panels` is 3. At bind time the middle pane's options are copied to the
  original panes, except `value`, `origLeft`, `origRight` and `readOnly`.
  `leftValue`/`rightValue` are synchronised into the original panes. Every
  resize adds a gap-equalising `update` listener on the right pane.

The editor widget is an immutable value. It has a buffer, an option map,
the listeners registered on it, and a log of the calls that reach the
library (`setValue`, `setSize`, `refresh`). The component is also a value.
It holds its properties, its observers (key and handler), its
`willDestroyElement` hooks and the actions it sent. Each operation of the
source is a pure function from one such state to the next. Its contract
states what the source promises about the result.

## Model

| member | source | states |
|---|---|---|
| ModuleName.Split | standalone/dist/ivy-codemirror-0.1.1.js:82-86 | splitting a name on `/` yields at least one segment, and no segment contains a separator |
| ModuleName.Resolve | standalone/dist/ivy-codemirror-0.1.1.js:82-104 | a name that does not start with `.` is returned unchanged, whatever the parent |
| ModuleName.RelativeFirstSegment | standalone/dist/ivy-codemirror-0.1.1.js:83 | the `charAt(0) === '.'` test holds exactly when the first `/`-segment of the child is non-empty and starts with a dot |
| ModuleName.Step | standalone/dist/ivy-codemirror-0.1.1.js:98-100 | a plain segment is pushed onto the base; `.` leaves the base as it is; `..` gives a prefix of the base at most one shorter; the base grows by one exactly for a plain segment |
| ModuleName.Walk | standalone/dist/ivy-codemirror-0.1.1.js:95-101 | every segment of the result comes from the parent base or is a plain segment of the child, so the loop never invents a segment |
| ModuleName.Join | standalone/dist/ivy-codemirror-0.1.1.js:103 | the join starts with the first part, followed by a `/` when there is more than one part; for separator-free parts it contains a `/` exactly when there are two parts or more |
| ModuleName.ParentBase | standalone/dist/ivy-codemirror-0.1.1.js:89-93 | the base of a one-segment parent is the parent itself; otherwise it is the parent without its last segment |
| ModuleName.JoinSplit | standalone/dist/ivy-codemirror-0.1.1.js:84-103 | joining the segments of any string with `/` gives the string back |
| ModuleName.SplitJoin | standalone/dist/ivy-codemirror-0.1.1.js:84-103 | splitting a join of separator-free segments gives the segments back |
| ModuleName.SplitSegment | standalone/dist/ivy-codemirror-0.1.1.js:84-86 | a separator-free prefix is glued onto the first segment of the rest |
| ModuleName.JoinHead | standalone/dist/ivy-codemirror-0.1.1.js:103 | prefixing the first segment prefixes the joined name |
| ModuleName.WalkAppend | standalone/dist/ivy-codemirror-0.1.1.js:88-101 | the segment loop over a concatenation continues from where the first part ended |
| ModuleName.WalkPlain | standalone/dist/ivy-codemirror-0.1.1.js:88-101 | a child without `.` or `..` segments is appended to the base unchanged |
| ModuleName.WalkLength | standalone/dist/ivy-codemirror-0.1.1.js:88-101 | each segment moves the result length by at most one |
| ModuleName.WalkNormal | standalone/dist/ivy-codemirror-0.1.1.js:88-101 | resolution never introduces `.` or `..` segments into a base free of them |
| ModuleName.SingleSegmentParent | standalone/dist/ivy-codemirror-0.1.1.js:89-90 | `./x` declared by a parent without a directory resolves to `parent/x`, not to the sibling `x` |
| ModuleName.DirectoryBase | standalone/dist/ivy-codemirror-0.1.1.js:91-92 | the base of a parent with a directory part is that directory |
| ModuleName.SiblingOfParent | standalone/dist/ivy-codemirror-0.1.1.js:82-104 | `./x` declared by `dir/name` resolves to `dir/x` |
| ModuleName.UncleOfParent | standalone/dist/ivy-codemirror-0.1.1.js:82-104 | `../x` declared by `dir/name` resolves to `x` one directory above `dir` |
| ModuleName.ResolveExamples | standalone/dist/ivy-codemirror-0.1.1.js:82-104 | an absolute name such as `ember` is kept; `./b` declared by `a` becomes `a/b` |
| Loader.Define | standalone/dist/ivy-codemirror-0.1.1.js:18-29 | the name is registered; a non-array second argument becomes the factory with no dependencies; other names, the cache, the failure markers, the run log and the placeholder counter are untouched |
| Loader.Require | standalone/dist/ivy-codemirror-0.1.1.js:52-80 | a live cached module is returned without change; an unknown name fails with not-found; a load allocates a fresh placeholder; cached modules, failure markers and the registry are never lost; a success caches its result; a failed load marks the module failed; a fresh success ran the module's factory last, on one argument per dependency: the placeholder at each `exports` position and the cached module for every other dependency, and the result is what the factory returned (or the placeholder when `exports` is listed) |
| Loader.Reify | standalone/dist/ivy-codemirror-0.1.1.js:31-50 | on success there is one value per dependency: every `exports` position holds the module's placeholder, and every other position holds the value cached afterwards for the resolved dependency name; a first dependency that is neither loaded nor registered stops it with that name's not-found error, changing nothing |
| Loader.NotFoundMessageNames | standalone/dist/ivy-codemirror-0.1.1.js:59 | the not-found message names the module: two different names never give the same message |
| Loader.RequireCachesRegistered | standalone/dist/ivy-codemirror-0.1.1.js:52-80 | after `require` every cached name was cached before or is registered: only registered modules enter the cache |
| Loader.ReifyCachesRegistered | standalone/dist/ivy-codemirror-0.1.1.js:31-50 | the same for `reify` |
| Loader.ReifyNeedsRegistered | standalone/dist/ivy-codemirror-0.1.1.js:31-50 | a successful `reify` found every non-`exports` dependency loaded already or registered |
| Loader.RequireNeedsRegistered | standalone/dist/ivy-codemirror-0.1.1.js:31-80 | a fresh successful `require` found the module registered and every dependency loaded already or registered |
| Loader.ReifyMissing | standalone/dist/ivy-codemirror-0.1.1.js:37-43 | the first dependency after a run of `exports` that is neither loaded nor registered stops `reify` with its not-found error before any later dependency is required, changing nothing |
| Loader.MissingDependency | standalone/dist/ivy-codemirror-0.1.1.js:52-80 | a module whose first non-`exports` dependency is missing fails with that dependency's not-found error, is marked failed, and its factory never runs |
| Loader.RequireReturns | standalone/dist/ivy-codemirror-0.1.1.js:62-79 | a fresh load of a module without `exports` whose dependencies reify to some values runs its factory on them, logs the run, and caches and returns what the factory returned |
| Loader.RequireReifyFails | standalone/dist/ivy-codemirror-0.1.1.js:67-77 | a fresh load whose dependencies fail to reify fails with their error and marks the module failed |
| Loader.RequireFreshReifies | standalone/dist/ivy-codemirror-0.1.1.js:58-72 | a fresh successful `require` found the module registered and its dependencies reified successfully |
| Loader.RequireLiveBefore | standalone/dist/ivy-codemirror-0.1.1.js:52-80 | a name live after a `require` was live before it or is registered |
| Loader.ReifyCons | standalone/dist/ivy-codemirror-0.1.1.js:37-49 | one successful step of the loop: the first value (the placeholder for `exports`, the required module otherwise) followed by the values of the rest |
| Loader.ReifyFirstSucceeds | standalone/dist/ivy-codemirror-0.1.1.js:37-49 | a successful `reify` whose first dependency is not `exports` required it successfully and then reified the rest successfully |
| Loader.ReifyOneLoaded | standalone/dist/ivy-codemirror-0.1.1.js:31-50 | reifying one dependency that is loaded already yields its cached value and changes nothing |
| Loader.ReifyExportsThenOne | standalone/dist/ivy-codemirror-0.1.1.js:37-49 | reifying `exports` and one more dependency gives the placeholder followed by that dependency's value |
| Loader.RequireOneDep | standalone/dist/ivy-codemirror-0.1.1.js:52-80 | a fresh load of a module with one loaded dependency runs its factory on that dependency's value and caches the result |
| Loader.MissingModule | standalone/dist/ivy-codemirror-0.1.1.js:58-60 | requiring a name neither cached nor registered fails with `Could not find module <name>` and changes nothing |
| Loader.CachedAfterLoad | standalone/dist/ivy-codemirror-0.1.1.js:52-80 | after a successful load, a later require returns the same value and leaves the loader as it is, running no factory |
| Loader.FailureIsPermanent | standalone/dist/ivy-codemirror-0.1.1.js:18-80 | neither `define` nor `require` clears a failure marker, and a failed module is loaded again with a fresh placeholder instead of answered from the cache |
| Loader.ThrowMarksFailed | standalone/dist/ivy-codemirror-0.1.1.js:52-80 | for any dependency list, a factory that throws makes `require` fail and marks the module failed, also when it was loaded and failed before; when the dependencies are already loaded the error is the factory's reason |
| Loader.ReifyLoaded | standalone/dist/ivy-codemirror-0.1.1.js:31-50 | when every dependency is `exports` or already loaded and not failed, reifying succeeds without changing the loader |
| Loader.RedefineAfterFailure | standalone/dist/ivy-codemirror-0.1.1.js:18-80 | after a failed load the placeholder stays in the cache, yet a redefined module is run instead of returning it, and is run again on every later require |
| Loader.ExportsPlaceholder | standalone/dist/ivy-codemirror-0.1.1.js:52-80 | a module listing `exports` is run last, with one argument per dependency and the placeholder at every `exports` position; `require` returns the object cached under its name, which is that placeholder unless the module had failed before |
| Loader.CycleInner | standalone/dist/ivy-codemirror-0.1.1.js:52-80 | inside a cyclic load, the inner module's require of the outer one returns the outer placeholder, and nothing is marked failed |
| Loader.CycleOuter | standalone/dist/ivy-codemirror-0.1.1.js:31-50 | the outer module of the cycle reifies to its placeholder twice, once as `exports` and once through the inner module |
| Loader.CycleSeesPlaceholder | standalone/dist/ivy-codemirror-0.1.1.js:31-80 | in a cycle through `exports`, both modules end up bound to the first module's placeholder |
| CodeMirror.OrEmpty | addon/components/ivy-codemirror.js:209 | `value \|\| ''` on a string-or-null property is the string, or the empty string for every non-string |
| CodeMirror.RemoveFirst | addon/components/ivy-codemirror.js:148 | `off` removes the first occurrence of the listener, if present, and keeps the other elements in their order; the result is one shorter and loses exactly one copy; without an occurrence nothing changes |
| CodeMirror.IndexOf | addon/components/ivy-codemirror.js:54 | `indexOf` is -1 exactly when the element is absent; otherwise it is the position of the first occurrence |
| IvyCodeMirror.SyncBuffer | addon/components/ivy-codemirror.js:204-211 | afterwards the buffer holds `value \|\| ''`; the widget is untouched exactly when `value` already equals the buffer; otherwise one write is logged |
| IvyCodeMirror.ValueDidChange | addon/components/ivy-codemirror.js:204-211 | when `value` equals the buffer nothing happens; otherwise `value \|\| ''` is written to the buffer and the write is logged; no observer, hook or listener is added or removed, no action is withdrawn, and no property other than `value` and no option changes |
| IvyCodeMirror.OptionDidChange | addon/components/ivy-codemirror.js:183-185 | the widget option `key` now holds the property `key`; every other option is unchanged |
| IvyCodeMirror.UpdateSize | addon/components/ivy-codemirror.js:69-71 | the widget is resized to the current width and height, and nothing else changes |
| IvyCodeMirror.RefreshEditor | addon/components/ivy-codemirror.js:80-82 | one refresh is logged, and nothing else changes |
| IvyCodeMirror.Without | addon/components/ivy-codemirror.js:53-61 | the marker is absent from the result; every other gutter is kept; a list without the marker is returned unchanged; the result is no longer than the list |
| IvyCodeMirror.WithoutCount | addon/components/ivy-codemirror.js:53-61 | removing the marker keeps every other gutter with its multiplicity and drops every copy of the marker |
| IvyCodeMirror.WithoutAppend | addon/components/ivy-codemirror.js:53-61 | removing the marker from a concatenation is removing it from each part, so the order of the other gutters is kept |
| IvyCodeMirror.UpdateLintGutter | addon/components/ivy-codemirror.js:45-63 | corrected (intended) behaviour, not what the source does: with lint on, the marker is prepended to `gutters` and the `lint` option is true; with lint off, the marker is removed and the option is false; no other option, property or listener changes |
| IvyCodeMirror.EnableLint | addon/components/ivy-codemirror.js:48-51 | the gutters option is the marker followed by the `gutters` property, and the `lint` option is true |
| IvyCodeMirror.DisableLint | addon/components/ivy-codemirror.js:52-62 | corrected (intended) behaviour: the `lint` option is false, and the gutters option is the `gutters` property without the marker |
| IvyCodeMirror.DisableLintAsWritten | addon/components/ivy-codemirror.js:52-62 | as written: without a marker in the property, nothing but `lint` changes; with one, the property loses the marker in place and the option becomes the removed item |
| IvyCodeMirror.UpdateLintGutterAsWritten | addon/components/ivy-codemirror.js:45-63 | as written, and used by `set` and `_triggerUpdates`: the `lint` option becomes the truthiness of the property; truthy lint makes the gutters option the marker followed by `gutters`; falsy lint with no marker in `gutters` leaves everything but `lint` alone; falsy lint with a marker makes the option the marker alone; no other property, option, buffer, call or listener changes |
| IvyCodeMirror.Dispatch | addon/components/ivy-codemirror.js:123-124 | an option observer sets the widget option to the property; the value observer leaves the buffer holding `value \|\| ''`; any other observer, or the value observer when `value` equals the buffer, leaves the component and the buffer alone; no property other than `value` changes |
| IvyCodeMirror.Notify | addon/components/ivy-codemirror.js:157 | once a key's observers run, an option bound to it equals the property; an option already equal stays equal; other options and properties other than `value` are untouched; with `value` equal to the buffer nothing in the component or buffer changes; a key nobody observes changes nothing |
| IvyCodeMirror.Set | addon/components/ivy-codemirror.js:41-43 | `set` stores the property (for `value` through the echo); setting the value it already has is a no-op; an option observer bound to the key makes the widget option equal the new value; other properties and options stay, except `gutters` when `lint` is set; when the buffer already holds the new value nothing else happens; registrations stay and actions are only appended |
| IvyCodeMirror.UpdateValue | addon/components/ivy-codemirror.js:193-197 | the `value` property becomes the buffer text and `valueDidChange` is appended with it; the buffer, other properties and options stay |
| IvyCodeMirror.BeforeUpdateValue | addon/components/ivy-codemirror.js:199-202 | only a `valueWillChange` action carrying the current buffer is sent |
| IvyCodeMirror.Emit | addon/components/ivy-codemirror.js:142-150 | an event no listener subscribes to changes nothing; otherwise only `value` and the sent actions may change, and registrations and the buffer are preserved |
| IvyCodeMirror.DispatchEvent | addon/components/ivy-codemirror.js:193-202 | an event handler may change `value` and append actions, but never changes the buffer, another property, an option, or a registration |
| IvyCodeMirror.UserEdit | addon/components/ivy-codemirror.js:96-97 | a user edit leaves the registrations of the component and the widget unchanged |
| IvyCodeMirror.BindCodeMirrorEvent | addon/components/ivy-codemirror.js:142-150 | the listener is added to the widget, and a teardown that removes it is appended to the hooks |
| IvyCodeMirror.BindCodeMirrorProperty | addon/components/ivy-codemirror.js:169-175 | the observer is added, and a teardown that removes it is appended to the hooks; the widget is untouched |
| IvyCodeMirror.BindCodeMirrorOption | addon/components/ivy-codemirror.js:156-161 | the option observer is registered with its teardown, and the option is set synchronously to the property |
| IvyCodeMirror.BindOptionsFrom | addon/components/ivy-codemirror.js:99-121 | every listed option now equals its property; every other option is unchanged; properties, buffer and listeners are untouched |
| IvyCodeMirror.BindOptionsFromRegisters | addon/components/ivy-codemirror.js:99-121 | binding a list of options appends one observer per key, in order, and one matching removal hook each |
| IvyCodeMirror.BindOptionsObserves | addon/components/ivy-codemirror.js:99-121 | `_bindOptions` appends one option observer for each of the 21 mirrored keys, in source order |
| IvyCodeMirror.BindOptionsUnbinds | addon/components/ivy-codemirror.js:99-121 | `_bindOptions` appends one removal hook for each of those observers |
| IvyOptions.GuttersUnmirrored | addon/components/ivy-codemirror.js:99-121 | `gutters` is not among the option observers; it has its own refresh observer |
| IvyOptions.LintUnmirrored | addon/components/ivy-codemirror.js:99-121 | `lint` is not among the option observers; it goes through the lint gutter update |
| IvyOptions.ViewportMarginUnmirrored | addon/components/ivy-codemirror.js:99-121 | `viewportMargin` is not among the option observers |
| IvyOptions.ValueUnmirrored | addon/components/ivy-codemirror.js:99-121 | `value` is not among the option observers; it has its own buffer observer |
| IvyCodeMirror.BindOptionsFromKeys | addon/components/ivy-codemirror.js:99-121 | after binding, every listed key and every earlier option is present in the widget options |
| IvyCodeMirror.BindOptionsBinds | addon/components/ivy-codemirror.js:99-121 | after `_bindOptions` each of the 21 mirrored options equals its property; all other options are as before |
| IvyCodeMirror.BindOptions | addon/components/ivy-codemirror.js:99-121 | `_bindOptions` makes each of the 21 mirrored options equal its property, and changes no property, action, buffer, call or listener |
| IvyCodeMirror.BindEvents | addon/components/ivy-codemirror.js:95-98 | the `beforeChange` and `change` listeners are added, each with its teardown hook |
| IvyCodeMirror.BindProperties | addon/components/ivy-codemirror.js:122-126 | observers for `gutters` (refresh) and `value` (buffer sync) are added with their teardowns, the buffer becomes `value \|\| ''`, and no listener, option or other property changes |
| IvyCodeMirror.TriggerUpdates | addon/components/ivy-codemirror.js:127-134 | a `becameVisible` refresh hook is added; the as-written lint update runs, so the `lint` option follows the property and the gutters option takes one of its three outcomes; the widget is resized to width and height, as the last call |
| IvyCodeMirror.InitCodeMirror | addon/components/ivy-codemirror.js:84-90 | after `didInsertElement` the widget listens to exactly the two edit listeners, the observers are the old ones followed by the 21 option observers, `gutters` and `value`, every mirrored option equals its property, the buffer holds `value \|\| ''`, the `lint` option follows the property, and the last call is the resize |
| IvyCodeMirror.StagesInit | addon/components/ivy-codemirror.js:86-89 | the four stages from an editor without listeners give exactly those widget facts |
| IvyCodeMirror.StagesAddObservers | addon/components/ivy-codemirror.js:86-89 | the four stages append exactly the initial observer list |
| IvyCodeMirror.StagesAddObserversFrom | addon/components/ivy-codemirror.js:86-89 | the same, for any list of option keys |
| IvyCodeMirror.StagesBound | addon/components/ivy-codemirror.js:86-88 | after events, options and properties are bound the buffer holds `value \|\| ''`, `viewportMargin` is untouched and no property but `value` changed |
| IvyCodeMirror.NotifyValueQuiet | addon/components/ivy-codemirror.js:204-211 | when `value` already equals the buffer, its observers leave the editor unchanged |
| IvyCodeMirror.SetValueIdempotent | addon/components/ivy-codemirror.js:204-211 | setting `value` to the current buffer text does not touch the widget |
| IvyCodeMirror.SetValueReachesBuffer | addon/components/ivy-codemirror.js:204-211 | with the component's own bindings, setting a changed `value` to `v` is the echo: the buffer and `value` end as `v \|\| ''`, and `valueWillChange` (old buffer) then `valueDidChange` (new text) are sent exactly when `v` differs from the old buffer text |
| IvyCodeMirror.EchoActions | addon/components/ivy-codemirror.js:193-211 | the echo sends no action exactly when `value` already equals the buffer |
| IvyCodeMirror.ValueDidChangeEcho | addon/components/ivy-codemirror.js:193-211 | with the component's own listeners, `_valueDidChange` is the echo: the buffer and `value` both become `value \|\| ''` and the two actions are sent; afterwards the sync has nothing left to do |
| IvyCodeMirror.EchoedWrites | addon/components/ivy-codemirror.js:193-211 | the echo leaves the buffer and `value` both holding `value \|\| ''` and appends exactly the echo's actions to what was sent before |
| IvyCodeMirror.NotifyValueEcho | addon/components/ivy-codemirror.js:157-211 | running the observers of `value` performs the echo once if the buffer observer is among them, and nothing otherwise |
| IvyCodeMirror.BindPropertiesEcho | addon/components/ivy-codemirror.js:122-126 | binding properties with the edit listeners in place sends the echo's actions and leaves `value` holding `value \|\| ''` |
| IvyCodeMirror.ChangeRoundTrip | addon/components/ivy-codemirror.js:193-211 | a user edit sets `value` to the new text and sends `valueWillChange` with the old text, then `valueDidChange` with the new; the echo writes nothing; the value sync is then a no-op |
| IvyCodeMirror.SetKeepsMirrored | addon/components/ivy-codemirror.js:156-185 | with every mirrored option observed, any `set` keeps each mirrored option equal to its property |
| IvyCodeMirror.ViewportMarginNotForwarded | addon/components/ivy-codemirror.js:12-121 | `viewportMargin` has a default but no observer, so setting it never reaches the widget |
| IvyCodeMirror.TeardownsAppend | addon/components/ivy-codemirror.js:142-175 | the teardowns of concatenated hook lists are the concatenation of their teardowns |
| IvyCodeMirror.ObservedAppend | addon/components/ivy-codemirror.js:142-175 | the observers and listeners removed by concatenated teardown lists are the concatenations of those removed by each |
| IvyCodeMirror.ObservedOnlyAppend | addon/components/ivy-codemirror.js:172-174 | the observers removed by concatenated teardown lists concatenate |
| IvyCodeMirror.ListenedAppend | addon/components/ivy-codemirror.js:147-149 | the listeners removed by concatenated teardown lists concatenate |
| IvyCodeMirror.RemovalHooksPaired | addon/components/ivy-codemirror.js:172-174 | the removal hooks of a binding list remove exactly those bindings and no listener |
| IvyCodeMirror.PairedAppend | addon/components/ivy-codemirror.js:142-175 | appending registrations together with hooks that undo exactly them keeps every binding paired with its teardown |
| IvyCodeMirror.TwoTeardowns | addon/components/ivy-codemirror.js:147-149 | two listener teardowns remove exactly those two listeners and no observer |
| IvyCodeMirror.PairedBindEvents | addon/components/ivy-codemirror.js:95-98 | `_bindEvents` keeps bindings and teardowns paired |
| IvyCodeMirror.PairedBindOptionsFrom | addon/components/ivy-codemirror.js:99-121 | binding any list of options keeps bindings and teardowns paired |
| IvyCodeMirror.PairedBindOptions | addon/components/ivy-codemirror.js:99-121 | `_bindOptions` keeps bindings and teardowns paired |
| IvyCodeMirror.PairedBindProperties | addon/components/ivy-codemirror.js:122-126 | `_bindProperties` keeps bindings and teardowns paired |
| IvyCodeMirror.PairedTriggerUpdates | addon/components/ivy-codemirror.js:127-134 | `_triggerUpdates` keeps bindings and teardowns paired |
| IvyCodeMirror.InitCodeMirrorBindings | addon/components/ivy-codemirror.js:84-134 | after initialisation the observers are the 21 option observers followed by `gutters` and `value`, and the widget listens to exactly `beforeChange` and `change` |
| IvyCodeMirror.InitCodeMirrorPaired | addon/components/ivy-codemirror.js:84-175 | after initialisation every observer and listener has exactly one teardown |
| IvyCodeMirror.InitCodeMirrorCounts | addon/components/ivy-codemirror.js:84-175 | initialisation registers 23 observers and 25 teardowns |
| IvyCodeMirror.InitObserversCount | addon/components/ivy-codemirror.js:99-126 | there are 23 property observers: 21 options plus `gutters` and `value` |
| IvyCodeMirror.PairedCount | addon/components/ivy-codemirror.js:142-175 | in a paired editor the teardown count equals the observers plus the listeners |
| IvyCodeMirror.TeardownsSplit | addon/components/ivy-codemirror.js:142-175 | each teardown removes either one observer or one listener |
| IvyCodeMirror.StagesObservers | addon/components/ivy-codemirror.js:86-88 | the binding stages register exactly the initial observer list |
| IvyCodeMirror.StagesListeners | addon/components/ivy-codemirror.js:86-89 | the binding stages register exactly the two edit listeners |
| IvyCodeMirror.StagesPaired | addon/components/ivy-codemirror.js:86-89 | from an unbound editor, the four stages leave it paired |
| IvyCodeMirror.BindingStagesPaired | addon/components/ivy-codemirror.js:86-88 | from an unbound editor, the three binding stages leave it paired |
| IvyCodeMirror.InitCodeMirrorSync | addon/components/ivy-codemirror.js:84-134 | after initialisation the buffer holds `value \|\| ''` and so does `value`, the `lint` option follows the property, `viewportMargin` keeps the library's value, the last call is the resize, and the actions sent are exactly the echo's: none when `value` already equals the textarea text, otherwise `valueWillChange` and `valueDidChange` |
| IvyCodeMirror.DefaultInitEcho | addon/components/ivy-codemirror.js:12-134 | with the declared defaults (`value` is `null`) initialisation writes `''`, sends `valueWillChange` with the textarea text and `valueDidChange` with `''`, and leaves `value` holding `''` |
| IvyCodeMirror.NullInitEcho | addon/components/ivy-codemirror.js:84-134 | the same for any properties whose `value` is `null` |
| IvyOptions.DefaultValueNull | addon/components/ivy-codemirror.js:12 | the declared default of `value` is `null` |
| IvyCodeMirror.InitCodeMirrorMirrored | addon/components/ivy-codemirror.js:84-121 | after initialisation every mirrored option equals its property |
| IvyCodeMirror.StagesMirror | addon/components/ivy-codemirror.js:86-89 | after the four stages every mirrored option equals its property |
| IvyCodeMirror.StagesCopy | addon/components/ivy-codemirror.js:86-89 | after the four stages every mirrored option holds the property it had before binding |
| IvyCodeMirror.StagesMirrorFrom | addon/components/ivy-codemirror.js:86-89 | the same, for any list of option keys other than `gutters` and `lint` |
| IvyCodeMirror.LaterStagesKeep | addon/components/ivy-codemirror.js:88-89 | binding properties and triggering updates touch no option or property other than `gutters` and `lint` |
| IvyCodeMirror.StagesSync | addon/components/ivy-codemirror.js:86-89 | the stages sync the buffer to `value \|\| ''` and the `lint` option to the property, resize last, and keep `viewportMargin` |
| IvyCodeMirror.StagesSyncFrom | addon/components/ivy-codemirror.js:86-89 | the same, for any list of option keys without `viewportMargin` |
| IvyCodeMirror.StagesEcho | addon/components/ivy-codemirror.js:86-89 | from an unbound editor the stages send exactly the echo's actions and leave `value` holding `value \|\| ''` |
| IvyCodeMirror.StagesEchoFrom | addon/components/ivy-codemirror.js:86-89 | the same, for any list of option keys without `value` |
| IvyCodeMirror.UpdateLintGutterIdempotent | addon/components/ivy-codemirror.js:45-63 | running the corrected lint gutter update twice is the same as running it once |
| IvyCodeMirror.LintToggleRestores | addon/components/ivy-codemirror.js:41-63 | with the corrected update, switching lint on then off shows the marker followed by the gutters, then the gutters without the marker, and keeps the property unchanged |
| IvyCodeMirror.SetLintIntended | addon/components/ivy-codemirror.js:41-63 | the corrected `set('lint', v)`: the property becomes `v`, no other property but `value` changes, an unchanged value is a no-op, and the `lint` option follows `v` |
| IvyCodeMirror.LintToggleKeepsMarker | addon/components/ivy-codemirror.js:41-63 | as written, `set('lint', true)` then `set('lint', false)` leaves the gutters option as the marker followed by the gutters, not the gutters alone, while the `lint` option is false |
| IvyCodeMirror.LintOnPutsMarker | addon/components/ivy-codemirror.js:41-51 | as written, switching `lint` on puts the marker in front of the gutters option only; the `gutters` property and the observers stay |
| IvyCodeMirror.LintOffLeavesOption | addon/components/ivy-codemirror.js:41-62 | as written, switching `lint` off when the property holds no marker leaves the gutters option and property as they were, and sets the `lint` option false |
| IvyCodeMirror.LintMarkerSurvivesAsWritten | addon/components/ivy-codemirror.js:48-61 | the updater-level form of LintToggleKeepsMarker: as written, running the lint updater on then off leaves the lint marker in the gutters option |
| IvyCodeMirror.LintMarkerRemoved | addon/components/ivy-codemirror.js:45-63 | the updater-level form of LintToggleRestores: with the corrected updater, on then off leaves the gutters option without the marker |
| IvyCodeMirror.SpliceResultAsWritten | addon/components/ivy-codemirror.js:59-60 | as written, disabling lint sets the gutters option to just the marker and strips it from the property |
| IvyCodeMirror.SpliceResultIntended | addon/components/ivy-codemirror.js:52-62 | with the corrected update, disabling lint sets the option to the other gutters and leaves the property alone |
| IvyCodeMirror.RunTeardownsClears | addon/components/ivy-codemirror.js:142-175 | running teardowns that match the registrations removes every observer and listener and nothing else |
| IvyCodeMirror.RunTeardowns | addon/components/ivy-codemirror.js:147-174 | running teardowns changes only observers and widget listeners |
| IvyCodeMirror.RunTeardownsRemoves | addon/components/ivy-codemirror.js:147-174 | each teardown removes one copy of what it names: afterwards the observers and listeners are the old ones minus those named, as multisets |
| IvyCodeMirror.TeardownStep | addon/components/ivy-codemirror.js:147-174 | one observer teardown removes one copy of its observer and leaves the listeners; one listener teardown does the converse |
| IvyCodeMirror.WillDestroyElement | addon/components/ivy-codemirror.js:147-174 | `willDestroyElement` changes only the observers and listeners, removes exactly one copy of each one a teardown names, and leaves none when every binding has its teardown |
| IvyCodeMirror.DestroyClears | addon/components/ivy-codemirror.js:142-175 | destroying a paired editor leaves no observer and no listener, and changes nothing else |
| IvyCodeMirror.DestroyedIsDetached | addon/components/ivy-codemirror.js:41-175 | after destruction, a `set` other than `lint`, `width` or `height` does not reach the widget and a user edit no longer reaches the component; the size observer still resizes it |
| IvyCodeMirror.Detached | addon/components/ivy-codemirror.js:41-211 | with no observer and no listener, a `set` other than `lint`, `width` or `height` leaves the widget alone, a user edit leaves the component alone, and `width` still resizes |
| IvyCodeMirror.NotifyGuttersRefresh | addon/components/ivy-codemirror.js:80-82 | the observers of `gutters` refresh the widget once when the `refresh` observer is among them, and change nothing otherwise |
| IvyCodeMirror.SetGuttersRefreshes | addon/components/ivy-codemirror.js:123 | setting `gutters` to a new value stores it and, with the `refresh` observer bound, is followed by exactly one `refresh()` |
| IvyCodeMirror.InitObserversRefreshFrom | addon/components/ivy-codemirror.js:100-124 | the observers registered at insertion bind `gutters` exactly once, to `refresh` |
| IvyCodeMirror.SetGuttersWithInitObservers | addon/components/ivy-codemirror.js:84-124 | an editor holding the observers set up at insertion answers a new `gutters` value with exactly one `refresh()` and no option change, and stores the value |
| IvyCodeMirror.InitThenDestroy | addon/components/ivy-codemirror.js:84-175 | initialising and then destroying leaves no observer and no listener behind |
| IvyMergeCodeMirror.LeftSeed | addon/components/ivy-merge-codemirror.js:23 | a left pane is created iff `leftValue` is truthy or `panels` is 3; its seed is `leftValue` when it is a string and `''` otherwise |
| IvyMergeCodeMirror.CreateMerge | addon/components/ivy-merge-codemirror.js:20-36 | the middle pane holds `value \|\| ''` and the three seeds as options; the right pane holds `rightValue \|\| ''`; the left pane exists exactly as the seed says |
| IvyMergeCodeMirror.CopyOptions | addon/components/ivy-merge-codemirror.js:47-55 | every middle option except the four skipped ones is copied to the target; everything else stays |
| IvyMergeCodeMirror.FanOut | addon/components/ivy-merge-codemirror.js:37-56 | both original panes receive the middle pane's options except `value`, `origLeft`, `origRight` and `readOnly`; buffers and listeners stay |
| IvyMergeCodeMirror.MergeBindOptions | addon/components/ivy-merge-codemirror.js:37-56 | the base `_bindOptions` runs on the middle pane first; the fan-out is stated by FansOutFrom |
| IvyMergeCodeMirror.MergeBindOptionsFrom | addon/components/ivy-merge-codemirror.js:37-56 | for any key list: the middle pane is bound as in the base, each original pane agrees with it on every carried option except the four skipped ones, which keep their values, and the right pane's buffer and listeners stay |
| IvyMergeCodeMirror.FansOutFrom | addon/components/ivy-merge-codemirror.js:47-55 | after the merge `_bindOptions` the panes are kept and the originals agree with the middle pane on every carried option except `value`, `origLeft`, `origRight` and `readOnly`, which keep their values |
| IvyMergeCodeMirror.LeftValueDidChange | addon/components/ivy-merge-codemirror.js:66-73 | without a left pane nothing happens; otherwise the guarded value write is applied to the left pane only |
| IvyMergeCodeMirror.RightValueDidChange | addon/components/ivy-merge-codemirror.js:74-81 | the guarded value write is applied to the right pane only |
| IvyMergeCodeMirror.MergeBindProperties | addon/components/ivy-merge-codemirror.js:57-64 | the inherited bindings, properties, widget and actions come first, then `leftValue` and `rightValue` observers with teardowns; both original panes are synced to their properties, keeping their options and listeners |
| IvyMergeCodeMirror.MergeUpdateSize | addon/components/ivy-merge-codemirror.js:83-103 | every existing pane is resized to width and height, and the right pane gains one more gap listener |
| IvyMergeCodeMirror.MergeTriggerUpdates | addon/components/ivy-merge-codemirror.js:83-103 | the inherited trigger (with the as-written lint update) also adds a gap listener to the right pane, leaving the pane contents alone; no property other than `gutters` changes |
| IvyMergeCodeMirror.MergeCreated | addon/components/ivy-merge-codemirror.js:20-36 | creation plus event binding adds the two edit-listener teardowns and nothing else to the component |
| IvyMergeCodeMirror.MergeStages | addon/components/ivy-merge-codemirror.js:37-103 | after options, properties and updates the left pane exists exactly as before, each original pane holds its property or `''`, and the right pane gained one gap listener |
| IvyMergeCodeMirror.MergeInit | addon/components/ivy-merge-codemirror.js:20-103 | after insertion there is a left pane exactly when `leftValue` is truthy or `panels` is 3, each original holds its property or `''`, and the right pane has exactly one gap listener |
| IvyMergeCodeMirror.CreatedStages | addon/components/ivy-merge-codemirror.js:20-103 | the same, for any list of option keys |
| IvyMergeCodeMirror.MergeDispatch | addon/components/ivy-merge-codemirror.js:60-81 | the left and right handlers touch only their own pane; the others touch only the middle pane, and only the value observer changes the component |
| IvyMergeCodeMirror.MergeNotify | addon/components/ivy-merge-codemirror.js:60-81 | an original pane changes only when its own value observer is bound to the key; without a value observer the component is unchanged; an unobserved key changes nothing |
| IvyMergeCodeMirror.MergeSet | addon/components/ivy-merge-codemirror.js:5 | `set` stores the property and keeps every other one except `value` (and `gutters` when `lint` is set); setting the current value is a no-op; registrations stay |
| IvyMergeCodeMirror.MergeWillDestroy | addon/components/ivy-merge-codemirror.js:5 | the inherited teardown leaves the original panes untouched |
| IvyMergeCodeMirror.MergeNotifyOption | addon/components/ivy-merge-codemirror.js:37-56 | when only option observers watch a key, notifying it sets the middle option to the property |
| IvyMergeCodeMirror.OptionChangeStaysInMiddle | addon/components/ivy-merge-codemirror.js:37-56 | after initialisation a changed option reaches only the middle pane; the original panes keep the option from bind time |
| IvyMergeCodeMirror.SyncSettles | addon/components/ivy-merge-codemirror.js:70-71 | a second sync of the same value is a no-op iff the value is a string; a `null` keeps writing `''` |
| IvyMergeCodeMirror.RightSyncSettles | addon/components/ivy-merge-codemirror.js:74-81 | `_rightValueDidChange` is idempotent iff `rightValue` is a string |
| IvyMergeCodeMirror.LeftSyncSettles | addon/components/ivy-merge-codemirror.js:66-73 | with a left pane, `_leftValueDidChange` is idempotent iff `leftValue` is a string |
| IvyMergeCodeMirror.GapListenersAccumulate | addon/components/ivy-merge-codemirror.js:93-99 | n resizes leave n more gap listeners on the right pane, none of them ever removed, and the middle pane's listeners unchanged |
| IvyMergeCodeMirror.CreatedProps | addon/components/ivy-merge-codemirror.js:20-36 | creating the panes changes no component property; the pane handles are fields of the merge state |
| IvyMergeCodeMirror.MergeInitLeftPane | addon/components/ivy-merge-codemirror.js:20-27 | a truthy `leftValue` or three panels give a left pane after initialisation |
| IvyMergeCodeMirror.MergeInitNoLeftPane | addon/components/ivy-merge-codemirror.js:20-27 | otherwise there is no left pane |
| IvyMergeCodeMirror.MergeDefaultsPanes | addon/components/ivy-merge-codemirror.js:6-10 | the declared defaults are `leftValue` `null` and two panels |
| IvyMergeCodeMirror.MergeDefaultsNoLeftPane | addon/components/ivy-merge-codemirror.js:6-36 | so with the declared defaults there is no left pane |
| IvyMergeCodeMirror.MergeInitLeftBuffer | addon/components/ivy-merge-codemirror.js:57-73 | after initialisation a left pane holds `leftValue \|\| ''` |
| IvyMergeCodeMirror.MergeInitRightBuffer | addon/components/ivy-merge-codemirror.js:57-81 | after initialisation the right pane holds `rightValue \|\| ''` |
| IvyMergeCodeMirror.MergeInitGapListener | addon/components/ivy-merge-codemirror.js:93-99 | after initialisation the right pane has exactly one gap listener |
| IvyMergeCodeMirror.StagesPanes | addon/components/ivy-merge-codemirror.js:37-103 | the binding stages keep the left pane's existence, sync both original buffers and add one gap listener |
| IvyMergeCodeMirror.MergeInitFansOutRight | addon/components/ivy-merge-codemirror.js:47-55 | after initialisation every mirrored option except `readOnly` on the right pane equals its property |
| IvyMergeCodeMirror.MergeInitFansOutLeft | addon/components/ivy-merge-codemirror.js:47-55 | the same on the left pane, when it exists |
| IvyMergeCodeMirror.MergeInitKeepsSkipped | addon/components/ivy-merge-codemirror.js:49 | `readOnly`, `value`, `origLeft` and `origRight` on the right pane keep their creation-time values |
| IvyMergeCodeMirror.StagesFanOut | addon/components/ivy-merge-codemirror.js:37-56 | after the stages the original panes hold the bound properties for every fanned-out key, and the skipped keys are untouched |
| IvyMergeCodeMirror.MergeInitPaired | addon/components/ivy-merge-codemirror.js:57-64 | after initialisation, including the two extra observers, every middle-pane binding has exactly one teardown |
| IvyMergeCodeMirror.StagesPaired | addon/components/ivy-merge-codemirror.js:37-103 | the merge binding stages keep the middle pane paired |
| IvyMergeCodeMirror.MergeInitThenDestroy | addon/components/ivy-merge-codemirror.js:93-99 | destroying an initialised merge view removes every observer and middle-pane listener, but the gap listener on the right pane stays |

## Left out

- The CodeMirror library itself is not modelled. Rendering, the document model, keymaps and the merge diff are out of scope. The widget is a buffer, an option map, a listener list and a call log.
- A user edit is one `UserEdit` step that fires `beforeChange` and `change`. The events that `setValue` raises are fired synchronously through the same listeners.
- IvyCodeMirror.Set: for arbitrary observers and listeners the contract states what stays and the option and buffer results, not the exact actions sent. The exact echo is stated for the component's own bindings (SetValueReachesBuffer).
- IvyCodeMirror.Notify: for arbitrary observers and listeners the contract states what stays and the option and buffer results, not the exact actions sent. The exact echo is stated for the component's own bindings (NotifyValueEcho).
- IvyCodeMirror.Dispatch: for arbitrary observers and listeners the contract states what stays and the option and buffer results, not the exact actions sent. The exact echo is stated for the component's own bindings (ValueDidChangeEcho).
- IvyCodeMirror.BindProperties: for arbitrary observers and listeners the contract states what stays and the option and buffer results, not the exact actions sent. The exact echo is stated for the component's own bindings (BindPropertiesEcho).
- Ember's run loop is not modelled. `Ember.run.debounce` (250 ms) of `lintChanged` and `sizeChanged` is a direct call, so several changes within the delay are not coalesced. `Ember.run.bind` is a direct call too.
- Ember's observer bookkeeping is not modelled. The observers are a list, run in registration order and without de-duplication. `removeObserver` removes the first matching entry.
- `sendAction`, `targetObject` and `becameVisible` are log entries. The action is recorded with its name and value, and `becameVisible` is a hook that is never fired.
- The DOM work of the gap listener is not modelled. It measures the pane heights and sets the gap height. The listener is a name on the right pane's listener list.
- `requirejs.clear` (standalone/dist/ivy-codemirror-0.1.1.js:106-110) and the bundle glue after line 111 are not modelled. They are bundle setup, not loader behaviour.
- Loader.Require: `fuel` stands for the JavaScript call stack, so a load nested deeper than `fuel` fails with `StackOverflow` without changing anything.
- Loader.Require: name lookups on plain objects (`registry`, `seen`, `state`) are maps, so names such as `__proto__` or `constructor` are not special.
- Loader.Require: factories do not call `require` themselves. A factory is a pure function of its reified dependencies.
- Identity is structural. Two editors, listeners or placeholders are the same exactly when they are equal values, so a JavaScript callback identity becomes a (event, handler) pair.
- IvyCodeMirror.DisableLintAsWritten: the `splice` at ivy-codemirror.js:59 mutates the array object that the `gutters` property holds. Any other holder of that array, such as the parent property bound to `gutters`, loses the marker too, and no observer fires for it. The model replaces only this component's `gutters` property and has no shared arrays, so that loss is not modelled.
- IvyCodeMirror.Gutters: a non-array `gutters` property is read as the empty list. In the source the enable branch's `concat` would keep it as one element (`[marker, null]` for `null`), and only the disable branch would throw, on `indexOf`.
- IvyCodeMirror.ValueDidChange: `value` is a string, `null` or another property value. `value \|\| ''` of a non-string truthy value is modelled as `''`, not as the value itself.
- IvyMergeCodeMirror.LeftSeed: the same reading of `\|\| ''` applies to `leftValue` (ivy-merge-codemirror.js:23), so a non-string truthy `leftValue` seeds the left pane with `''`.
- IvyMergeCodeMirror.CreateMerge: the same applies to `value` and `rightValue` at creation (ivy-merge-codemirror.js:22, 24).
- IvyMergeCodeMirror.LeftValueDidChange: the same applies to the left pane's sync (ivy-merge-codemirror.js:71).
- IvyMergeCodeMirror.RightValueDidChange: the same applies to the right pane's sync (ivy-merge-codemirror.js:79).
- IvyMergeCodeMirror.MergeBindOptions: its own contract states only the middle-pane binding. The fan-out to the original panes is stated for any key list by MergeBindOptionsFrom and FansOutFrom, and for the 21 mirrored keys after initialisation by MergeInitFansOutRight and MergeInitFansOutLeft.
- The merge options `revertButtons`, `connect`, `collapseIdentical`, `allowEditingOriginals` and `showDifferences` have defaults (ivy-merge-codemirror.js:12-16) but are never passed to the merge widget, so they have no effect in the model.
- The original panes' option sets come from the library. They are a parameter (`originals`), as are the middle pane's (`library`).
- The merge component inherits `UserEdit`, `Set` on options and `willDestroyElement` unchanged. They act on the middle pane through `base`.
- Only `getValue`, `setValue`, `setOption`, `getOption`, `setSize`, `refresh`, `on` and `off` of the widget are modelled.
- Options are copied to the original panes once, at bind time. Later option changes reach only the middle pane, as OptionChangeStaysInMiddle and MergeInitKeepsSkipped state.
- IvyMergeCodeMirror.CreatedProps: the source stores the panes in the properties `mergeCodeMirror`, `leftOriginal`, `rightOriginal` and `codeMirror` (ivy-merge-codemirror.js:31-35). In the model they are the fields of the merge state, so these four properties do not exist.

## Findings

| source | as written | input that shows it | evidently intended | confidence | as-written member | corrected member |
|---|---|---|---|---|---|---|
| addon/components/ivy-codemirror.js:52-61 | enabling lint puts the marker only into the widget option, but disabling looks for it in the `gutters` property | `gutters` = `["breakpoints"]`, `lint` true then false: the option keeps `["CodeMirror-lint-markers","breakpoints"]` | disabling lint removes the marker from the gutters shown | not executed | IvyCodeMirror.LintToggleKeepsMarker | IvyCodeMirror.LintToggleRestores |
| addon/components/ivy-codemirror.js:59-60 | `splice` returns the removed items, so the option becomes the marker alone, and the property loses the marker in place | `gutters` = `["CodeMirror-lint-markers","breakpoints"]`, `lint` false: the option becomes `["CodeMirror-lint-markers"]` | the option becomes the remaining gutters, `["breakpoints"]` | not executed | IvyCodeMirror.SpliceResultAsWritten | IvyCodeMirror.SpliceResultIntended |
