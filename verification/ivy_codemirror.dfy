/**
 * The editor component: it keeps its properties and one editor widget in
 * step. Every handler of the component is a pure transition on an `Editor`,
 * the pair of the component's state and the widget's state.
 *
 * Property observers and widget listeners are dispatched by the name of the
 * component method they run, as the framework does. Debounced updaters are
 * called directly: only the latest request takes effect, which is what the
 * debounce guarantees once it settles.
 */
module IvyCodeMirror {
  import opened CodeMirror
  import opened IvyOptions

  const LintMarker := "CodeMirror-lint-markers"

  /** The widget listeners the component registers, in order. */
  const EditListeners: seq<Listener> := [Listener("beforeChange", "_beforeUpdateValue"), Listener("change", "_updateValue")]

  /** Component method names that observers and listeners run. */
  const OnOption := "_optionDidChange"
  const OnRefresh := "refresh"
  const OnValue := "_valueDidChange"
  const OnBeforeChange := "_beforeUpdateValue"
  const OnChange := "_updateValue"

  /** `addObserver(key, this, handler)`. */
  datatype Binding = Binding(key: string, handler: string)

  /** What a `willDestroyElement` hook undoes. */
  datatype Teardown = RemoveObserver(binding: Binding) | OffWidget(listener: Listener)

  /** Hooks registered with `this.on(...)`. */
  datatype Hook = WillDestroy(teardown: Teardown) | BecameVisible

  /** `targetObject.sendAction(name, targetObject, text)`. */
  datatype Action = Action(name: string, text: string)

  datatype Component = Component(
    props: map<string, Val>,
    observers: seq<Binding>,
    hooks: seq<Hook>,
    sent: seq<Action>)

  datatype Editor = Editor(comp: Component, cm: Widget)

  /** A component before it is inserted: properties only, nothing bound. */
  function NewComponent(props: map<string, Val>): Component {
    Component(props, [], [], [])
  }

  /** `this.get(key)`. */
  function Get(c: Component, key: string): Val {
    if key in c.props then c.props[key] else Undefined
  }

  /** The `gutters` property as a list of gutter class names. */
  function Gutters(c: Component): seq<string> {
    match Get(c, "gutters")
    case List(items) => items
    case _ => []
  }

  // ---------------------------------------------------------------------------
  // Handlers
  // ---------------------------------------------------------------------------

  /**
   * The guarded buffer write: write `value`, or `''` for a non-string,
   * unless the buffer already holds that very string. The merge component's
   * original panes use it as it is; they carry no listener of the
   * component's, so nothing answers their write.
   */
  function SyncBuffer(w: Widget, value: Val): (w': Widget)
    ensures w'.buffer == OrEmpty(value)
    ensures value == Str(w.buffer) <==> w' == w
    ensures value != Str(w.buffer) ==> w'.calls == w.calls + [ValueWritten(OrEmpty(value))]
    ensures w'.options == w.options && w'.listeners == w.listeners
  {
    if value != Str(w.buffer) then SetValue(w, OrEmpty(value)) else w
  }

  /** 1 when `_valueDidChange` would write the buffer, 0 when the buffer already holds `value` as a string. */
  function SyncPending(e: Editor): nat {
    if Get(e.comp, "value") == Str(e.cm.buffer) then 0 else 1
  }

  /** The editor with the property `key` replaced by `v`, before any observer has run. */
  function WithProp(e: Editor, key: string, v: Val): Editor {
    e.(comp := e.comp.(props := e.comp.props[key := v]))
  }

  /** Neither the component's observers and hooks nor the widget's listeners changed. */
  predicate SameBindings(e: Editor, e': Editor) {
    && e'.comp.observers == e.comp.observers
    && e'.comp.hooks == e.comp.hooks
    && e'.cm.listeners == e.cm.listeners
  }

  /** The widget's call log and the actions sent have only grown. */
  predicate Appended(e: Editor, e': Editor) {
    e.cm.calls <= e'.cm.calls && e.comp.sent <= e'.comp.sent
  }

  /** `_optionDidChange(sender, key)`: copy the property into the widget option of the same name. */
  function OptionDidChange(e: Editor, key: string): (e': Editor)
    ensures e'.comp == e.comp
    ensures GetOption(e'.cm, key) == Get(e.comp, key)
    ensures forall k :: k != key ==> GetOption(e'.cm, k) == GetOption(e.cm, k)
    ensures key in e'.cm.options && forall k :: k in e.cm.options ==> k in e'.cm.options
    ensures e'.cm.buffer == e.cm.buffer && e'.cm.calls == e.cm.calls && e'.cm.listeners == e.cm.listeners
  {
    e.(cm := SetOption(e.cm, key, Get(e.comp, key)))
  }

  /** `refresh`. */
  function RefreshEditor(e: Editor): (e': Editor)
    ensures e'.comp == e.comp
    ensures e'.cm.calls == e.cm.calls + [Refreshed]
    ensures e'.cm.buffer == e.cm.buffer && e'.cm.options == e.cm.options && e'.cm.listeners == e.cm.listeners
  {
    e.(cm := Refresh(e.cm))
  }

  /** `updateSize`: hand `width` and `height` to the widget as they are. */
  function UpdateSize(e: Editor): (e': Editor)
    ensures e'.comp == e.comp
    ensures e'.cm.calls == e.cm.calls + [Resized(Get(e.comp, "width"), Get(e.comp, "height"))]
    ensures e'.cm.buffer == e.cm.buffer && e'.cm.options == e.cm.options && e'.cm.listeners == e.cm.listeners
  {
    e.(cm := SetSize(e.cm, Get(e.comp, "width"), Get(e.comp, "height")))
  }

  /** `g` with every occurrence of `x` dropped, the rest in order. */
  function Without(g: seq<string>, x: string): (r: seq<string>)
    ensures x !in r
    ensures forall y :: y != x ==> (y in r <==> y in g)
    ensures x !in g ==> r == g
    ensures |r| <= |g|
    decreases |g|
  {
    if |g| == 0 then []
    else
      assert g == [g[0]] + g[1..];
      (if g[0] == x then [] else [g[0]]) + Without(g[1..], x)
  }

  /** `Without` drops every copy of `x` and keeps every other element as often as it occurs. */
  lemma {:induction false} WithoutCount(g: seq<string>, x: string)
    ensures multiset(Without(g, x)) == multiset(g)[x := 0]
    decreases |g|
  {
    if |g| > 0 {
      var h := if g[0] == x then [] else [g[0]];
      WithoutCount(g[1..], x);
      assert Without(g, x) == h + Without(g[1..], x);
      assert g == [g[0]] + g[1..];
      assert multiset(g) == multiset{g[0]} + multiset(g[1..]);
      ZeroAfterAdd(g[0], multiset(g[1..]), x);
      assert multiset(h) == if g[0] == x then multiset{} else multiset{g[0]};
    }
  }

  lemma ZeroAfterAdd<T>(y: T, m: multiset<T>, x: T)
    ensures (multiset{y} + m)[x := 0] == (if y == x then multiset{} else multiset{y}) + m[x := 0]
  {
  }

  /** Dropping `x` from a concatenation drops it from each part. */
  lemma {:induction false} WithoutAppend(a: seq<string>, b: seq<string>, x: string)
    ensures Without(a + b, x) == Without(a, x) + Without(b, x)
    decreases |a|
  {
    if |a| == 0 {
      assert a + b == b;
    } else {
      WithoutAppend(a[1..], b, x);
      WithoutStep(a, b, x);
      WithoutStep(a, [], x);
      assert a + [] == a && a[1..] + [] == a[1..];
      ConcatAssoc(if a[0] == x then [] else [a[0]], Without(a[1..], x), Without(b, x));
    }
  }

  lemma ConcatAssoc<T>(h: seq<T>, p: seq<T>, q: seq<T>)
    ensures h + (p + q) == (h + p) + q
  {
  }

  lemma WithoutStep(a: seq<string>, b: seq<string>, x: string)
    requires |a| > 0
    ensures Without(a + b, x) == (if a[0] == x then [] else [a[0]]) + Without(a[1..] + b, x)
  {
    var ab := a + b;
    assert ab[0] == a[0];
    assert ab[1..] == a[1..] + b;
  }

  /**
   * `updateLintGutter` as it is meant to work, the corrected half of the
   * first finding. Enabling puts the marker in front of the `gutters`
   * property in the widget option; disabling takes it out again, so the
   * option shows the property without the marker. The property itself is
   * never changed.
   */
  function UpdateLintGutter(e: Editor): (e': Editor)
    ensures e'.comp == e.comp
    ensures Truthy(Get(e.comp, "lint")) ==>
      && GetOption(e'.cm, "gutters") == List([LintMarker] + Gutters(e.comp))
      && GetOption(e'.cm, "lint") == Bool(true)
    ensures !Truthy(Get(e.comp, "lint")) ==>
      && GetOption(e'.cm, "gutters") == List(Without(Gutters(e.comp), LintMarker))
      && GetOption(e'.cm, "lint") == Bool(false)
    ensures forall k :: k != "gutters" && k != "lint" ==> GetOption(e'.cm, k) == GetOption(e.cm, k)
    ensures e'.cm.buffer == e.cm.buffer && e'.cm.calls == e.cm.calls && e'.cm.listeners == e.cm.listeners
  {
    if Truthy(Get(e.comp, "lint")) then EnableLint(e) else DisableLint(e)
  }

  /** The enabled branch of `updateLintGutter`, the same as written and as intended. */
  function EnableLint(e: Editor): (e': Editor)
    ensures GetOption(e'.cm, "gutters") == List([LintMarker] + Gutters(e.comp))
    ensures GetOption(e'.cm, "lint") == Bool(true)
    ensures e'.comp == e.comp
    ensures forall k :: k != "gutters" && k != "lint" ==> GetOption(e'.cm, k) == GetOption(e.cm, k)
    ensures e'.cm.buffer == e.cm.buffer && e'.cm.calls == e.cm.calls && e'.cm.listeners == e.cm.listeners
  {
    var cm1 := SetOption(e.cm, "gutters", List([LintMarker] + Gutters(e.comp)));
    e.(cm := SetOption(cm1, "lint", Bool(true)))
  }

  /** The disabled branch of `updateLintGutter` as intended (corrected). */
  function DisableLint(e: Editor): (e': Editor)
    ensures GetOption(e'.cm, "lint") == Bool(false)
    ensures GetOption(e'.cm, "gutters") == List(Without(Gutters(e.comp), LintMarker))
    ensures e'.comp == e.comp
    ensures forall k :: k != "gutters" && k != "lint" ==> GetOption(e'.cm, k) == GetOption(e.cm, k)
    ensures e'.cm.buffer == e.cm.buffer && e'.cm.calls == e.cm.calls && e'.cm.listeners == e.cm.listeners
  {
    var cm1 := SetOption(e.cm, "lint", Bool(false));
    e.(cm := SetOption(cm1, "gutters", List(Without(Gutters(e.comp), LintMarker))))
  }

  /**
   * `updateLintGutter` as written, the one the component runs. Enabling is
   * as above. Disabling looks for the marker in the property, not in the
   * option: when found, the property loses it in place and the option is
   * set to what `splice` returns, the removed marker alone; when not found,
   * the option is left as it is.
   */
  function UpdateLintGutterAsWritten(e: Editor): (e': Editor)
    ensures GetOption(e'.cm, "lint") == Bool(Truthy(Get(e.comp, "lint")))
    ensures Truthy(Get(e.comp, "lint")) ==>
      && GetOption(e'.cm, "gutters") == List([LintMarker] + Gutters(e.comp))
      && e'.comp == e.comp
    ensures !Truthy(Get(e.comp, "lint")) && LintMarker !in Gutters(e.comp) ==>
      && GetOption(e'.cm, "gutters") == GetOption(e.cm, "gutters")
      && e'.comp == e.comp
    ensures !Truthy(Get(e.comp, "lint")) && LintMarker in Gutters(e.comp) ==>
      GetOption(e'.cm, "gutters") == List([LintMarker])
    ensures forall k :: k != "gutters" ==> Get(e'.comp, k) == Get(e.comp, k)
    ensures e'.comp.observers == e.comp.observers && e'.comp.hooks == e.comp.hooks && e'.comp.sent == e.comp.sent
    ensures forall k :: k != "gutters" && k != "lint" ==> GetOption(e'.cm, k) == GetOption(e.cm, k)
    ensures e'.cm.buffer == e.cm.buffer && e'.cm.calls == e.cm.calls && e'.cm.listeners == e.cm.listeners
  {
    if Truthy(Get(e.comp, "lint")) then EnableLint(e) else DisableLintAsWritten(e)
  }

  /** The disabled branch of `updateLintGutter` as written. */
  function DisableLintAsWritten(e: Editor): (e': Editor)
    ensures GetOption(e'.cm, "lint") == Bool(false)
    ensures LintMarker !in Gutters(e.comp) ==>
      && GetOption(e'.cm, "gutters") == GetOption(e.cm, "gutters")
      && e'.comp == e.comp
    ensures LintMarker in Gutters(e.comp) ==>
      var g := Gutters(e.comp);
      var i := IndexOf(g, LintMarker);
      && GetOption(e'.cm, "gutters") == List([LintMarker])
      && e'.comp == e.comp.(props := e.comp.props["gutters" := List(g[..i] + g[i + 1..])])
    ensures forall k :: k != "gutters" && k != "lint" ==> GetOption(e'.cm, k) == GetOption(e.cm, k)
    ensures e'.cm.buffer == e.cm.buffer && e'.cm.calls == e.cm.calls && e'.cm.listeners == e.cm.listeners
  {
    var c := e.comp;
    var g := Gutters(c);
    var i := IndexOf(g, LintMarker);
    var cm1 := SetOption(e.cm, "lint", Bool(false));
    if i >= 0 then
      // `splice` removes the marker in place (no observer fires) and returns it
      var kept := g[..i] + g[i + 1..];
      var removed := [g[i]];
      e.(comp := c.(props := c.props["gutters" := List(kept)]),
         cm := SetOption(cm1, "gutters", List(removed)))
    else e.(cm := cm1)
  }

  // The handlers below call each other: writing the buffer makes the widget
  // emit `beforeChange` and `change` synchronously, whose listener sets
  // `value`, whose observers may write the buffer again. The recursion ends
  // because that last write is skipped: `value` then holds the buffer, so
  // `SyncPending` is 0. Every measure is (pending, rank, length).

  /**
   * `_valueDidChange`: unless the buffer already holds `value`, write it (or
   * `''` for a non-string) with `setValue`. The widget emits `beforeChange`
   * before the write and `change` after it, and the listeners registered
   * for them run before this handler returns (see `ValueDidChangeEcho`).
   */
  function ValueDidChange(e: Editor): (e': Editor)
    ensures SameBindings(e, e') && Appended(e, e')
    ensures SyncPending(e) == 0 ==> e' == e
    ensures SyncPending(e) == 1 ==> ValueWritten(OrEmpty(Get(e.comp, "value"))) in e'.cm.calls[|e.cm.calls|..]
    ensures e'.cm.buffer == OrEmpty(Get(e.comp, "value"))
    ensures forall k :: k != "value" ==> Get(e'.comp, k) == Get(e.comp, k) && GetOption(e'.cm, k) == GetOption(e.cm, k)
    decreases SyncPending(e), 6, 0
  {
    if SyncPending(e) == 0 then e
    else
      var text := OrEmpty(Get(e.comp, "value"));
      var e1 := Emit(e, "beforeChange", e.cm.listeners);
      var e2 := e1.(cm := SetValue(e1.cm, text));
      var e3 := Emit(e2, "change", e2.cm.listeners);
      assert e3.cm.calls[|e1.cm.calls|] == ValueWritten(text);
      e3
  }

  /** Runs the observer method `handler` for a change of `key`. */
  function Dispatch(e: Editor, handler: string, key: string): (e': Editor)
    ensures SameBindings(e, e') && Appended(e, e')
    ensures handler != OnValue || SyncPending(e) == 0 ==> e'.comp == e.comp && e'.cm.buffer == e.cm.buffer
    ensures handler == OnValue ==> e'.cm.buffer == OrEmpty(Get(e.comp, "value"))
    ensures handler == OnOption ==> GetOption(e'.cm, key) == Get(e.comp, key)
    ensures forall k :: k != "value" ==> Get(e'.comp, k) == Get(e.comp, k)
    ensures forall k :: k != key && k != "value" ==> GetOption(e'.cm, k) == GetOption(e.cm, k)
    ensures handler != OnOption ==> forall k :: k != "value" ==> GetOption(e'.cm, k) == GetOption(e.cm, k)
    decreases SyncPending(e), 7, 0
  {
    if handler == OnOption then OptionDidChange(e, key)
    else if handler == OnRefresh then RefreshEditor(e)
    else if handler == OnValue then ValueDidChange(e)
    else e
  }

  /** Runs, in registration order, every observer in `obs` bound to `key`. */
  function Notify(e: Editor, key: string, obs: seq<Binding>): (e': Editor)
    ensures SameBindings(e, e') && Appended(e, e')
    ensures SyncPending(e) == 0 ==> e'.comp == e.comp && e'.cm.buffer == e.cm.buffer
    ensures forall k :: k != "value" ==> Get(e'.comp, k) == Get(e.comp, k)
    ensures forall k :: k != key && k != "value" ==> GetOption(e'.cm, k) == GetOption(e.cm, k)
    ensures key != "value" && Binding(key, OnOption) in obs ==> GetOption(e'.cm, key) == Get(e.comp, key)
    ensures key != "value" && GetOption(e.cm, key) == Get(e.comp, key) ==> GetOption(e'.cm, key) == Get(e.comp, key)
    ensures (forall b :: b in obs ==> b.key != key) ==> e' == e
    decreases SyncPending(e), 8, |obs|
  {
    if |obs| == 0 then e
    else
      var e1 := if obs[0].key == key then Dispatch(e, obs[0].handler, key) else e;
      Notify(e1, key, obs[1..])
  }

  /**
   * `this.set(key, v)`: nothing happens when the value is unchanged; otherwise
   * the bound observers run, then the class-level observers of `lint` (the
   * updater as written) and of `width`/`height` run their (debounced)
   * updaters. Besides `key`, only `value` (through the echo of a buffer
   * write) and, for `lint`, the `gutters` property and option can change.
   */
  function Set(e: Editor, key: string, v: Val): (e': Editor)
    ensures SameBindings(e, e') && Appended(e, e')
    ensures Get(e.comp, key) == v ==> e' == e
    ensures key != "value" ==> Get(e'.comp, key) == v
    ensures key != "value" && key != "lint" && Get(e.comp, key) != v && Binding(key, OnOption) in e.comp.observers ==>
      GetOption(e'.cm, key) == v
    ensures forall k :: k != key && k != "value" && (key != "lint" || k != "gutters") ==>
      Get(e'.comp, k) == Get(e.comp, k) && GetOption(e'.cm, k) == GetOption(e.cm, k)
    ensures key != "lint" && Get(e.comp, key) != v && SyncPending(WithProp(e, key, v)) == 0 ==>
      e'.comp == WithProp(e, key, v).comp && e'.cm.buffer == e.cm.buffer
    decreases SyncPending(WithProp(e, key, v)), 9, 0
  {
    if Get(e.comp, key) == v then e
    else
      var e1 := WithProp(e, key, v);
      var e2 := Notify(e1, key, e1.comp.observers);
      if key == "lint" then UpdateLintGutterAsWritten(e2)
      else if key == "width" || key == "height" then UpdateSize(e2)
      else e2
  }

  /** `_updateValue`, the widget's `change` handler: `value` takes the buffer, then `valueDidChange` is sent with it. */
  function UpdateValue(e: Editor): (e': Editor)
    ensures SameBindings(e, e') && Appended(e, e')
    ensures Get(e'.comp, "value") == Str(e.cm.buffer)
    ensures e'.comp.sent == e.comp.sent + [Action("valueDidChange", e.cm.buffer)]
    ensures e'.cm.buffer == e.cm.buffer
    ensures forall k :: k != "value" ==> Get(e'.comp, k) == Get(e.comp, k) && GetOption(e'.cm, k) == GetOption(e.cm, k)
    decreases 1, 3, 0
  {
    var text := e.cm.buffer;
    var e1 := Set(e, "value", Str(text));
    e1.(comp := e1.comp.(sent := e1.comp.sent + [Action("valueDidChange", text)]))
  }

  /** `_beforeUpdateValue`, the widget's `beforeChange` handler: `valueWillChange` is sent with the buffer before the edit. */
  function BeforeUpdateValue(e: Editor): (e': Editor)
    ensures e'.comp == e.comp.(sent := e.comp.sent + [Action("valueWillChange", e.cm.buffer)])
    ensures e'.cm == e.cm
  {
    e.(comp := e.comp.(sent := e.comp.sent + [Action("valueWillChange", e.cm.buffer)]))
  }

  /** Runs the listener method `handler` for a widget event. */
  function DispatchEvent(e: Editor, handler: string): (e': Editor)
    ensures SameBindings(e, e') && Appended(e, e')
    ensures e'.cm.buffer == e.cm.buffer
    ensures forall k :: k != "value" ==> Get(e'.comp, k) == Get(e.comp, k) && GetOption(e'.cm, k) == GetOption(e.cm, k)
    decreases 1, 4, 0
  {
    if handler == OnBeforeChange then BeforeUpdateValue(e)
    else if handler == OnChange then UpdateValue(e)
    else e
  }

  /** The widget emits `event`: every listener in `ls` registered for it runs, in order. */
  function Emit(e: Editor, event: string, ls: seq<Listener>): (e': Editor)
    ensures SameBindings(e, e') && Appended(e, e')
    ensures e'.cm.buffer == e.cm.buffer
    ensures forall k :: k != "value" ==> Get(e'.comp, k) == Get(e.comp, k) && GetOption(e'.cm, k) == GetOption(e.cm, k)
    ensures (forall l :: l in ls ==> l.event != event) ==> e' == e
    decreases 1, 5, |ls|
  {
    if |ls| == 0 then e
    else
      var e1 := if ls[0].event == event then DispatchEvent(e, ls[0].handler) else e;
      Emit(e1, event, ls[1..])
  }

  /** The user edits the buffer to `text`: the widget emits `beforeChange`, applies the edit, then emits `change`. */
  function UserEdit(e: Editor, text: string): (e': Editor)
    ensures SameBindings(e, e')
    ensures e'.cm.buffer == text
    ensures forall k :: k != "value" ==> Get(e'.comp, k) == Get(e.comp, k) && GetOption(e'.cm, k) == GetOption(e.cm, k)
  {
    var e1 := Emit(e, "beforeChange", e.cm.listeners);
    var e2 := e1.(cm := e1.cm.(buffer := text));
    Emit(e2, "change", e2.cm.listeners)
  }

  // ---------------------------------------------------------------------------
  // Binding, insertion and teardown
  // ---------------------------------------------------------------------------

  /** `_bindCodeMirrorEvent(event, this, handler)`: listen on the widget and register the matching `off`. */
  function BindCodeMirrorEvent(e: Editor, event: string, handler: string): (e': Editor)
    ensures e'.cm.listeners == e.cm.listeners + [Listener(event, handler)]
    ensures e'.comp.hooks == e.comp.hooks + [WillDestroy(OffWidget(Listener(event, handler)))]
    ensures e'.comp.observers == e.comp.observers && e'.comp.props == e.comp.props && e'.comp.sent == e.comp.sent
    ensures e'.cm.buffer == e.cm.buffer && e'.cm.options == e.cm.options && e'.cm.calls == e.cm.calls
  {
    var l := Listener(event, handler);
    Editor(e.comp.(hooks := e.comp.hooks + [WillDestroy(OffWidget(l))]), On(e.cm, l))
  }

  /** `_bindCodeMirrorProperty(key, this, handler)`: observe `key` and register the matching `removeObserver`. */
  function BindCodeMirrorProperty(e: Editor, key: string, handler: string): (e': Editor)
    ensures e'.comp.observers == e.comp.observers + [Binding(key, handler)]
    ensures e'.comp.hooks == e.comp.hooks + [WillDestroy(RemoveObserver(Binding(key, handler)))]
    ensures e'.comp.props == e.comp.props && e'.comp.sent == e.comp.sent && e'.cm == e.cm
  {
    var b := Binding(key, handler);
    e.(comp := e.comp.(observers := e.comp.observers + [b], hooks := e.comp.hooks + [WillDestroy(RemoveObserver(b))]))
  }

  /** `_bindCodeMirrorOption(key)`: bind the option, then copy it once right away. */
  function BindCodeMirrorOption(e: Editor, key: string): (e': Editor)
    ensures e'.comp.observers == e.comp.observers + [Binding(key, OnOption)]
    ensures e'.comp.hooks == e.comp.hooks + [WillDestroy(RemoveObserver(Binding(key, OnOption)))]
    ensures e'.comp.props == e.comp.props && e'.comp.sent == e.comp.sent
    ensures GetOption(e'.cm, key) == Get(e.comp, key)
    ensures forall k :: k != key ==> GetOption(e'.cm, k) == GetOption(e.cm, k)
    ensures key in e'.cm.options && forall k :: k in e.cm.options ==> k in e'.cm.options
    ensures e'.cm.buffer == e.cm.buffer && e'.cm.calls == e.cm.calls && e'.cm.listeners == e.cm.listeners
  {
    OptionDidChange(BindCodeMirrorProperty(e, key, OnOption), key)
  }

  /** The option bindings made for `keys`, in order. */
  function OptionBindings(keys: seq<string>): (bs: seq<Binding>)
    ensures |bs| == |keys|
  {
    if |keys| == 0 then [] else [Binding(keys[0], OnOption)] + OptionBindings(keys[1..])
  }

  /** The `willDestroyElement` hooks registered for `bs`, in order. */
  function RemovalHooks(bs: seq<Binding>): (hs: seq<Hook>)
    ensures |hs| == |bs|
  {
    if |bs| == 0 then [] else [WillDestroy(RemoveObserver(bs[0]))] + RemovalHooks(bs[1..])
  }

  /** `_bindCodeMirrorOption` for each of `keys` in turn (see `BindOptionsFromRegisters`). */
  function BindOptionsFrom(e: Editor, keys: seq<string>): (e': Editor)
    ensures e'.comp.props == e.comp.props && e'.comp.sent == e.comp.sent
    ensures forall k :: k in keys ==> GetOption(e'.cm, k) == Get(e.comp, k)
    ensures forall k :: k !in keys ==> GetOption(e'.cm, k) == GetOption(e.cm, k)
    ensures e'.cm.buffer == e.cm.buffer && e'.cm.calls == e.cm.calls && e'.cm.listeners == e.cm.listeners
    decreases |keys|
  {
    if |keys| == 0 then e
    else
      var e1 := BindCodeMirrorOption(e, keys[0]);
      var e' := BindOptionsFrom(e1, keys[1..]);
      assert forall k :: k in keys ==> k == keys[0] || k in keys[1..];
      e'
  }

  /** Binding `keys` registers one option observer per key, in order, each with its teardown. */
  lemma {:induction false} BindOptionsFromRegisters(e: Editor, keys: seq<string>)
    ensures BindOptionsFrom(e, keys).comp.observers == e.comp.observers + OptionBindings(keys)
    ensures BindOptionsFrom(e, keys).comp.hooks == e.comp.hooks + RemovalHooks(OptionBindings(keys))
    decreases |keys|
  {
    if |keys| > 0 {
      var e1 := BindCodeMirrorOption(e, keys[0]);
      var e' := BindOptionsFrom(e1, keys[1..]);
      BindOptionsFromRegisters(e1, keys[1..]);
      assert BindOptionsFrom(e, keys) == e';
      var b := Binding(keys[0], OnOption);
      var bs := OptionBindings(keys[1..]);
      assert OptionBindings(keys) == [b] + bs;
      assert e'.comp.observers == e.comp.observers + OptionBindings(keys) by {
        assert e'.comp.observers == (e.comp.observers + [b]) + bs;
      }
      assert RemovalHooks([b] + bs) == [WillDestroy(RemoveObserver(b))] + RemovalHooks(bs) by {
        assert ([b] + bs)[1..] == bs;
      }
      assert e'.comp.hooks == e.comp.hooks + RemovalHooks(OptionBindings(keys)) by {
        assert e'.comp.hooks == (e.comp.hooks + [WillDestroy(RemoveObserver(b))]) + RemovalHooks(bs);
      }
    }
  }

  /** `_bindEvents`: `beforeChange` then `change`, each with its teardown. */
  function BindEvents(e: Editor): (e': Editor)
    ensures e'.cm.listeners == e.cm.listeners + EditListeners
    ensures e'.comp.hooks == e.comp.hooks +
      [WillDestroy(OffWidget(EditListeners[0])), WillDestroy(OffWidget(EditListeners[1]))]
    ensures e'.comp.observers == e.comp.observers && e'.comp.props == e.comp.props && e'.comp.sent == e.comp.sent
    ensures e'.cm.buffer == e.cm.buffer && e'.cm.options == e.cm.options && e'.cm.calls == e.cm.calls
  {
    BindCodeMirrorEvent(BindCodeMirrorEvent(e, "beforeChange", OnBeforeChange), "change", OnChange)
  }

  /** `_bindOptions`: the 21 mirrored options, each copied once right away (see `BindOptionsBinds`). */
  function BindOptions(e: Editor): (e': Editor)
    ensures e'.comp.props == e.comp.props && e'.comp.sent == e.comp.sent
    ensures Copies(e'.cm, e.comp, MirroredKeys)
    ensures e'.cm.buffer == e.cm.buffer && e'.cm.calls == e.cm.calls && e'.cm.listeners == e.cm.listeners
  {
    BindOptionsFrom(e, MirroredKeys)
  }

  /**
   * `_bindOptions` binds the mirrored options in order, each with its
   * teardown, and copies each property into the option of the same name;
   * no other option changes.
   */
  lemma BindOptionsObserves(e: Editor)
    ensures BindOptions(e).comp.observers == e.comp.observers + OptionBindings(MirroredKeys)
  {
    BindOptionsFromRegisters(e, MirroredKeys);
  }

  /** ... and registers one teardown per observer, removing exactly that observer. */
  lemma BindOptionsUnbinds(e: Editor)
    ensures BindOptions(e).comp.hooks == e.comp.hooks + RemovalHooks(OptionBindings(MirroredKeys))
  {
    BindOptionsFromRegisters(e, MirroredKeys);
  }

  /** Each mirrored option now holds the component's property; every other option is untouched. */
  lemma BindOptionsBinds(e: Editor)
    ensures var e' := BindOptions(e);
      && (forall k :: k in MirroredKeys ==> GetOption(e'.cm, k) == Get(e.comp, k) && k in e'.cm.options)
      && (forall k :: k !in MirroredKeys ==> GetOption(e'.cm, k) == GetOption(e.cm, k))
      && (forall k :: k in e.cm.options ==> k in e'.cm.options)
  {
    BindOptionsFromKeys(e, MirroredKeys);
  }

  /** Every bound option is set on the widget, and no option disappears. */
  lemma {:induction false} BindOptionsFromKeys(e: Editor, keys: seq<string>)
    ensures forall k :: k in keys || k in e.cm.options ==> k in BindOptionsFrom(e, keys).cm.options
    decreases |keys|
  {
    if |keys| > 0 {
      var e1 := BindCodeMirrorOption(e, keys[0]);
      BindOptionsFromKeys(e1, keys[1..]);
      assert BindOptionsFrom(e, keys) == BindOptionsFrom(e1, keys[1..]);
      assert forall k :: k in keys ==> k == keys[0] || k in keys[1..];
    }
  }

  /** `_bindProperties`: `gutters` refreshes, `value` is synced now and on every change. */
  function BindProperties(e: Editor): (e': Editor)
    ensures e'.comp.observers == e.comp.observers + [Binding("gutters", OnRefresh), Binding("value", OnValue)]
    ensures e'.comp.hooks == e.comp.hooks +
      [WillDestroy(RemoveObserver(Binding("gutters", OnRefresh))), WillDestroy(RemoveObserver(Binding("value", OnValue)))]
    ensures e'.cm.listeners == e.cm.listeners && Appended(e, e')
    ensures e'.cm.buffer == OrEmpty(Get(e.comp, "value"))
    ensures forall k :: k != "value" ==> Get(e'.comp, k) == Get(e.comp, k) && GetOption(e'.cm, k) == GetOption(e.cm, k)
  {
    ValueDidChange(BindCodeMirrorProperty(BindCodeMirrorProperty(e, "gutters", OnRefresh), "value", OnValue))
  }

  /**
   * `_triggerUpdates`: refresh when shown, and run both updaters once, the
   * lint updater as written: with `lint` off and no marker in the property
   * the `gutters` option keeps the library's value.
   */
  function TriggerUpdates(e: Editor): (e': Editor)
    ensures e'.comp.hooks == e.comp.hooks + [BecameVisible]
    ensures e'.comp.observers == e.comp.observers && e'.comp.sent == e.comp.sent
    ensures forall k :: k != "gutters" ==> Get(e'.comp, k) == Get(e.comp, k)
    ensures GetOption(e'.cm, "lint") == Bool(Truthy(Get(e.comp, "lint")))
    ensures Truthy(Get(e.comp, "lint")) ==>
      && GetOption(e'.cm, "gutters") == List([LintMarker] + Gutters(e.comp))
      && Get(e'.comp, "gutters") == Get(e.comp, "gutters")
    ensures !Truthy(Get(e.comp, "lint")) && LintMarker !in Gutters(e.comp) ==>
      && GetOption(e'.cm, "gutters") == GetOption(e.cm, "gutters")
      && Get(e'.comp, "gutters") == Get(e.comp, "gutters")
    ensures !Truthy(Get(e.comp, "lint")) && LintMarker in Gutters(e.comp) ==>
      GetOption(e'.cm, "gutters") == List([LintMarker])
    ensures forall k :: k != "gutters" && k != "lint" ==> GetOption(e'.cm, k) == GetOption(e.cm, k)
    ensures e'.cm.calls == e.cm.calls + [Resized(Get(e.comp, "width"), Get(e.comp, "height"))]
    ensures e'.cm.buffer == e.cm.buffer && e'.cm.listeners == e.cm.listeners
  {
    var e1 := e.(comp := e.comp.(hooks := e.comp.hooks + [BecameVisible]));
    assert Gutters(e1.comp) == Gutters(e.comp) && Get(e1.comp, "lint") == Get(e.comp, "lint");
    var e2 := UpdateLintGutterAsWritten(e1);
    assert Get(e2.comp, "width") == Get(e.comp, "width") && Get(e2.comp, "height") == Get(e.comp, "height");
    UpdateSize(e2)
  }

  /**
   * `_initCodeMirror` on `didInsertElement`: the widget is built over the
   * textarea's `text` with the library's `options`, then events, options and
   * properties are bound and the updaters run, in that order.
   */
  function InitCodeMirror(c: Component, text: string, options: map<string, Val>): (e: Editor)
    ensures e.cm.listeners == EditListeners
    ensures e.comp.observers == c.observers + InitObservers()
    ensures forall k :: k in MirroredKeys ==> GetOption(e.cm, k) == Get(c, k)
    ensures e.cm.buffer == OrEmpty(Get(c, "value"))
    ensures GetOption(e.cm, "lint") == Bool(Truthy(Get(c, "lint")))
    ensures LastCall(e.cm, Resized(Get(c, "width"), Get(c, "height")))
  {
    var e0 := Editor(c, Create(text, options));
    StagesInit(e0);
    StagesAddObservers(e0);
    TriggerUpdates(BindProperties(BindOptions(BindEvents(e0))))
  }

  /** The facts `InitCodeMirror` states, for any editor with no widget listener yet. */
  lemma StagesInit(e0: Editor)
    requires e0.cm.listeners == []
    ensures var e := TriggerUpdates(BindProperties(BindOptions(BindEvents(e0))));
      && e.cm.listeners == EditListeners
      && (forall k :: k in MirroredKeys ==> GetOption(e.cm, k) == Get(e0.comp, k))
      && e.cm.buffer == OrEmpty(Get(e0.comp, "value"))
      && GetOption(e.cm, "lint") == Bool(Truthy(Get(e0.comp, "lint")))
      && LastCall(e.cm, Resized(Get(e0.comp, "width"), Get(e0.comp, "height")))
  {
    StagesListeners(e0);
    StagesSync(e0);
    StagesCopy(e0);
  }

  /** The stages add the option bindings, then the `gutters` and `value` bindings, after any observer already there. */
  lemma StagesAddObservers(e0: Editor)
    ensures TriggerUpdates(BindProperties(BindOptions(BindEvents(e0)))).comp.observers == e0.comp.observers + InitObservers()
  {
    StagesAddObserversFrom(e0, MirroredKeys);
  }

  /** `StagesAddObservers` for any list of option keys. */
  lemma StagesAddObserversFrom(e0: Editor, keys: seq<string>)
    ensures TriggerUpdates(BindProperties(BindOptionsFrom(BindEvents(e0), keys))).comp.observers
      == e0.comp.observers + (OptionBindings(keys) + [Binding("gutters", OnRefresh), Binding("value", OnValue)])
  {
    var ob := OptionBindings(keys);
    var pb := [Binding("gutters", OnRefresh), Binding("value", OnValue)];
    BindOptionsFromRegisters(BindEvents(e0), keys);
    assert (e0.comp.observers + ob) + pb == e0.comp.observers + (ob + pb);
  }
  /** Undoes one registration. */
  function RunTeardown(e: Editor, t: Teardown): Editor {
    match t
    case RemoveObserver(b) => e.(comp := e.comp.(observers := RemoveFirst(e.comp.observers, b)))
    case OffWidget(l) => e.(cm := Off(e.cm, l))
  }

  /** The teardowns among `hooks`, in registration order. */
  function Teardowns(hooks: seq<Hook>): seq<Teardown> {
    if |hooks| == 0 then []
    else (if hooks[0].WillDestroy? then [hooks[0].teardown] else []) + Teardowns(hooks[1..])
  }

  /** The observers the teardowns `ts` remove, in order. */
  function Observed(ts: seq<Teardown>): seq<Binding> {
    if |ts| == 0 then []
    else (if ts[0].RemoveObserver? then [ts[0].binding] else []) + Observed(ts[1..])
  }

  /** The widget listeners the teardowns `ts` remove, in order. */
  function Listened(ts: seq<Teardown>): seq<Listener> {
    if |ts| == 0 then []
    else (if ts[0].OffWidget? then [ts[0].listener] else []) + Listened(ts[1..])
  }

  /** Runs the teardowns in order; only observers and widget listeners change. */
  function RunTeardowns(e: Editor, ts: seq<Teardown>): (e': Editor)
    ensures e'.comp == e.comp.(observers := e'.comp.observers)
    ensures e'.cm == e.cm.(listeners := e'.cm.listeners)
    decreases |ts|
  {
    if |ts| == 0 then e else RunTeardowns(RunTeardown(e, ts[0]), ts[1..])
  }

  /**
   * `willDestroyElement`: every registered teardown runs once, in
   * registration order. Exactly the observers and listeners the teardowns
   * name are removed, one copy each, and nothing else changes; when each
   * binding has its teardown, none is left.
   */
  function WillDestroyElement(e: Editor): (d: Editor)
    ensures d.comp == e.comp.(observers := d.comp.observers)
    ensures d.cm == e.cm.(listeners := d.cm.listeners)
    ensures multiset(d.comp.observers) == multiset(e.comp.observers) - multiset(Observed(Teardowns(e.comp.hooks)))
    ensures multiset(d.cm.listeners) == multiset(e.cm.listeners) - multiset(Listened(Teardowns(e.comp.hooks)))
    ensures Paired(e) ==> d.comp.observers == [] && d.cm.listeners == []
  {
    RunTeardownsRemoves(e, Teardowns(e.comp.hooks));
    if Paired(e) then
      RunTeardownsClears(e, Teardowns(e.comp.hooks));
      RunTeardowns(e, Teardowns(e.comp.hooks))
    else
      RunTeardowns(e, Teardowns(e.comp.hooks))
  }

  /**
   * Each teardown removes one copy of its observer or listener, when there
   * is one: the removed copies are exactly those the teardowns name.
   */
  lemma {:induction false} RunTeardownsRemoves(e: Editor, ts: seq<Teardown>)
    ensures var e' := RunTeardowns(e, ts);
      && multiset(e'.comp.observers) == multiset(e.comp.observers) - multiset(Observed(ts))
      && multiset(e'.cm.listeners) == multiset(e.cm.listeners) - multiset(Listened(ts))
    decreases |ts|
  {
    if |ts| > 0 {
      var e1 := RunTeardown(e, ts[0]);
      var mo, ml := multiset(Observed(ts[1..])), multiset(Listened(ts[1..]));
      RunTeardownsRemoves(e1, ts[1..]);
      TeardownStep(e, ts[0], mo, ml);
      match ts[0]
      case RemoveObserver(b) =>
        assert Observed(ts) == [b] + Observed(ts[1..]) && Listened(ts) == Listened(ts[1..]);
        assert multiset(Observed(ts)) == multiset{b} + mo;
      case OffWidget(l) =>
        assert Listened(ts) == [l] + Listened(ts[1..]) && Observed(ts) == Observed(ts[1..]);
        assert multiset(Listened(ts)) == multiset{l} + ml;
    }
  }

  /** One teardown, followed by the removal of `mo` or `ml`, removes its own binding too. */
  lemma TeardownStep(e: Editor, t: Teardown, mo: multiset<Binding>, ml: multiset<Listener>)
    ensures t.RemoveObserver? ==>
      && multiset(RunTeardown(e, t).comp.observers) - mo == multiset(e.comp.observers) - (multiset{t.binding} + mo)
      && RunTeardown(e, t).cm.listeners == e.cm.listeners
    ensures t.OffWidget? ==>
      && multiset(RunTeardown(e, t).cm.listeners) - ml == multiset(e.cm.listeners) - (multiset{t.listener} + ml)
      && RunTeardown(e, t).comp.observers == e.comp.observers
  {
    match t
    case RemoveObserver(b) => RemoveThenMinus(e.comp.observers, b, mo);
    case OffWidget(l) => RemoveThenMinus(e.cm.listeners, l, ml);
  }

  /** Removing the head of a sequence that starts with `x` leaves its tail. */
  lemma RemoveHead<T>(s: seq<T>, x: T, rest: seq<T>)
    requires s == [x] + rest
    ensures RemoveFirst(s, x) == rest
  {
    assert s[0] == x && s[1..] == rest;
  }

  /** Removing the first `x` and then the copies in `m` removes `x` and `m` together. */
  lemma RemoveThenMinus<T>(s: seq<T>, x: T, m: multiset<T>)
    ensures multiset(RemoveFirst(s, x)) - m == multiset(s) - (multiset{x} + m)
  {
    var r := RemoveFirst(s, x);
    assert multiset(r) == multiset(s) - multiset{x};
  }

  /**
   * Every binding has exactly one teardown: the teardowns, read in order,
   * remove exactly the registered observers and exactly the widget listeners.
   */
  predicate Paired(e: Editor) {
    && Observed(Teardowns(e.comp.hooks)) == e.comp.observers
    && Listened(Teardowns(e.comp.hooks)) == e.cm.listeners
  }

  // ---------------------------------------------------------------------------
  // Properties
  // ---------------------------------------------------------------------------

  /** Each of the options `keys` of `w` holds the property of the same name in `c`. */
  predicate Copies(w: Widget, c: Component, keys: seq<string>) {
    forall k :: k in keys ==> GetOption(w, k) == Get(c, k)
  }

  /** Every mirrored option of the widget holds the property of the same name. */
  predicate Mirrored(e: Editor) {
    forall k :: k in MirroredKeys ==> GetOption(e.cm, k) == Get(e.comp, k)
  }

  /** The only observer of `value` is the buffer sync. */
  predicate ValueObservedBySync(obs: seq<Binding>) {
    forall b :: b in obs && b.key == "value" ==> b.handler == OnValue
  }

  /** Observers of `value` leave the widget alone when the buffer already holds the value. */
  lemma {:induction false} NotifyValueQuiet(e: Editor, obs: seq<Binding>)
    requires Get(e.comp, "value") == Str(e.cm.buffer)
    requires ValueObservedBySync(obs)
    ensures Notify(e, "value", obs) == e
    decreases |obs|
  {
    if |obs| > 0 {
      assert obs[0] in obs;
      assert ValueObservedBySync(obs[1..]) by {
        forall b | b in obs[1..] ensures b in obs {
        }
      }
      NotifyValueQuiet(e, obs[1..]);
    }
  }

  /**
   * Writing `value` with the buffer's own content never writes the buffer
   * (the sync guard sees equality), whatever the property held before: only
   * the property changes.
   */
  lemma SetValueIdempotent(e: Editor)
    requires ValueObservedBySync(e.comp.observers)
    ensures Get(e.comp, "value") != Str(e.cm.buffer) ==>
      Set(e, "value", Str(e.cm.buffer)) == WithProp(e, "value", Str(e.cm.buffer))
    ensures Set(e, "value", Str(e.cm.buffer)).cm == e.cm
  {
    var v := Str(e.cm.buffer);
    if Get(e.comp, "value") != v {
      var e1 := WithProp(e, "value", v);
      NotifyValueQuiet(e1, e1.comp.observers);
    }
  }

  /** The widget listeners the component binds, and no observer of `value` but the sync. */
  predicate Nominal(e: Editor) {
    e.cm.listeners == EditListeners && ValueObservedBySync(e.comp.observers)
  }

  /**
   * The actions a buffer write over `buffer` sends through the component's
   * listeners: none when the buffer already holds `value`, otherwise
   * `valueWillChange` with the old buffer and `valueDidChange` with the text
   * written.
   */
  function EchoActions(c: Component, buffer: string): (r: seq<Action>)
    ensures r == [] <==> Get(c, "value") == Str(buffer)
  {
    if Get(c, "value") == Str(buffer) then []
    else [Action("valueWillChange", buffer), Action("valueDidChange", OrEmpty(Get(c, "value")))]
  }

  /**
   * The editor after `_valueDidChange` when the component's own listeners
   * answer the write: the buffer and `value` both hold the text written,
   * and the two actions are sent.
   */
  function Echoed(e: Editor): Editor {
    if SyncPending(e) == 0 then e
    else
      var text := OrEmpty(Get(e.comp, "value"));
      Editor(e.comp.(props := e.comp.props["value" := Str(text)], sent := e.comp.sent + EchoActions(e.comp, e.cm.buffer)),
             SetValue(e.cm, text))
  }

  /**
   * `setValue` is answered by the component's own listeners: `_valueDidChange`
   * writes the buffer, `valueWillChange` goes out with the old buffer, then
   * `value` is set to the text written (a `null` becomes `''`) and
   * `valueDidChange` goes out with it. The nested sync finds nothing to do.
   */
  lemma ValueDidChangeEcho(e: Editor)
    requires Nominal(e)
    ensures ValueDidChange(e) == Echoed(e)
    ensures SyncPending(Echoed(e)) == 0
    ensures Get(Echoed(e).comp, "value") == Str(OrEmpty(Get(e.comp, "value")))
  {
    if SyncPending(e) == 1 {
      var text := OrEmpty(Get(e.comp, "value"));
      var e1 := Emit(e, "beforeChange", EditListeners);
      assert e1 == BeforeUpdateValue(e) by {
        assert EditListeners[1..][1..] == [];
      }
      var e2 := e1.(cm := SetValue(e1.cm, text));
      var e3 := Emit(e2, "change", EditListeners);
      assert e3 == UpdateValue(e2) by {
        assert EditListeners[1..][1..] == [];
      }
      SetValueIdempotent(e2);
      if Get(e.comp, "value") == Str(text) {
        assert e.comp.props["value" := Str(text)] == e.comp.props;
      }
    }
  }

  /**
   * The observers of `value` of an editor with the component's bindings: the
   * first sync writes and is echoed, every later one finds nothing to do.
   */
  lemma {:induction false} NotifyValueEcho(e: Editor, obs: seq<Binding>)
    requires Nominal(e)
    requires ValueObservedBySync(obs)
    ensures Notify(e, "value", obs) == if Binding("value", OnValue) in obs then Echoed(e) else e
    decreases |obs|
  {
    if |obs| > 0 {
      assert obs[0] in obs;
      assert ValueObservedBySync(obs[1..]) by {
        forall b | b in obs[1..] ensures b in obs {
        }
      }
      if obs[0].key == "value" {
        ValueDidChangeEcho(e);
        NotifyValueQuiet(Echoed(e), obs[1..]);
      } else {
        NotifyValueEcho(e, obs[1..]);
        assert Binding("value", OnValue) in obs <==> Binding("value", OnValue) in obs[1..] by {
          assert obs == [obs[0]] + obs[1..];
        }
      }
    }
  }

  /**
   * Setting `value` with the sync bound runs the write and its echo: the
   * buffer takes the string (or `''`), `value` ends holding that string, and
   * the two actions are sent unless the buffer already held it.
   */
  lemma SetValueReachesBuffer(e: Editor, v: Val)
    requires Nominal(e)
    requires Binding("value", OnValue) in e.comp.observers
    ensures Set(e, "value", v) == if Get(e.comp, "value") == v then e else Echoed(WithProp(e, "value", v))
    ensures Get(e.comp, "value") != v ==>
      && Set(e, "value", v).cm.buffer == OrEmpty(v)
      && Get(Set(e, "value", v).comp, "value") == Str(OrEmpty(v))
      && Set(e, "value", v).comp.sent == e.comp.sent + EchoActions(WithProp(e, "value", v).comp, e.cm.buffer)
  {
    if Get(e.comp, "value") != v {
      var e1 := WithProp(e, "value", v);
      NotifyValueEcho(e1, e1.comp.observers);
      ValueDidChangeEcho(e1);
      assert Get(e1.comp, "value") == v && e1.cm == e.cm && e1.comp.sent == e.comp.sent;
      EchoedWrites(e1);
    }
  }

  /** The echo leaves the buffer and `value` holding `value || ''` and appends its actions. */
  lemma EchoedWrites(e: Editor)
    ensures Echoed(e).cm.buffer == OrEmpty(Get(e.comp, "value"))
    ensures Get(Echoed(e).comp, "value") == Str(OrEmpty(Get(e.comp, "value")))
    ensures Echoed(e).comp.sent == e.comp.sent + EchoActions(e.comp, e.cm.buffer)
  {
    if SyncPending(e) == 0 {
      assert e.comp.sent + [] == e.comp.sent;
    }
  }

  /**
   * The change round trip. The user's edit makes the component send
   * `valueWillChange` with the old buffer, set `value` to the new buffer and
   * send `valueDidChange` with it; the buffer is never written back, and a
   * later sync finds nothing to do.
   */
  lemma ChangeRoundTrip(e: Editor, text: string)
    requires Nominal(e)
    ensures var e' := UserEdit(e, text);
      && e'.cm.buffer == text
      && Get(e'.comp, "value") == Str(text)
      && e'.cm.calls == e.cm.calls
      && e'.cm.options == e.cm.options
      && e'.comp.sent == e.comp.sent + [Action("valueWillChange", e.cm.buffer), Action("valueDidChange", text)]
      && ValueDidChange(e') == e'
  {
    var e1 := Emit(e, "beforeChange", EditListeners);
    assert e1 == BeforeUpdateValue(e) by {
      assert EditListeners[1..][1..] == [];
    }
    var e2 := e1.(cm := e1.cm.(buffer := text));
    var e3 := Emit(e2, "change", EditListeners);
    assert e3 == UpdateValue(e2) by {
      assert EditListeners[1..][1..] == [];
    }
    var s2 := Set(e2, "value", Str(text));
    SetValueIdempotent(e2);
    assert s2.cm == e2.cm;
  }

  /** Every bound option observer makes a property change reach the widget, and no other option moves. */
  lemma {:induction false} SetKeepsMirrored(e: Editor, key: string, v: Val)
    requires forall k :: k in MirroredKeys ==> Binding(k, OnOption) in e.comp.observers
    requires Mirrored(e)
    ensures Mirrored(Set(e, key, v))
    ensures key in MirroredKeys ==> GetOption(Set(e, key, v).cm, key) == v
  {
    GuttersUnmirrored();
    LintUnmirrored();
    ValueUnmirrored();
    var e' := Set(e, key, v);
    forall k | k in MirroredKeys ensures GetOption(e'.cm, k) == Get(e'.comp, k) {
      if k == key && Get(e.comp, key) != v {
        assert Binding(key, OnOption) in e.comp.observers;
      }
    }
  }

  /** `viewportMargin` is declared with a default but never forwarded: the widget keeps the library's value. */
  lemma ViewportMarginNotForwarded(e: Editor, v: Val)
    ensures (forall b :: b in e.comp.observers ==> b.key != "viewportMargin") ==>
      GetOption(Set(e, "viewportMargin", v).cm, "viewportMargin") == GetOption(e.cm, "viewportMargin")
  {
    ViewportMarginUnmirrored();
  }

  lemma {:induction false} TeardownsAppend(a: seq<Hook>, b: seq<Hook>)
    ensures Teardowns(a + b) == Teardowns(a) + Teardowns(b)
    decreases |a|
  {
    if |a| == 0 {
      assert a + b == b;
    } else {
      var head := if a[0].WillDestroy? then [a[0].teardown] else [];
      assert (a + b)[0] == a[0];
      assert (a + b)[1..] == a[1..] + b;
      assert Teardowns(a + b) == head + Teardowns(a[1..] + b);
      TeardownsAppend(a[1..], b);
      assert Teardowns(a) == head + Teardowns(a[1..]);
    }
  }

  lemma {:induction false} ObservedAppend(a: seq<Teardown>, b: seq<Teardown>)
    ensures Observed(a + b) == Observed(a) + Observed(b)
    ensures Listened(a + b) == Listened(a) + Listened(b)
  {
    ObservedOnlyAppend(a, b);
    ListenedAppend(a, b);
  }

  lemma {:induction false} ObservedOnlyAppend(a: seq<Teardown>, b: seq<Teardown>)
    ensures Observed(a + b) == Observed(a) + Observed(b)
    decreases |a|
  {
    if |a| == 0 {
      assert a + b == b;
    } else {
      var head := if a[0].RemoveObserver? then [a[0].binding] else [];
      assert (a + b)[0] == a[0];
      assert (a + b)[1..] == a[1..] + b;
      assert Observed(a + b) == head + Observed(a[1..] + b);
      ObservedOnlyAppend(a[1..], b);
      assert Observed(a) == head + Observed(a[1..]);
    }
  }

  lemma {:induction false} ListenedAppend(a: seq<Teardown>, b: seq<Teardown>)
    ensures Listened(a + b) == Listened(a) + Listened(b)
    decreases |a|
  {
    if |a| == 0 {
      assert a + b == b;
    } else {
      var head := if a[0].OffWidget? then [a[0].listener] else [];
      assert (a + b)[0] == a[0];
      assert (a + b)[1..] == a[1..] + b;
      assert Listened(a + b) == head + Listened(a[1..] + b);
      ListenedAppend(a[1..], b);
      assert Listened(a) == head + Listened(a[1..]);
    }
  }

  /** The removal hooks of a list of observer bindings tear down exactly those bindings and no listener. */
  lemma {:induction false} RemovalHooksPaired(bs: seq<Binding>)
    ensures Observed(Teardowns(RemovalHooks(bs))) == bs
    ensures Listened(Teardowns(RemovalHooks(bs))) == []
    decreases |bs|
  {
    if |bs| > 0 {
      var hs := RemovalHooks(bs);
      assert hs[1..] == RemovalHooks(bs[1..]);
      RemovalHooksPaired(bs[1..]);
      var ts := Teardowns(hs);
      assert ts == [RemoveObserver(bs[0])] + Teardowns(hs[1..]);
      assert ts[1..] == Teardowns(hs[1..]);
      assert bs == [bs[0]] + bs[1..];
    }
  }

  /** The bindings `_initCodeMirror` leaves in place. */
  function InitObservers(): seq<Binding> {
    OptionBindings(MirroredKeys) + [Binding("gutters", OnRefresh), Binding("value", OnValue)]
  }

  /** Appending a teardown-paired registration keeps the pairing. */
  lemma PairedAppend(e: Editor, e': Editor, hs: seq<Hook>, obs: seq<Binding>, ls: seq<Listener>)
    requires Paired(e)
    requires e'.comp.hooks == e.comp.hooks + hs
    requires e'.comp.observers == e.comp.observers + obs
    requires e'.cm.listeners == e.cm.listeners + ls
    requires Observed(Teardowns(hs)) == obs && Listened(Teardowns(hs)) == ls
    ensures Paired(e')
  {
    TeardownsAppend(e.comp.hooks, hs);
    ObservedAppend(Teardowns(e.comp.hooks), Teardowns(hs));
  }

  lemma TwoTeardowns(l1: Listener, l2: Listener)
    ensures var hs := [WillDestroy(OffWidget(l1)), WillDestroy(OffWidget(l2))];
      Observed(Teardowns(hs)) == [] && Listened(Teardowns(hs)) == [l1, l2]
  {
    var hs := [WillDestroy(OffWidget(l1)), WillDestroy(OffWidget(l2))];
    assert hs[1..][1..] == [];
    assert Teardowns(hs[1..]) == [OffWidget(l2)];
    assert Teardowns(hs) == [OffWidget(l1), OffWidget(l2)];
    var ts := [OffWidget(l1), OffWidget(l2)];
    assert ts[1..][1..] == [];
    assert Listened(ts[1..]) == [l2];
    assert Observed(ts[1..]) == [];
    assert Listened(ts) == [l1] + Listened(ts[1..]);
  }

  lemma PairedBindEvents(e: Editor)
    requires Paired(e)
    ensures Paired(BindEvents(e))
  {
    var l1 := EditListeners[0];
    var l2 := EditListeners[1];
    var hs := [WillDestroy(OffWidget(l1)), WillDestroy(OffWidget(l2))];
    TwoTeardowns(l1, l2);
    PairedAppend(e, BindEvents(e), hs, [], EditListeners);
  }

  lemma PairedBindOptionsFrom(e: Editor, keys: seq<string>)
    requires Paired(e)
    ensures Paired(BindOptionsFrom(e, keys))
  {
    var ob := OptionBindings(keys);
    BindOptionsFromRegisters(e, keys);
    RemovalHooksPaired(ob);
    PairedAppend(e, BindOptionsFrom(e, keys), RemovalHooks(ob), ob, []);
  }

  lemma PairedBindOptions(e: Editor)
    requires Paired(e)
    ensures Paired(BindOptions(e))
  {
    PairedBindOptionsFrom(e, MirroredKeys);
  }

  lemma PairedBindProperties(e: Editor)
    requires Paired(e)
    ensures Paired(BindProperties(e))
  {
    var bs := [Binding("gutters", OnRefresh), Binding("value", OnValue)];
    RemovalHooksPaired(bs);
    assert RemovalHooks(bs) == [WillDestroy(RemoveObserver(bs[0])), WillDestroy(RemoveObserver(bs[1]))];
    PairedAppend(e, BindProperties(e), RemovalHooks(bs), bs, []);
  }

  lemma PairedTriggerUpdates(e: Editor)
    requires Paired(e)
    ensures Paired(TriggerUpdates(e))
  {
    var hs := [BecameVisible];
    assert Teardowns(hs) == [];
    PairedAppend(e, TriggerUpdates(e), hs, [], []);
  }

  /**
   * Insertion registers the 2 widget listeners and 23 observers (the 21
   * mirrored options, `gutters` and `value`), each with exactly one
   * teardown, in the same order.
   */
  lemma InitCodeMirrorBindings(props: map<string, Val>, text: string, options: map<string, Val>)
    ensures var e := InitCodeMirror(NewComponent(props), text, options);
      && e.comp.observers == InitObservers()
      && e.cm.listeners == EditListeners
  {
    var e0 := Editor(NewComponent(props), Create(text, options));
    StagesObservers(e0);
    StagesListeners(e0);
  }

  /** ... each with exactly one teardown ... */
  lemma InitCodeMirrorPaired(props: map<string, Val>, text: string, options: map<string, Val>)
    ensures Paired(InitCodeMirror(NewComponent(props), text, options))
  {
    StagesPaired(Editor(NewComponent(props), Create(text, options)));
  }

  /** ... 23 observers and 25 teardowns in all. */
  lemma InitCodeMirrorCounts(props: map<string, Val>, text: string, options: map<string, Val>)
    ensures var e := InitCodeMirror(NewComponent(props), text, options);
      |e.comp.observers| == 23 && |Teardowns(e.comp.hooks)| == 25
  {
    var e := InitCodeMirror(NewComponent(props), text, options);
    InitCodeMirrorBindings(props, text, options);
    InitCodeMirrorPaired(props, text, options);
    InitObserversCount();
    PairedCount(e);
  }

  lemma InitObserversCount()
    ensures |InitObservers()| == 23
  {
    assert |OptionBindings(MirroredKeys)| == |MirroredKeys| == 21;
  }

  /** A paired editor has one teardown per observer and per listener. */
  lemma PairedCount(e: Editor)
    requires Paired(e)
    ensures |Teardowns(e.comp.hooks)| == |e.comp.observers| + |e.cm.listeners|
  {
    TeardownsSplit(Teardowns(e.comp.hooks));
  }

  /** The stages register the option bindings, then the `gutters` and `value` bindings; only the events add listeners. */
  lemma StagesObservers(e0: Editor)
    requires e0.comp.observers == []
    ensures BindProperties(BindOptions(BindEvents(e0))).comp.observers == InitObservers()
  {
    var e2 := BindOptions(BindEvents(e0));
    var ob := OptionBindings(MirroredKeys);
    var pb := [Binding("gutters", OnRefresh), Binding("value", OnValue)];
    BindOptionsObserves(BindEvents(e0));
    assert e2.comp.observers == [] + ob;
    EmptyPrefix(ob, pb);
  }

  /** ... while only the event stage adds widget listeners. */
  lemma StagesListeners(e0: Editor)
    requires e0.cm.listeners == []
    ensures TriggerUpdates(BindProperties(BindOptions(BindEvents(e0)))).cm.listeners == EditListeners
  {
    StagesListenersFrom(e0, MirroredKeys);
  }

  /** `StagesListeners` for any list of option keys. */
  lemma StagesListenersFrom(e0: Editor, keys: seq<string>)
    requires e0.cm.listeners == []
    ensures TriggerUpdates(BindProperties(BindOptionsFrom(BindEvents(e0), keys))).cm.listeners == EditListeners
  {
    var e1 := BindEvents(e0);
    assert e1.cm.listeners == EditListeners by {
      assert [] + EditListeners == EditListeners;
    }
    var e3 := BindProperties(BindOptionsFrom(e1, keys));
    assert e3.cm.listeners == EditListeners;
  }

  /** Starting with nothing bound, every stage keeps each binding paired with its teardown. */
  lemma StagesPaired(e0: Editor)
    requires e0.comp.observers == [] && e0.comp.hooks == [] && e0.cm.listeners == []
    ensures Paired(TriggerUpdates(BindProperties(BindOptions(BindEvents(e0)))))
  {
    BindingStagesPaired(e0);
    PairedTriggerUpdates(BindProperties(BindOptions(BindEvents(e0))));
  }

  /** The three binding stages keep each binding paired with its teardown. */
  lemma BindingStagesPaired(e0: Editor)
    requires e0.comp.observers == [] && e0.comp.hooks == [] && e0.cm.listeners == []
    ensures Paired(BindProperties(BindOptions(BindEvents(e0))))
  {
    assert Paired(e0);
    var e1 := BindEvents(e0);
    PairedBindEvents(e0);
    var e2 := BindOptions(e1);
    PairedBindOptions(e1);
    PairedBindProperties(e2);
  }

  lemma EmptyPrefix<T>(a: seq<T>, b: seq<T>)
    ensures ([] + a) + b == a + b
  {
    assert [] + a == a;
  }

  /** Every teardown removes either an observer or a listener. */
  lemma {:induction false} TeardownsSplit(ts: seq<Teardown>)
    ensures |ts| == |Observed(ts)| + |Listened(ts)|
    decreases |ts|
  {
    if |ts| > 0 {
      TeardownsSplit(ts[1..]);
    }
  }

  /**
   * After insertion the buffer holds `value` (or `''`), and so does `value`:
   * the first sync is answered by the component's own listeners, which
   * send `valueWillChange` with the textarea's text and `valueDidChange`
   * with the text written, unless the textarea already held `value`. The
   * lint option follows `lint`, `viewportMargin` keeps the library's value,
   * and the last call sized the widget with `width` and `height`.
   */
  lemma InitCodeMirrorSync(props: map<string, Val>, text: string, options: map<string, Val>)
    ensures var c := NewComponent(props);
      var e := InitCodeMirror(c, text, options);
      && e.cm.buffer == OrEmpty(Get(c, "value"))
      && Get(e.comp, "value") == Str(OrEmpty(Get(c, "value")))
      && GetOption(e.cm, "lint") == Bool(Truthy(Get(c, "lint")))
      && GetOption(e.cm, "viewportMargin") == GetOption(Create(text, options), "viewportMargin")
      && LastCall(e.cm, Resized(Get(c, "width"), Get(c, "height")))
      && e.comp.sent == EchoActions(c, text)
  {
    var e0 := Editor(NewComponent(props), Create(text, options));
    StagesSync(e0);
    StagesEcho(e0);
  }

  /**
   * With the declared defaults `value` is `null`: insertion writes `''`,
   * sends `valueWillChange` with the textarea's text and `valueDidChange`
   * with `''`, and leaves `value` holding `''`.
   */
  lemma DefaultInitEcho(text: string, options: map<string, Val>)
    ensures var e := InitCodeMirror(NewComponent(Defaults()), text, options);
      && e.cm.buffer == ""
      && Get(e.comp, "value") == Str("")
      && e.comp.sent == [Action("valueWillChange", text), Action("valueDidChange", "")]
  {
    DefaultValueNull();
    NullInitEcho(Defaults(), text, options);
  }

  /** `DefaultInitEcho` for any properties whose `value` is `null`. */
  lemma NullInitEcho(props: map<string, Val>, text: string, options: map<string, Val>)
    requires "value" in props && props["value"] == Null
    ensures var e := InitCodeMirror(NewComponent(props), text, options);
      && e.cm.buffer == ""
      && Get(e.comp, "value") == Str("")
      && e.comp.sent == [Action("valueWillChange", text), Action("valueDidChange", "")]
  {
    var c := NewComponent(props);
    InitCodeMirrorSync(props, text, options);
    EchoActionsNull(c, text);
  }

  /** A `null` value is never equal to the buffer's text, so the echo always happens. */
  lemma EchoActionsNull(c: Component, buffer: string)
    requires Get(c, "value") == Null
    ensures OrEmpty(Get(c, "value")) == ""
    ensures EchoActions(c, buffer) == [Action("valueWillChange", buffer), Action("valueDidChange", "")]
  {
  }

  /** After insertion every mirrored option of the widget holds the property of the same name. */
  lemma InitCodeMirrorMirrored(props: map<string, Val>, text: string, options: map<string, Val>)
    ensures var c := NewComponent(props);
      var e := InitCodeMirror(c, text, options);
      && Mirrored(e)
      && (forall k :: k in MirroredKeys ==> GetOption(e.cm, k) == Get(c, k))
  {
    StagesMirror(Editor(NewComponent(props), Create(text, options)));
    StagesCopy(Editor(NewComponent(props), Create(text, options)));
  }

  /** The option stage copies every mirrored property, and the later stages keep the copies in sync. */
  lemma StagesMirror(e0: Editor)
    ensures Mirrored(TriggerUpdates(BindProperties(BindOptions(BindEvents(e0)))))
  {
    GuttersUnmirrored();
    LintUnmirrored();
    ValueUnmirrored();
    StagesMirrorFrom(e0, MirroredKeys);
  }

  /** ... and the copies are the properties the component started with. */
  lemma StagesCopy(e0: Editor)
    ensures var e := TriggerUpdates(BindProperties(BindOptions(BindEvents(e0))));
      forall k :: k in MirroredKeys ==> GetOption(e.cm, k) == Get(e0.comp, k)
  {
    GuttersUnmirrored();
    LintUnmirrored();
    ValueUnmirrored();
    StagesMirrorFrom(e0, MirroredKeys);
  }

  /** `StagesMirror` for any list of option keys without `gutters`, `lint` and `value`. */
  lemma StagesMirrorFrom(e0: Editor, keys: seq<string>)
    requires "gutters" !in keys && "lint" !in keys && "value" !in keys
    ensures var e := TriggerUpdates(BindProperties(BindOptionsFrom(BindEvents(e0), keys)));
      forall k :: k in keys ==> GetOption(e.cm, k) == Get(e0.comp, k) == Get(e.comp, k)
  {
    var e2 := BindOptionsFrom(BindEvents(e0), keys);
    forall k | k in keys
      ensures var e := TriggerUpdates(BindProperties(e2));
        GetOption(e.cm, k) == Get(e0.comp, k) == Get(e.comp, k)
    {
      LaterStagesKeep(e2, k);
    }
  }

  /** Binding the properties and running the updaters touch no option but `gutters`, `lint` and `value`. */
  lemma LaterStagesKeep(e2: Editor, k: string)
    requires k != "gutters" && k != "lint" && k != "value"
    ensures var e := TriggerUpdates(BindProperties(e2));
      GetOption(e.cm, k) == GetOption(e2.cm, k) && Get(e.comp, k) == Get(e2.comp, k)
  {
  }

  /** The property stage fills the buffer, and the updaters set `lint` and the size last. */
  lemma StagesSync(e0: Editor)
    ensures var e := TriggerUpdates(BindProperties(BindOptions(BindEvents(e0))));
      && e.cm.buffer == OrEmpty(Get(e0.comp, "value"))
      && GetOption(e.cm, "lint") == Bool(Truthy(Get(e0.comp, "lint")))
      && GetOption(e.cm, "viewportMargin") == GetOption(e0.cm, "viewportMargin")
      && LastCall(e.cm, Resized(Get(e0.comp, "width"), Get(e0.comp, "height")))
  {
    ViewportMarginUnmirrored();
    StagesSyncFrom(e0, MirroredKeys);
  }

  /** `StagesSync` for any list of option keys without `viewportMargin`. */
  lemma StagesSyncFrom(e0: Editor, keys: seq<string>)
    requires "viewportMargin" !in keys
    ensures var e := TriggerUpdates(BindProperties(BindOptionsFrom(BindEvents(e0), keys)));
      && e.cm.buffer == OrEmpty(Get(e0.comp, "value"))
      && GetOption(e.cm, "lint") == Bool(Truthy(Get(e0.comp, "lint")))
      && GetOption(e.cm, "viewportMargin") == GetOption(e0.cm, "viewportMargin")
      && LastCall(e.cm, Resized(Get(e0.comp, "width"), Get(e0.comp, "height")))
  {
    var e3 := BindProperties(BindOptionsFrom(BindEvents(e0), keys));
    StagesBound(e0, keys);
    var e4 := TriggerUpdates(e3);
    assert e4.cm.calls == e3.cm.calls + [Resized(Get(e0.comp, "width"), Get(e0.comp, "height"))];
  }

  /** The stages before the updaters run: the buffer is synced and only `value` may change. */
  lemma StagesBound(e0: Editor, keys: seq<string>)
    requires "viewportMargin" !in keys
    ensures var e3 := BindProperties(BindOptionsFrom(BindEvents(e0), keys));
      && e3.cm.buffer == OrEmpty(Get(e0.comp, "value"))
      && GetOption(e3.cm, "viewportMargin") == GetOption(e0.cm, "viewportMargin")
      && forall k :: k != "value" ==> Get(e3.comp, k) == Get(e0.comp, k)
  {
    var e1 := BindEvents(e0);
    var e2 := BindOptionsFrom(e1, keys);
    assert GetOption(e2.cm, "viewportMargin") == GetOption(e0.cm, "viewportMargin");
    assert e2.cm.buffer == e0.cm.buffer && Get(e2.comp, "value") == Get(e0.comp, "value");
    var e3 := BindProperties(e2);
    assert GetOption(e3.cm, "viewportMargin") == GetOption(e0.cm, "viewportMargin");
    assert e3.cm.buffer == OrEmpty(Get(e0.comp, "value"));
    forall k | k != "value" ensures Get(e3.comp, k) == Get(e0.comp, k) {
      assert Get(e2.comp, k) == Get(e0.comp, k);
    }
  }

  /**
   * Starting with nothing bound, the first sync of the property stage is
   * echoed: the actions of a write over the initial buffer are sent and
   * `value` ends holding the text written.
   */
  lemma StagesEcho(e0: Editor)
    requires e0.comp.observers == [] && e0.cm.listeners == []
    ensures var e := TriggerUpdates(BindProperties(BindOptions(BindEvents(e0))));
      && e.comp.sent == e0.comp.sent + EchoActions(e0.comp, e0.cm.buffer)
      && Get(e.comp, "value") == Str(OrEmpty(Get(e0.comp, "value")))
  {
    ValueUnmirrored();
    StagesEchoFrom(e0, MirroredKeys);
  }

  /** `StagesEcho` for any list of option keys without `value`. */
  lemma StagesEchoFrom(e0: Editor, keys: seq<string>)
    requires e0.comp.observers == [] && e0.cm.listeners == []
    requires "value" !in keys
    ensures var e := TriggerUpdates(BindProperties(BindOptionsFrom(BindEvents(e0), keys)));
      && e.comp.sent == e0.comp.sent + EchoActions(e0.comp, e0.cm.buffer)
      && Get(e.comp, "value") == Str(OrEmpty(Get(e0.comp, "value")))
  {
    var e1 := BindEvents(e0);
    assert e1.cm.listeners == EditListeners by {
      assert [] + EditListeners == EditListeners;
    }
    var e2 := BindOptionsFrom(e1, keys);
    BindOptionsFromRegisters(e1, keys);
    OptionBindingsKeys(keys);
    assert e2.comp.observers == OptionBindings(keys) by {
      assert [] + OptionBindings(keys) == OptionBindings(keys);
    }
    BindPropertiesEcho(e2);
  }

  /** Option bindings observe only their own keys, each with the option copy. */
  lemma {:induction false} OptionBindingsKeys(keys: seq<string>)
    ensures forall b :: b in OptionBindings(keys) ==> b.key in keys && b.handler == OnOption
    decreases |keys|
  {
    if |keys| > 0 {
      OptionBindingsKeys(keys[1..]);
      assert forall k :: k in keys[1..] ==> k in keys;
    }
  }

  /** With the component's listeners bound, the property stage's first sync is echoed. */
  lemma BindPropertiesEcho(e: Editor)
    requires Nominal(e)
    ensures BindProperties(e).comp.sent == e.comp.sent + EchoActions(e.comp, e.cm.buffer)
    ensures Get(BindProperties(e).comp, "value") == Str(OrEmpty(Get(e.comp, "value")))
  {
    var e1 := BindCodeMirrorProperty(BindCodeMirrorProperty(e, "gutters", OnRefresh), "value", OnValue);
    assert Nominal(e1) by {
      forall b | b in e1.comp.observers && b.key == "value" ensures b.handler == OnValue {
        assert b in e.comp.observers || b == Binding("gutters", OnRefresh) || b == Binding("value", OnValue);
      }
    }
    ValueDidChangeEcho(e1);
  }

  // ---------------------------------------------------------------------------
  // Lint gutter
  // ---------------------------------------------------------------------------

  /** Running the updater twice in a row leaves the widget as running it once. */
  lemma UpdateLintGutterIdempotent(e: Editor)
    ensures UpdateLintGutter(UpdateLintGutter(e)) == UpdateLintGutter(e)
  {
    var e1 := UpdateLintGutter(e);
    var e2 := UpdateLintGutter(e1);
    assert e2.cm.options == e1.cm.options by {
      forall k | k in e2.cm.options || k in e1.cm.options
        ensures k in e2.cm.options && k in e1.cm.options && e2.cm.options[k] == e1.cm.options[k]
      {
        assert GetOption(e2.cm, k) == GetOption(e1.cm, k);
        if k == "gutters" || k == "lint" {
          assert k in e1.cm.options && k in e2.cm.options;
        } else {
          assert k in e2.cm.options <==> k in e1.cm.options by {
            assert e2.cm.options.Keys == e1.cm.options.Keys + {"gutters", "lint"};
          }
        }
      }
    }
  }

  /**
   * `set('lint', v)` with the intended updater in place of the one written:
   * the corrected counterpart of `Set` for the first finding.
   */
  function SetLintIntended(e: Editor, v: Val): (e': Editor)
    ensures Get(e'.comp, "lint") == v
    ensures forall k :: k != "lint" && k != "value" ==> Get(e'.comp, k) == Get(e.comp, k)
    ensures Get(e.comp, "lint") == v ==> e' == e
    ensures Get(e.comp, "lint") != v ==> GetOption(e'.cm, "lint") == Bool(Truthy(v))
  {
    if Get(e.comp, "lint") == v then e
    else
      var e1 := WithProp(e, "lint", v);
      UpdateLintGutter(Notify(e1, "lint", e1.comp.observers))
  }

  /**
   * With the intended updater, switching `lint` on and then off through the
   * property leaves the `gutters` option as the property without the marker
   * (the property itself when it never held the marker), and the property
   * unchanged.
   */
  lemma LintToggleRestores(e: Editor)
    requires Get(e.comp, "lint") == Bool(false)
    requires forall b :: b in e.comp.observers ==> b.key != "lint"
    ensures var e1 := SetLintIntended(e, Bool(true));
      var e2 := SetLintIntended(e1, Bool(false));
      && GetOption(e1.cm, "gutters") == List([LintMarker] + Gutters(e.comp))
      && GetOption(e2.cm, "gutters") == List(Without(Gutters(e.comp), LintMarker))
      && (LintMarker !in Gutters(e.comp) ==> GetOption(e2.cm, "gutters") == List(Gutters(e.comp)))
      && Get(e2.comp, "gutters") == Get(e.comp, "gutters")
      && GetOption(e2.cm, "lint") == Bool(false)
  {
    var e1 := SetLintIntended(e, Bool(true));
    var p1 := WithProp(e, "lint", Bool(true));
    assert Notify(p1, "lint", p1.comp.observers) == p1;
    assert Gutters(p1.comp) == Gutters(e.comp);
    var p2 := WithProp(e1, "lint", Bool(false));
    assert Notify(p2, "lint", p2.comp.observers) == p2;
    assert Gutters(p2.comp) == Gutters(e.comp);
  }

  lemma PrependChanges<T>(x: T, s: seq<T>)
    ensures [x] + s != s
  {
    assert |[x] + s| != |s|;
  }

  /** Switching `lint` on through the property puts the marker in front of the option only. */
  lemma LintOnPutsMarker(e: Editor)
    requires Get(e.comp, "lint") == Bool(false)
    requires LintMarker !in Gutters(e.comp)
    requires forall b :: b in e.comp.observers ==> b.key != "lint"
    ensures var e1 := Set(e, "lint", Bool(true));
      && GetOption(e1.cm, "gutters") == List([LintMarker] + Gutters(e.comp))
      && Get(e1.comp, "gutters") == Get(e.comp, "gutters")
      && Gutters(e1.comp) == Gutters(e.comp)
      && e1.comp.observers == e.comp.observers
      && Get(e1.comp, "lint") == Bool(true)
  {
    var p1 := WithProp(e, "lint", Bool(true));
    assert Notify(p1, "lint", p1.comp.observers) == p1;
    assert Gutters(p1.comp) == Gutters(e.comp);
  }

  /**
   * As written, switching `lint` off through the property when the property
   * holds no marker leaves the `gutters` option as it was.
   */
  lemma LintOffLeavesOption(e: Editor)
    requires Get(e.comp, "lint") == Bool(true)
    requires LintMarker !in Gutters(e.comp)
    requires forall b :: b in e.comp.observers ==> b.key != "lint"
    ensures var e1 := Set(e, "lint", Bool(false));
      && GetOption(e1.cm, "gutters") == GetOption(e.cm, "gutters")
      && Get(e1.comp, "gutters") == Get(e.comp, "gutters")
      && GetOption(e1.cm, "lint") == Bool(false)
  {
    var p1 := WithProp(e, "lint", Bool(false));
    assert Notify(p1, "lint", p1.comp.observers) == p1;
    assert Gutters(p1.comp) == Gutters(e.comp);
  }

  /**
   * The program as written: switching `lint` on and then off through the
   * property leaves the marker in front of the `gutters` option, so the
   * option no longer shows the property.
   */
  lemma LintToggleKeepsMarker(e: Editor)
    requires Get(e.comp, "lint") == Bool(false)
    requires LintMarker !in Gutters(e.comp)
    requires forall b :: b in e.comp.observers ==> b.key != "lint"
    ensures var e2 := Set(Set(e, "lint", Bool(true)), "lint", Bool(false));
      && GetOption(e2.cm, "gutters") == List([LintMarker] + Gutters(e.comp))
      && GetOption(e2.cm, "gutters") != List(Gutters(e.comp))
      && Get(e2.comp, "gutters") == Get(e.comp, "gutters")
      && GetOption(e2.cm, "lint") == Bool(false)
  {
    var e1 := Set(e, "lint", Bool(true));
    LintOnPutsMarker(e);
    assert LintMarker !in Gutters(e1.comp) && forall b :: b in e1.comp.observers ==> b.key != "lint";
    LintOffLeavesOption(e1);
    PrependChanges(LintMarker, Gutters(e.comp));
  }

  /**
   * The updater-level form of `LintToggleKeepsMarker`: running the lint
   * updater as written on, then off, without going through `set`. A marker
   * put in front of the gutters by enabling survives disabling: the
   * disabled branch looks for it in the property, where enabling never put
   * it, and leaves the option alone.
   */
  lemma LintMarkerSurvivesAsWritten(e: Editor)
    requires Get(e.comp, "lint") == Bool(true)
    requires LintMarker !in Gutters(e.comp)
    ensures var e1 := UpdateLintGutterAsWritten(e);
      var e2 := e1.(comp := e1.comp.(props := e1.comp.props["lint" := Bool(false)]));
      var e3 := UpdateLintGutterAsWritten(e2);
      && GetOption(e3.cm, "lint") == Bool(false)
      && GetOption(e3.cm, "gutters") == List([LintMarker] + Gutters(e.comp))
      && GetOption(e3.cm, "gutters") != List(Gutters(e.comp))
  {
    var e1 := UpdateLintGutterAsWritten(e);
    var e2 := e1.(comp := e1.comp.(props := e1.comp.props["lint" := Bool(false)]));
    assert Gutters(e2.comp) == Gutters(e.comp);
    assert [LintMarker] + Gutters(e.comp) != Gutters(e.comp) by {
      assert |[LintMarker] + Gutters(e.comp)| != |Gutters(e.comp)|;
    }
  }

  /**
   * The updater-level form of `LintToggleRestores`: the same toggle with the
   * intended updater, without going through `set`, takes the marker out again.
   */
  lemma LintMarkerRemoved(e: Editor)
    requires Get(e.comp, "lint") == Bool(true)
    ensures var e1 := UpdateLintGutter(e);
      var e2 := e1.(comp := e1.comp.(props := e1.comp.props["lint" := Bool(false)]));
      var e3 := UpdateLintGutter(e2);
      && GetOption(e3.cm, "lint") == Bool(false)
      && GetOption(e3.cm, "gutters") == List(Without(Gutters(e.comp), LintMarker))
      && (LintMarker !in Gutters(e.comp) ==> GetOption(e3.cm, "gutters") == List(Gutters(e.comp)))
  {
    var e1 := UpdateLintGutter(e);
    var e2 := e1.(comp := e1.comp.(props := e1.comp.props["lint" := Bool(false)]));
    assert Gutters(e2.comp) == Gutters(e.comp);
  }

  /**
   * As written, disabling with the marker first in the `gutters` property
   * sets the option to what `splice` returns, the marker alone, and strips
   * the marker from the property in place.
   */
  lemma SpliceResultAsWritten(e: Editor, rest: seq<string>)
    requires !Truthy(Get(e.comp, "lint"))
    requires Get(e.comp, "gutters") == List([LintMarker] + rest)
    ensures var e' := UpdateLintGutterAsWritten(e);
      && GetOption(e'.cm, "gutters") == List([LintMarker])
      && Get(e'.comp, "gutters") == List(rest)
      && (rest != [] && LintMarker !in rest ==> GetOption(e'.cm, "gutters") != List(rest))
  {
    var g := [LintMarker] + rest;
    if rest != [] && LintMarker !in rest {
      assert rest[0] != LintMarker;
    }
    assert IndexOf(g, LintMarker) == 0;
    assert g[..0] + g[1..] == rest;
  }

  /** With the intended updater the option holds the other gutters, and the property is left alone. */
  lemma SpliceResultIntended(e: Editor, rest: seq<string>)
    requires !Truthy(Get(e.comp, "lint"))
    requires Get(e.comp, "gutters") == List([LintMarker] + rest)
    requires LintMarker !in rest
    ensures var e' := UpdateLintGutter(e);
      && GetOption(e'.cm, "gutters") == List(rest)
      && Get(e'.comp, "gutters") == List([LintMarker] + rest)
  {
    var g := [LintMarker] + rest;
    assert g[1..] == rest;
    assert Without(g, LintMarker) == Without(rest, LintMarker);
  }

  // ---------------------------------------------------------------------------
  // Teardown
  // ---------------------------------------------------------------------------

  /**
   * Running teardowns that name exactly the registered observers and widget
   * listeners removes all of them and changes nothing else.
   */
  lemma {:induction false} RunTeardownsClears(e: Editor, ts: seq<Teardown>)
    requires e.comp.observers == Observed(ts) && e.cm.listeners == Listened(ts)
    ensures var e' := RunTeardowns(e, ts);
      && e'.comp == e.comp.(observers := [])
      && e'.cm == e.cm.(listeners := [])
    decreases |ts|
  {
    if |ts| == 0 {
    } else {
      var e1 := RunTeardown(e, ts[0]);
      match ts[0]
      case RemoveObserver(b) =>
        assert Observed(ts) == [b] + Observed(ts[1..]) && Listened(ts) == Listened(ts[1..]);
        RemoveHead(e.comp.observers, b, Observed(ts[1..]));
        assert e1 == e.(comp := e.comp.(observers := Observed(ts[1..])));
        RunTeardownsClears(e1, ts[1..]);
      case OffWidget(l) =>
        assert Listened(ts) == [l] + Listened(ts[1..]) && Observed(ts) == Observed(ts[1..]);
        RemoveHead(e.cm.listeners, l, Listened(ts[1..]));
        assert e1 == e.(cm := e.cm.(listeners := Listened(ts[1..])));
        RunTeardownsClears(e1, ts[1..]);
    }
  }

  /** `willDestroyElement` on a paired component removes every observer and listener it bound, and nothing else. */
  lemma DestroyClears(e: Editor)
    requires Paired(e)
    ensures WillDestroyElement(e).comp == e.comp.(observers := [])
    ensures WillDestroyElement(e).cm == e.cm.(listeners := [])
  {
    RunTeardownsClears(e, Teardowns(e.comp.hooks));
  }

  /**
   * After `willDestroyElement` the bound observers and listeners are gone:
   * a property change no longer reaches the widget, and a user edit no
   * longer reaches the component. The class-level observers of `width` and
   * `height` are not bound per instance and keep resizing the widget.
   */
  lemma DestroyedIsDetached(e: Editor, key: string, v: Val, text: string)
    requires Paired(e)
    ensures var d := WillDestroyElement(e);
      && (key != "lint" && key != "width" && key != "height" ==> Set(d, key, v).cm == d.cm)
      && UserEdit(d, text).comp == d.comp
      && (Get(d.comp, "width") != v ==>
          Set(d, "width", v).cm.calls == d.cm.calls + [Resized(v, Get(d.comp, "height"))])
  {
    DestroyClears(e);
    Detached(WillDestroyElement(e), key, v, text);
  }

  /** An editor with no observer and no listener: see `DestroyedIsDetached`. */
  lemma Detached(d: Editor, key: string, v: Val, text: string)
    requires d.comp.observers == [] && d.cm.listeners == []
    ensures key != "lint" && key != "width" && key != "height" ==> Set(d, key, v).cm == d.cm
    ensures UserEdit(d, text).comp == d.comp
    ensures Get(d.comp, "width") != v ==>
      Set(d, "width", v).cm.calls == d.cm.calls + [Resized(v, Get(d.comp, "height"))]
  {
    if Get(d.comp, "width") != v {
      var d1 := WithProp(d, "width", v);
      assert Notify(d1, "width", d1.comp.observers) == d1;
    }
    var e1 := Emit(d, "beforeChange", d.cm.listeners);
    assert e1 == d;
  }

  /** At most one observer of `gutters`, and it is `refresh`, as the component binds it. */
  predicate GuttersObservedByRefresh(obs: seq<Binding>) {
    && (forall b :: b in obs && b.key == "gutters" ==> b.handler == OnRefresh)
    && (forall i, j :: 0 <= i < j < |obs| && obs[i].key == "gutters" ==> obs[j].key != "gutters")
  }

  /** The observers of `gutters` refresh the widget once if `refresh` is among them, and do nothing otherwise. */
  lemma {:induction false} NotifyGuttersRefresh(e: Editor, obs: seq<Binding>)
    requires GuttersObservedByRefresh(obs)
    ensures Notify(e, "gutters", obs) == if Binding("gutters", OnRefresh) in obs then RefreshEditor(e) else e
    decreases |obs|
  {
    if |obs| > 0 {
      assert obs == [obs[0]] + obs[1..];
      assert GuttersObservedByRefresh(obs[1..]) by {
        forall i, j | 0 <= i < j < |obs[1..]| && obs[1..][i].key == "gutters" ensures obs[1..][j].key != "gutters" {
          assert obs[1..][i] == obs[i + 1] && obs[1..][j] == obs[j + 1];
        }
      }
      if obs[0].key == "gutters" {
        assert obs[0] == Binding("gutters", OnRefresh) by { assert obs[0] in obs; }
        assert forall b :: b in obs[1..] ==> b.key != "gutters" by {
          forall b | b in obs[1..] ensures b.key != "gutters" {
            var j :| 0 <= j < |obs[1..]| && obs[1..][j] == b;
            assert obs[j + 1] == b;
          }
        }
      } else {
        NotifyGuttersRefresh(e, obs[1..]);
      }
    }
  }

  /**
   * Setting `gutters` to a new value with the component's `refresh` observer
   * bound (ivy-codemirror.js:123) stores the property and refreshes the
   * widget once; without that observer only the property changes.
   */
  lemma SetGuttersRefreshes(e: Editor, v: Val)
    requires Get(e.comp, "gutters") != v
    requires GuttersObservedByRefresh(e.comp.observers)
    ensures Set(e, "gutters", v) ==
      if Binding("gutters", OnRefresh) in e.comp.observers then RefreshEditor(WithProp(e, "gutters", v)) else WithProp(e, "gutters", v)
  {
    NotifyGuttersRefresh(WithProp(e, "gutters", v), e.comp.observers);
  }

  /** Option observers for keys other than `gutters`, then `refresh` and the sync, bind `gutters` once, to `refresh`. */
  lemma InitObserversRefreshFrom(obs: seq<Binding>, keys: seq<string>)
    requires forall b :: b in obs ==> b.key != "gutters"
    requires "gutters" !in keys
    ensures var all := obs + (OptionBindings(keys) + [Binding("gutters", OnRefresh), Binding("value", OnValue)]);
      GuttersObservedByRefresh(all) && Binding("gutters", OnRefresh) in all
  {
    var pre := obs + OptionBindings(keys);
    var all := pre + [Binding("gutters", OnRefresh), Binding("value", OnValue)];
    assert obs + (OptionBindings(keys) + [Binding("gutters", OnRefresh), Binding("value", OnValue)]) == all;
    OptionBindingsKeys(keys);
    forall i | 0 <= i < |all| && all[i].key == "gutters" ensures i == |pre| {
      if i < |pre| {
        assert false;
      }
    }
    assert all[|pre|] == Binding("gutters", OnRefresh);
  }

  /**
   * An editor holding the observers `InitCodeMirror` registers (after any
   * observers of other keys) answers a new `gutters` value with exactly one
   * `refresh()` and no option change.
   */
  lemma SetGuttersWithInitObservers(e: Editor, obs: seq<Binding>, v: Val)
    requires forall b :: b in obs ==> b.key != "gutters"
    requires e.comp.observers == obs + InitObservers()
    requires Get(e.comp, "gutters") != v
    ensures Set(e, "gutters", v).cm.calls == e.cm.calls + [Refreshed]
    ensures Set(e, "gutters", v).cm.options == e.cm.options
    ensures Get(Set(e, "gutters", v).comp, "gutters") == v
  {
    IvyOptions.GuttersUnmirrored();
    InitObserversRefreshFrom(obs, MirroredKeys);
    SetGuttersRefreshes(e, v);
  }

  /** Once set up, tearing down leaves no observer and no widget listener behind. */
  lemma InitThenDestroy(props: map<string, Val>, text: string, options: map<string, Val>)
    ensures var e := WillDestroyElement(InitCodeMirror(NewComponent(props), text, options));
      e.comp.observers == [] && e.cm.listeners == []
  {
    InitCodeMirrorPaired(props, text, options);
    DestroyClears(InitCodeMirror(NewComponent(props), text, options));
  }
}
