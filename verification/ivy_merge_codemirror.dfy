/**
 * The merge component: the base component over a three-pane merge widget.
 * The editable middle pane is the base component's widget; the original
 * panes on the left (optional) and on the right hold `leftValue` and
 * `rightValue`. Options are copied to the originals once, when they are
 * bound; sizes go to every pane.
 */
module IvyMergeCodeMirror {
  import opened Wrappers
  import opened CodeMirror
  import opened IvyOptions
  import opened IvyCodeMirror

  /** The observer methods the merge component adds. */
  const OnLeftValue := "_leftValueDidChange"
  const OnRightValue := "_rightValueDidChange"

  /** The gap-height equaliser `updateSize` hangs on the right pane. */
  const GapListener := Listener("update", "equalizeGapHeight")

  /** The merge widget's three panes, and the component whose `codeMirror` is the middle one. */
  datatype Merge = Merge(base: Editor, left: Option<Widget>, right: Widget)

  /** The declared property defaults: the base component's plus the merge ones. */
  function MergeDefaults(): map<string, Val> {
    Defaults() + map[
      "target" := Null, "value" := Null, "leftValue" := Null, "rightValue" := Null,
      "panels" := Num(2), "revertButtons" := Bool(false), "connect" := Str("align"),
      "collapseIdentical" := Bool(false), "allowEditingOriginals" := Bool(false),
      "showDifferences" := Bool(false)]
  }

  /** The option keys the fan-out never copies to the original panes. */
  predicate FannedOut(key: string) {
    key != "value" && key != "origLeft" && key != "origRight" && key != "readOnly"
  }

  // ---------------------------------------------------------------------------
  // Construction
  // ---------------------------------------------------------------------------

  /**
   * The left seed: `leftValue` when truthy, otherwise `''` with three panels
   * and `null` (no left pane) with any other panel count.
   */
  function LeftSeed(c: Component): (r: Option<string>)
    ensures r.Some? <==> Truthy(Get(c, "leftValue")) || Get(c, "panels") == Num(3)
    ensures r.Some? && Get(c, "leftValue").Str? ==> r.value == Get(c, "leftValue").s
    ensures r.Some? && !Get(c, "leftValue").Str? ==> r.value == ""
  {
    var lv := Get(c, "leftValue");
    if Truthy(lv) then Some(OrEmpty(lv))
    else if Get(c, "panels") == Num(3) then Some("")
    else None
  }

  /** A seed as the value handed to the merge widget. */
  function SeedVal(seed: Option<string>): Val {
    match seed
    case Some(s) => Str(s)
    case None => Null
  }

  /**
   * `_createCodeMirror`: the merge widget is built from the three seeds. The
   * middle pane gets the library's options together with the seeds it was
   * given (`value`, `origLeft`, `origRight`); the originals get `originals`.
   * A left pane exists exactly when its seed is not `null`.
   */
  function CreateMerge(c: Component, library: map<string, Val>, originals: map<string, Val>): (m: Merge)
    ensures m.base.comp == c
    ensures m.base.cm.buffer == OrEmpty(Get(c, "value"))
    ensures m.right.buffer == OrEmpty(Get(c, "rightValue"))
    ensures m.left.Some? <==> Truthy(Get(c, "leftValue")) || Get(c, "panels") == Num(3)
    ensures m.left.Some? ==> m.left.value.buffer == LeftSeed(c).value
    ensures GetOption(m.base.cm, "value") == Str(OrEmpty(Get(c, "value")))
    ensures GetOption(m.base.cm, "origLeft") == SeedVal(LeftSeed(c))
    ensures GetOption(m.base.cm, "origRight") == Str(OrEmpty(Get(c, "rightValue")))
    ensures m.base.cm.listeners == [] && m.right.listeners == []
  {
    var value := OrEmpty(Get(c, "value"));
    var left := LeftSeed(c);
    var right := OrEmpty(Get(c, "rightValue"));
    var seeds := map["value" := Str(value), "origLeft" := SeedVal(left), "origRight" := Str(right)];
    var edit := Create(value, library + seeds);
    var leftPane := match left
      case Some(s) => Some(Create(s, originals))
      case None => None;
    Merge(Editor(c, edit), leftPane, Create(right, originals))
  }

  // ---------------------------------------------------------------------------
  // Option fan-out
  // ---------------------------------------------------------------------------

  /** Copies every option of `source` except the skipped keys onto `target`. */
  function CopyOptions(target: Widget, source: Widget): (w: Widget)
    ensures forall k :: FannedOut(k) && k in source.options ==> GetOption(w, k) == GetOption(source, k)
    ensures forall k :: !(FannedOut(k) && k in source.options) ==> GetOption(w, k) == GetOption(target, k)
    ensures w.buffer == target.buffer && w.listeners == target.listeners && w.calls == target.calls
  {
    var keys := target.options.Keys + set k | k in source.options && FannedOut(k);
    target.(options := map k | k in keys ::
      if FannedOut(k) && k in source.options then source.options[k] else target.options[k])
  }

  /** The fan-out half of `_bindOptions`: the middle pane's options reach each present original pane. */
  function FanOut(m: Merge): (m': Merge)
    ensures m'.base == m.base
    ensures m'.left.Some? <==> m.left.Some?
    ensures forall k :: FannedOut(k) && k in m.base.cm.options ==> GetOption(m'.right, k) == GetOption(m.base.cm, k)
    ensures forall k :: !(FannedOut(k) && k in m.base.cm.options) ==> GetOption(m'.right, k) == GetOption(m.right, k)
    ensures m.left.Some? ==>
      && (forall k :: FannedOut(k) && k in m.base.cm.options ==> GetOption(m'.left.value, k) == GetOption(m.base.cm, k))
      && (forall k :: !(FannedOut(k) && k in m.base.cm.options) ==> GetOption(m'.left.value, k) == GetOption(m.left.value, k))
    ensures m'.right.buffer == m.right.buffer && m'.right.listeners == m.right.listeners && m'.right.calls == m.right.calls
    ensures m.left.Some? ==>
      && m'.left.value.buffer == m.left.value.buffer
      && m'.left.value.listeners == m.left.value.listeners
      && m'.left.value.calls == m.left.value.calls
  {
    var edit := m.base.cm;
    var left := match m.left
      case Some(w) => Some(CopyOptions(w, edit))
      case None => None;
    Merge(m.base, left, CopyOptions(m.right, edit))
  }

  /**
   * `_bindOptions` of the merge component: the base binding on the middle
   * pane, then the fan-out (see `FansOutFrom`).
   */
  function MergeBindOptions(m: Merge): (m': Merge)
    ensures m'.base == BindOptions(m.base)
  {
    MergeBindOptionsFrom(m, MirroredKeys)
  }

  /**
   * After `_bindOptions` (for any list of option keys) the panes are those
   * there were, and each original pane agrees with the middle pane on every
   * option the middle pane carries except `value`, `origLeft`, `origRight`
   * and `readOnly`, which keep their values.
   */
  lemma FansOutFrom(m: Merge, keys: seq<string>)
    ensures var m' := MergeBindOptionsFrom(m, keys);
      && (m'.left.Some? <==> m.left.Some?)
      && (forall k :: FannedOut(k) && k in m'.base.cm.options ==> GetOption(m'.right, k) == GetOption(m'.base.cm, k))
      && (forall k :: !FannedOut(k) ==> GetOption(m'.right, k) == GetOption(m.right, k))
      && (m'.left.Some? ==>
        forall k :: FannedOut(k) && k in m'.base.cm.options ==> GetOption(m'.left.value, k) == GetOption(m'.base.cm, k))
  {
  }

  /** `MergeBindOptions` for any list of option keys. */
  function MergeBindOptionsFrom(m: Merge, keys: seq<string>): (m': Merge)
    ensures m'.base == BindOptionsFrom(m.base, keys)
    ensures forall k :: FannedOut(k) && k in m'.base.cm.options ==> GetOption(m'.right, k) == GetOption(m'.base.cm, k)
    ensures forall k :: !FannedOut(k) ==> GetOption(m'.right, k) == GetOption(m.right, k)
    ensures m'.left.Some? <==> m.left.Some?
    ensures m'.left.Some? ==>
      && (forall k :: FannedOut(k) && k in m'.base.cm.options ==> GetOption(m'.left.value, k) == GetOption(m'.base.cm, k))
      && (forall k :: !FannedOut(k) ==> GetOption(m'.left.value, k) == GetOption(m.left.value, k))
    ensures m'.right.buffer == m.right.buffer && m'.right.listeners == m.right.listeners
  {
    FanOut(m.(base := BindOptionsFrom(m.base, keys)))
  }

  // ---------------------------------------------------------------------------
  // Value sync of the original panes
  // ---------------------------------------------------------------------------

  /** `_leftValueDidChange`: nothing without a left pane, the guarded write otherwise. */
  function LeftValueDidChange(m: Merge): (m': Merge)
    ensures m'.base == m.base && m'.right == m.right
    ensures m.left.None? ==> m' == m
    ensures m.left.Some? ==> m'.left.Some? && m'.left.value == SyncBuffer(m.left.value, Get(m.base.comp, "leftValue"))
  {
    match m.left
    case Some(w) => m.(left := Some(SyncBuffer(w, Get(m.base.comp, "leftValue"))))
    case None => m
  }

  /** `_rightValueDidChange`: the guarded write on the right pane. */
  function RightValueDidChange(m: Merge): (m': Merge)
    ensures m'.base == m.base && m'.left == m.left
    ensures m'.right == SyncBuffer(m.right, Get(m.base.comp, "rightValue"))
  {
    m.(right := SyncBuffer(m.right, Get(m.base.comp, "rightValue")))
  }

  /** `_bindProperties` of the merge component: the base bindings, then `leftValue` and `rightValue`, each synced right away. */
  function MergeBindProperties(m: Merge): (m': Merge)
    ensures m'.base.comp.observers == BindProperties(m.base).comp.observers +
      [Binding("leftValue", OnLeftValue), Binding("rightValue", OnRightValue)]
    ensures m'.base.comp.hooks == BindProperties(m.base).comp.hooks +
      [WillDestroy(RemoveObserver(Binding("leftValue", OnLeftValue))),
       WillDestroy(RemoveObserver(Binding("rightValue", OnRightValue)))]
    ensures m'.base.cm == BindProperties(m.base).cm
    ensures m'.base.comp.props == BindProperties(m.base).comp.props
    ensures m'.base.comp.sent == BindProperties(m.base).comp.sent
    ensures m'.right.buffer == OrEmpty(Get(m.base.comp, "rightValue"))
    ensures m'.left.Some? <==> m.left.Some?
    ensures m.left.Some? ==> m'.left.value.buffer == OrEmpty(Get(m.base.comp, "leftValue"))
    ensures m'.right.options == m.right.options && m'.right.listeners == m.right.listeners
    ensures m.left.Some? ==> m'.left.value.options == m.left.value.options && m'.left.value.listeners == m.left.value.listeners
  {
    var b1 := BindProperties(m.base);
    var m1 := LeftValueDidChange(m.(base := BindCodeMirrorProperty(b1, "leftValue", OnLeftValue)));
    RightValueDidChange(m1.(base := BindCodeMirrorProperty(m1.base, "rightValue", OnRightValue)))
  }

  // ---------------------------------------------------------------------------
  // Size
  // ---------------------------------------------------------------------------

  /**
   * `updateSize` of the merge component: the base resize of the middle pane,
   * one more gap-height listener on the right pane, then the same size for
   * each present original pane.
   */
  function MergeUpdateSize(m: Merge): (m': Merge)
    ensures var size := Resized(Get(m.base.comp, "width"), Get(m.base.comp, "height"));
      && m'.base.comp == m.base.comp
      && m'.base.cm.calls == m.base.cm.calls + [size]
      && m'.right.calls == m.right.calls + [size]
      && m'.right.listeners == m.right.listeners + [GapListener]
      && (m.left.Some? ==> m'.left.Some? && m'.left.value.calls == m.left.value.calls + [size])
      && (m.left.None? ==> m'.left.None?)
    ensures m'.base.cm.options == m.base.cm.options && m'.base.cm.listeners == m.base.cm.listeners
    ensures m'.base.cm.buffer == m.base.cm.buffer
    ensures m'.right.buffer == m.right.buffer && m'.right.options == m.right.options
    ensures m.left.Some? ==>
      && m'.left.value.buffer == m.left.value.buffer
      && m'.left.value.options == m.left.value.options
      && m'.left.value.listeners == m.left.value.listeners
  {
    var b := UpdateSize(m.base);
    var w := Get(m.base.comp, "width");
    var h := Get(m.base.comp, "height");
    var right := On(m.right, GapListener);
    var left := match m.left
      case Some(l) => Some(SetSize(l, w, h))
      case None => None;
    Merge(b, left, SetSize(right, w, h))
  }

  /** `_triggerUpdates` with the merge `updateSize`; the lint updater is the one written, on the middle pane. */
  function MergeTriggerUpdates(m: Merge): (m': Merge)
    ensures m'.base.comp.hooks == m.base.comp.hooks + [BecameVisible]
    ensures m'.base.comp.observers == m.base.comp.observers && m'.base.cm.listeners == m.base.cm.listeners
    ensures forall k :: k != "gutters" ==> Get(m'.base.comp, k) == Get(m.base.comp, k)
    ensures GetOption(m'.base.cm, "lint") == Bool(Truthy(Get(m.base.comp, "lint")))
    ensures !Truthy(Get(m.base.comp, "lint")) && LintMarker !in Gutters(m.base.comp) ==>
      GetOption(m'.base.cm, "gutters") == GetOption(m.base.cm, "gutters")
    ensures m'.right.listeners == m.right.listeners + [GapListener]
    ensures m'.right.buffer == m.right.buffer && m'.right.options == m.right.options
    ensures m'.left.Some? <==> m.left.Some?
    ensures m.left.Some? ==> m'.left.value.buffer == m.left.value.buffer && m'.left.value.options == m.left.value.options
  {
    var c := m.base.comp;
    var b := UpdateLintGutterAsWritten(m.base.(comp := c.(hooks := c.hooks + [BecameVisible])));
    MergeUpdateSize(m.(base := b))
  }

  /** `didInsertElement` for the merge component: create, bind events, options and properties, run the updaters. */
  function MergeInit(c: Component, library: map<string, Val>, originals: map<string, Val>): (m: Merge)
    ensures InitPanes(c, m)
  {
    CreatedStages(c, library, originals, MirroredKeys);
    MergeStages(MergeCreated(c, library, originals), MirroredKeys)
  }

  /**
   * The panes after insertion: a left pane exactly when `leftValue` is truthy
   * or three panels were asked for, each original pane holding its property
   * (or `''`), and one gap-height listener on the right pane.
   */
  predicate InitPanes(c: Component, m: Merge) {
    && (m.left.Some? <==> Truthy(Get(c, "leftValue")) || Get(c, "panels") == Num(3))
    && (m.left.Some? ==> m.left.value.buffer == OrEmpty(Get(c, "leftValue")))
    && m.right.buffer == OrEmpty(Get(c, "rightValue"))
    && m.right.listeners == [GapListener]
  }

  /** The facts `MergeInit` states, for any list of option keys. */
  lemma CreatedStages(c: Component, library: map<string, Val>, originals: map<string, Val>, keys: seq<string>)
    ensures InitPanes(c, MergeStages(MergeCreated(c, library, originals), keys))
  {
    var m1 := MergeCreated(c, library, originals);
    CreatedProps(c, library, originals, "leftValue");
    CreatedProps(c, library, originals, "rightValue");
    assert m1.right.listeners == [];
    assert m1.left.Some? <==> Truthy(Get(c, "leftValue")) || Get(c, "panels") == Num(3);
  }

  /** The merge widget just created, with the middle pane's events bound. */
  function MergeCreated(c: Component, library: map<string, Val>, originals: map<string, Val>): (m: Merge)
    ensures m.base.comp == c.(hooks := c.hooks + [WillDestroy(OffWidget(EditListeners[0])), WillDestroy(OffWidget(EditListeners[1]))])
    ensures m.left == CreateMerge(c, library, originals).left
    ensures m.right == CreateMerge(c, library, originals).right
  {
    var m0 := CreateMerge(c, library, originals);
    m0.(base := BindEvents(m0.base))
  }

  /** The stages after the events are bound, with `keys` as the mirrored options. */
  function MergeStages(m1: Merge, keys: seq<string>): (m: Merge)
    ensures m.left.Some? <==> m1.left.Some?
    ensures m.left.Some? ==> m.left.value.buffer == OrEmpty(Get(m1.base.comp, "leftValue"))
    ensures m.right.buffer == OrEmpty(Get(m1.base.comp, "rightValue"))
    ensures m.right.listeners == m1.right.listeners + [GapListener]
  {
    MergeTriggerUpdates(MergeBindProperties(MergeBindOptionsFrom(m1, keys)))
  }

  // ---------------------------------------------------------------------------
  // Property changes and teardown
  // ---------------------------------------------------------------------------

  /** Runs one observer: the two merge handlers act on the original panes, the rest on the middle pane. */
  function MergeDispatch(m: Merge, handler: string, key: string): (m': Merge)
    ensures SameBindings(m.base, m'.base)
    ensures handler != OnValue ==> m'.base.comp == m.base.comp
    ensures forall k :: k != "value" ==> Get(m'.base.comp, k) == Get(m.base.comp, k)
    ensures handler == OnOption ==> GetOption(m'.base.cm, key) == Get(m.base.comp, key)
    ensures handler != OnLeftValue ==> m'.left == m.left
    ensures handler != OnRightValue ==> m'.right == m.right
    ensures handler == OnLeftValue || handler == OnRightValue ==> m'.base == m.base
  {
    if handler == OnLeftValue then LeftValueDidChange(m)
    else if handler == OnRightValue then RightValueDidChange(m)
    else m.(base := Dispatch(m.base, handler, key))
  }

  /** Runs, in registration order, every observer in `obs` bound to `key`. */
  function MergeNotify(m: Merge, key: string, obs: seq<Binding>): (m': Merge)
    ensures SameBindings(m.base, m'.base)
    ensures forall k :: k != "value" ==> Get(m'.base.comp, k) == Get(m.base.comp, k)
    ensures (forall b :: b in obs && b.key == key ==> b.handler != OnValue) ==> m'.base.comp == m.base.comp
    ensures (forall b :: b in obs && b.key == key ==> b.handler != OnLeftValue) ==> m'.left == m.left
    ensures (forall b :: b in obs && b.key == key ==> b.handler != OnRightValue) ==> m'.right == m.right
    ensures (forall b :: b in obs ==> b.key != key) ==> m' == m
    decreases |obs|
  {
    if |obs| == 0 then m
    else
      var m1 := if obs[0].key == key then MergeDispatch(m, obs[0].handler, key) else m;
      MergeNotify(m1, key, obs[1..])
  }

  /**
   * `this.set(key, v)` on the merge component. As in the base component,
   * only `value` (through the echo of a middle-pane write) and, for `lint`,
   * `gutters` change besides `key`.
   */
  function MergeSet(m: Merge, key: string, v: Val): (m': Merge)
    ensures key != "value" ==> Get(m'.base.comp, key) == v
    ensures forall k :: k != key && k != "value" && (key != "lint" || k != "gutters") ==>
      Get(m'.base.comp, k) == Get(m.base.comp, k)
    ensures Get(m.base.comp, key) == v ==> m' == m
    ensures SameBindings(m.base, m'.base)
  {
    if Get(m.base.comp, key) == v then m
    else
      var m1 := m.(base := WithProp(m.base, key, v));
      var m2 := MergeNotify(m1, key, m.base.comp.observers);
      if key == "lint" then m2.(base := UpdateLintGutterAsWritten(m2.base))
      else if key == "width" || key == "height" then MergeUpdateSize(m2)
      else m2
  }

  /** `willDestroyElement` of the merge component: the teardowns registered on the component run; the panes are not touched. */
  function MergeWillDestroy(m: Merge): (m': Merge)
    ensures m'.left == m.left && m'.right == m.right
  {
    m.(base := WillDestroyElement(m.base))
  }

  /** `n` resizes in a row. */
  function Resizes(m: Merge, n: nat): Merge
    decreases n
  {
    if n == 0 then m else Resizes(MergeUpdateSize(m), n - 1)
  }

  // ---------------------------------------------------------------------------
  // Properties
  // ---------------------------------------------------------------------------

  /**
   * Running the option observers of `key` on the merge component leaves the
   * middle pane's option holding the property.
   */
  lemma {:induction false} MergeNotifyOption(m: Merge, key: string, obs: seq<Binding>)
    requires Binding(key, OnOption) in obs
    requires forall b :: b in obs && b.key == key ==> b.handler == OnOption
    ensures GetOption(MergeNotify(m, key, obs).base.cm, key) == Get(m.base.comp, key)
    decreases |obs|
  {
    var m1 := if obs[0].key == key then MergeDispatch(m, obs[0].handler, key) else m;
    assert MergeNotify(m, key, obs) == MergeNotify(m1, key, obs[1..]);
    if Binding(key, OnOption) in obs[1..] {
      MergeNotifyOption(m1, key, obs[1..]);
    } else {
      assert obs[0] == Binding(key, OnOption);
      assert forall b :: b in obs[1..] ==> b in obs;
      assert GetOption(m1.base.cm, key) == Get(m.base.comp, key);
    }
  }

  /**
   * Options reach the original panes only when they are bound: a later
   * change of an option property updates the middle pane and leaves both
   * original panes as they were.
   */
  lemma OptionChangeStaysInMiddle(m: Merge, key: string, v: Val)
    requires key != "leftValue" && key != "rightValue" && key != "width" && key != "height" && key != "lint"
    requires Get(m.base.comp, key) != v
    requires Binding(key, OnOption) in m.base.comp.observers
    requires forall b :: b in m.base.comp.observers && b.key == key ==> b.handler == OnOption
    ensures var m' := MergeSet(m, key, v);
      && GetOption(m'.base.cm, key) == v
      && m'.left == m.left
      && m'.right == m.right
  {
    var m1 := m.(base := WithProp(m.base, key, v));
    MergeNotifyOption(m1, key, m.base.comp.observers);
  }

  /**
   * The guarded write settles after one run exactly when the property is a
   * string: any other value (`null`, a number) is written as `''`, which
   * never equals it, so every further run writes again.
   */
  lemma SyncSettles(w: Widget, value: Val)
    ensures SyncBuffer(SyncBuffer(w, value), value) == SyncBuffer(w, value) <==> value.Str?
  {
    var w1 := SyncBuffer(w, value);
    if !value.Str? {
      assert value != Str(w1.buffer);
    }
  }

  /** `_rightValueDidChange` run twice is run once exactly when `rightValue` is a string. */
  lemma RightSyncSettles(m: Merge)
    ensures RightValueDidChange(RightValueDidChange(m)) == RightValueDidChange(m)
      <==> Get(m.base.comp, "rightValue").Str?
  {
    SyncSettles(m.right, Get(m.base.comp, "rightValue"));
  }

  /** With a left pane, `_leftValueDidChange` run twice is run once exactly when `leftValue` is a string. */
  lemma LeftSyncSettles(m: Merge)
    requires m.left.Some?
    ensures LeftValueDidChange(LeftValueDidChange(m)) == LeftValueDidChange(m)
      <==> Get(m.base.comp, "leftValue").Str?
  {
    SyncSettles(m.left.value, Get(m.base.comp, "leftValue"));
  }

  /**
   * Every `updateSize` hangs one more gap-height listener on the right pane
   * and none is ever removed: after `n` resizes there are `n` more.
   */
  lemma {:induction false} GapListenersAccumulate(m: Merge, n: nat)
    ensures Resizes(m, n).right.listeners == m.right.listeners + seq(n, _ => GapListener)
    ensures Resizes(m, n).base.cm.listeners == m.base.cm.listeners
    decreases n
  {
    if n > 0 {
      var m1 := MergeUpdateSize(m);
      GapListenersAccumulate(m1, n - 1);
      assert m.right.listeners + seq(n, _ => GapListener)
        == (m.right.listeners + [GapListener]) + seq(n - 1, _ => GapListener);
    }
  }

  /** Creation binds only the middle pane's events: every property reads as it did. */
  lemma CreatedProps(c: Component, library: map<string, Val>, originals: map<string, Val>, k: string)
    ensures Get(MergeCreated(c, library, originals).base.comp, k) == Get(c, k)
  {
  }

  // After insertion there is a left pane exactly when `leftValue` is truthy
  // or three panels were asked for; each original pane holds its property
  // (or `''`), and the right pane carries one gap-height listener. Each fact
  // is its own lemma, so that each proof unfolds the stages once.

  lemma MergeInitLeftPane(c: Component, library: map<string, Val>, originals: map<string, Val>)
    requires Truthy(Get(c, "leftValue")) || Get(c, "panels") == Num(3)
    ensures MergeInit(c, library, originals).left.Some?
  {
    StagesPanes(MergeCreated(c, library, originals), MirroredKeys);
  }

  lemma MergeInitNoLeftPane(c: Component, library: map<string, Val>, originals: map<string, Val>)
    requires !Truthy(Get(c, "leftValue")) && Get(c, "panels") != Num(3)
    ensures MergeInit(c, library, originals).left.None?
  {
    StagesPanes(MergeCreated(c, library, originals), MirroredKeys);
  }

  lemma MergeInitLeftBuffer(c: Component, library: map<string, Val>, originals: map<string, Val>)
    ensures MergeInit(c, library, originals).left.Some? ==>
      MergeInit(c, library, originals).left.value.buffer == OrEmpty(Get(c, "leftValue"))
  {
    StagesPanes(MergeCreated(c, library, originals), MirroredKeys);
    CreatedProps(c, library, originals, "leftValue");
  }

  lemma MergeInitRightBuffer(c: Component, library: map<string, Val>, originals: map<string, Val>)
    ensures MergeInit(c, library, originals).right.buffer == OrEmpty(Get(c, "rightValue"))
  {
    StagesPanes(MergeCreated(c, library, originals), MirroredKeys);
    CreatedProps(c, library, originals, "rightValue");
  }

  lemma MergeInitGapListener(c: Component, library: map<string, Val>, originals: map<string, Val>)
    ensures MergeInit(c, library, originals).right.listeners == [GapListener]
  {
    StagesPanes(MergeCreated(c, library, originals), MirroredKeys);
  }

  /** The declared defaults: `leftValue` is `null` and two panels are asked for. */
  lemma MergeDefaultsPanes()
    ensures Get(NewComponent(MergeDefaults()), "leftValue") == Null
    ensures Get(NewComponent(MergeDefaults()), "panels") == Num(2)
  {
  }

  /** With the declared defaults the merge widget has no left pane. */
  lemma MergeDefaultsNoLeftPane(library: map<string, Val>, originals: map<string, Val>)
    ensures MergeInit(NewComponent(MergeDefaults()), library, originals).left.None?
  {
    MergeDefaultsPanes();
    MergeInitNoLeftPane(NewComponent(MergeDefaults()), library, originals);
  }

  /** The binding stages and the updaters keep the panes, sync their buffers and add one gap listener. */
  lemma StagesPanes(m1: Merge, keys: seq<string>)
    ensures var m := MergeStages(m1, keys);
      && (m.left.Some? <==> m1.left.Some?)
      && (m.left.Some? ==> m.left.value.buffer == OrEmpty(Get(m1.base.comp, "leftValue")))
      && m.right.buffer == OrEmpty(Get(m1.base.comp, "rightValue"))
      && m.right.listeners == m1.right.listeners + [GapListener]
  {
  }

  // At insertion every mirrored option except `readOnly` reaches the
  // original panes with the component's value; `readOnly`, like `value`,
  // `origLeft` and `origRight`, keeps the value the originals were created with.

  lemma MergeInitFansOutRight(c: Component, library: map<string, Val>, originals: map<string, Val>)
    ensures forall k :: k in MirroredKeys && FannedOut(k) ==> GetOption(MergeInit(c, library, originals).right, k) == Get(c, k)
  {
    StagesFanOut(MergeCreated(c, library, originals), MirroredKeys);
    forall k {
      CreatedProps(c, library, originals, k);
    }
  }

  lemma MergeInitFansOutLeft(c: Component, library: map<string, Val>, originals: map<string, Val>)
    ensures MergeInit(c, library, originals).left.Some? ==>
      forall k :: k in MirroredKeys && FannedOut(k) ==> GetOption(MergeInit(c, library, originals).left.value, k) == Get(c, k)
  {
    StagesFanOut(MergeCreated(c, library, originals), MirroredKeys);
    forall k {
      CreatedProps(c, library, originals, k);
    }
  }

  lemma MergeInitKeepsSkipped(c: Component, library: map<string, Val>, originals: map<string, Val>)
    ensures forall k :: !FannedOut(k) ==>
      GetOption(MergeInit(c, library, originals).right, k) == GetOption(CreateMerge(c, library, originals).right, k)
  {
    StagesFanOut(MergeCreated(c, library, originals), MirroredKeys);
  }

  /**
   * The option stage copies the bound options to the original panes, and the
   * later stages keep the copies; the skipped options keep their values.
   */
  lemma StagesFanOut(m1: Merge, keys: seq<string>)
    ensures var m := MergeStages(m1, keys);
      && (forall k :: k in keys && FannedOut(k) ==> GetOption(m.right, k) == Get(m1.base.comp, k))
      && (m.left.Some? ==> forall k :: k in keys && FannedOut(k) ==> GetOption(m.left.value, k) == Get(m1.base.comp, k))
      && (forall k :: !FannedOut(k) ==> GetOption(m.right, k) == GetOption(m1.right, k))
  {
    BindOptionsFromKeys(m1.base, keys);
  }

  /** After insertion, the component's teardowns undo exactly the bindings on the middle pane. */
  lemma MergeInitPaired(props: map<string, Val>, library: map<string, Val>, originals: map<string, Val>)
    ensures Paired(MergeInit(NewComponent(props), library, originals).base)
  {
    var m0 := CreateMerge(NewComponent(props), library, originals);
    assert Paired(m0.base);
    PairedBindEvents(m0.base);
    StagesPaired(MergeCreated(NewComponent(props), library, originals), MirroredKeys);
  }

  /** The option, property and updater stages keep each binding paired with its teardown. */
  lemma StagesPaired(m1: Merge, keys: seq<string>)
    requires Paired(m1.base)
    ensures Paired(MergeStages(m1, keys).base)
  {
    var m2 := MergeBindOptionsFrom(m1, keys);
    PairedBindOptionsFrom(m1.base, keys);
    var e := BindProperties(m2.base);
    PairedBindProperties(m2.base);
    var bs := [Binding("leftValue", OnLeftValue), Binding("rightValue", OnRightValue)];
    RemovalHooksPaired(bs);
    assert RemovalHooks(bs) == [WillDestroy(RemoveObserver(bs[0])), WillDestroy(RemoveObserver(bs[1]))];
    var m3 := MergeBindProperties(m2);
    PairedAppend(e, m3.base, RemovalHooks(bs), bs, []);
    var hs := [BecameVisible];
    assert Teardowns(hs) == [];
    PairedAppend(m3.base, MergeTriggerUpdates(m3).base, hs, [], []);
  }

  /**
   * Tearing down the merge component unbinds every observer and the middle
   * pane's listeners, but the gap-height listener on the right pane stays.
   */
  lemma MergeInitThenDestroy(props: map<string, Val>, library: map<string, Val>, originals: map<string, Val>)
    ensures var m := MergeWillDestroy(MergeInit(NewComponent(props), library, originals));
      && m.base.comp.observers == []
      && m.base.cm.listeners == []
      && m.right.listeners == [GapListener]
  {
    MergeInitPaired(props, library, originals);
    MergeInitGapListener(NewComponent(props), library, originals);
    DestroyClears(MergeInit(NewComponent(props), library, originals).base);
  }
}
