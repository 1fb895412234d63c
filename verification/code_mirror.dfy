/**
 * The editor widget as an abstract record. Only the calls the components
 * make are modelled: `getValue`/`setValue`, `getOption`/`setOption`,
 * `setSize`, `refresh`, `on`/`off`. Buffer writes, size changes and
 * refreshes are also appended to a call log, so that "no write happened"
 * can be stated.
 */
module CodeMirror {

  /** The JavaScript values the components pass around. */
  datatype Val =
    | Undefined
    | Null
    | Bool(b: bool)
    | Num(n: int)
    | Str(s: string)
    | List(items: seq<string>)
    | Opaque(id: nat)          // objects such as `extraKeys` or a mode object

  /** JavaScript truthiness (`NaN` aside, as numbers are integers here). */
  predicate Truthy(v: Val) {
    match v
    case Undefined => false
    case Null => false
    case Bool(b) => b
    case Num(n) => n != 0
    case Str(s) => s != ""
    case List(_) => true
    case Opaque(_) => true
  }

  /** `v || ''` for a string-or-null property: the string, or `''` otherwise. */
  function OrEmpty(v: Val): (r: string)
    ensures v.Str? ==> r == v.s
    ensures !v.Str? ==> r == ""
  {
    if v.Str? then v.s else ""
  }

  /** A handler registered with `on(event, callback)`; the callback is named by the component method it runs. */
  datatype Listener = Listener(event: string, handler: string)

  datatype Call = ValueWritten(text: string) | Resized(width: Val, height: Val) | Refreshed

  datatype Widget = Widget(
    buffer: string,
    options: map<string, Val>,
    listeners: seq<Listener>,
    calls: seq<Call>)

  /** The last call made on `w` was `c`. */
  predicate LastCall(w: Widget, c: Call) {
    |w.calls| > 0 && w.calls[|w.calls| - 1] == c
  }

  /** A widget built over some content with the library's option set. */
  function Create(buffer: string, options: map<string, Val>): (w: Widget)
    ensures w.buffer == buffer && w.options == options
    ensures w.listeners == [] && w.calls == []
  {
    Widget(buffer, options, [], [])
  }

  function GetOption(w: Widget, key: string): Val {
    if key in w.options then w.options[key] else Undefined
  }

  function SetValue(w: Widget, text: string): (w': Widget)
    ensures w'.buffer == text
    ensures w'.calls == w.calls + [ValueWritten(text)]
    ensures w'.options == w.options && w'.listeners == w.listeners
  {
    w.(buffer := text, calls := w.calls + [ValueWritten(text)])
  }

  function SetOption(w: Widget, key: string, v: Val): (w': Widget)
    ensures GetOption(w', key) == v
    ensures forall k :: k != key ==> GetOption(w', k) == GetOption(w, k)
    ensures w'.buffer == w.buffer && w'.listeners == w.listeners && w'.calls == w.calls
  {
    w.(options := w.options[key := v])
  }

  function SetSize(w: Widget, width: Val, height: Val): (w': Widget)
    ensures w'.calls == w.calls + [Resized(width, height)]
    ensures w'.buffer == w.buffer && w'.options == w.options && w'.listeners == w.listeners
  {
    w.(calls := w.calls + [Resized(width, height)])
  }

  function Refresh(w: Widget): (w': Widget)
    ensures w'.calls == w.calls + [Refreshed]
    ensures w'.buffer == w.buffer && w'.options == w.options && w'.listeners == w.listeners
  {
    w.(calls := w.calls + [Refreshed])
  }

  function On(w: Widget, l: Listener): (w': Widget)
    ensures w'.listeners == w.listeners + [l]
    ensures w'.buffer == w.buffer && w'.options == w.options && w'.calls == w.calls
  {
    w.(listeners := w.listeners + [l])
  }

  function Off(w: Widget, l: Listener): (w': Widget)
    ensures w'.listeners == RemoveFirst(w.listeners, l)
    ensures w'.buffer == w.buffer && w'.options == w.options && w'.calls == w.calls
  {
    w.(listeners := RemoveFirst(w.listeners, l))
  }

  /** `array.indexOf(x)`: the first position of `x`, or -1. */
  function IndexOf<T(==)>(s: seq<T>, x: T): (i: int)
    ensures -1 <= i < |s|
    ensures i == -1 <==> x !in s
    ensures i >= 0 ==> s[i] == x && x !in s[..i]
    decreases |s|
  {
    if |s| == 0 then -1
    else if s[0] == x then 0
    else
      var j := IndexOf(s[1..], x);
      assert s[1..][..if j >= 0 then j else 0] == s[1..if j >= 0 then j + 1 else 1];
      if j == -1 then -1 else j + 1
  }

  /** Removes the first occurrence of `x`, if any. */
  function RemoveFirst<T(==)>(s: seq<T>, x: T): (r: seq<T>)
    ensures x !in s ==> r == s
    ensures x in s ==> |r| == |s| - 1 && multiset(r) == multiset(s) - multiset{x}
    ensures |s| > 0 && s[0] == x ==> r == s[1..]
    // the removed element is the first occurrence, and the others keep their order
    ensures x in s ==> exists i :: 0 <= i < |s| && s[i] == x && x !in s[..i] && r == s[..i] + s[i + 1..]
  {
    var i := IndexOf(s, x);
    if i < 0 then s
    else
      assert s == s[..i] + [x] + s[i + 1..];
      s[..i] + s[i + 1..]
  }
}
