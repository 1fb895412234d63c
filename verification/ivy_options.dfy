/**
 * The editor component's declared properties: their defaults, and the ones
 * it forwards verbatim to options of the same name on the widget.
 */
module IvyOptions {
  import opened CodeMirror

  /** The properties forwarded verbatim to widget options, in binding order. */
  const MirroredKeys: seq<string> := [
    "autofocus", "coverGutterNextToScrollbar", "electricChars", "extraKeys",
    "firstLineNumber", "fixedGutter", "historyEventDelay", "indentUnit",
    "indentWithTabs", "keyMap", "lineNumbers", "lineWrapping", "mode",
    "readOnly", "rtlMoveVisually", "showCursorWhenSelecting", "smartIndent",
    "tabSize", "tabindex", "theme", "undoDepth"]

  /** The property defaults the component declares. */
  function Defaults(): map<string, Val> {
    map[
      "value" := Null,
      "autofocus" := Bool(false), "coverGutterNextToScrollbar" := Bool(false),
      "electricChars" := Bool(true), "extraKeys" := Null, "firstLineNumber" := Num(1),
      "fixedGutter" := Bool(false), "historyEventDelay" := Num(1250), "indentUnit" := Num(2),
      "indentWithTabs" := Bool(false), "keyMap" := Str("default"), "lineNumbers" := Bool(false),
      "lineWrapping" := Bool(false), "mode" := Null, "readOnly" := Bool(false),
      "rtlMoveVisually" := Bool(true), "showCursorWhenSelecting" := Bool(false),
      "smartIndent" := Bool(true), "tabSize" := Num(4), "tabindex" := Null,
      "theme" := Str("default"), "undoDepth" := Num(200),
      "lint" := Bool(false), "gutters" := List([]), "viewportMargin" := Num(10),
      "width" := Null, "height" := Null]
  }

  /** The declared default of `value` is `null`. */
  lemma DefaultValueNull()
    ensures "value" in Defaults() && Defaults()["value"] == Null
  {
  }

  // The properties with their own observers are not among the mirrored options.

  lemma GuttersUnmirrored()
    ensures "gutters" !in MirroredKeys
  {
  }

  lemma LintUnmirrored()
    ensures "lint" !in MirroredKeys
  {
  }

  lemma ViewportMarginUnmirrored()
    ensures "viewportMargin" !in MirroredKeys
  {
  }

  lemma ValueUnmirrored()
    ensures "value" !in MirroredKeys
  {
  }
}
