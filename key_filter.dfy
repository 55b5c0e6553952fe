/** The hotkey killer injected into every chart frame before typing: a
    capturing `keydown` listener that swallows Shift+S (sell), Shift+B (buy)
    and F (full screen) unless the event targets an INPUT element, and the
    keystrokes the updater sends when it types a symbol. */
module KeyFilter {
  import opened Text

  /** The parts of a `KeyboardEvent` the listener reads: `e.target.tagName`,
      `e.key` and `e.shiftKey`. */
  datatype KeyEvent = KeyEvent(targetTag: string, key: string, shift: bool)

  /** True when the listener calls `stopImmediatePropagation` and
      `preventDefault`, so the chart widget never sees the event. */
  predicate Blocked(e: KeyEvent)
  {
    if e.targetTag == "INPUT" then false
    else
      var key := Lower(e.key);
      (e.shift && (key == "s" || key == "b")) || key == "f"
  }

  /** A key string whose lower-case form is a single given lower-case letter
      is that letter or its capital. */
  lemma LowerIsLetter(key: string, c: char)
    requires 'a' <= c <= 'z'
    ensures Lower(key) == [c] <==> key == [c] || key == [(c as int - 32) as char]
  {
  }

  /** The filter, stated key by key: it blocks an event exactly when the
      target is not an INPUT and the key is f or F, or shift is held and the
      key is s, S, b or B. Every other key, plain s and b included, passes. */
  lemma BlockedExactly(e: KeyEvent)
    ensures Blocked(e) <==>
      e.targetTag != "INPUT" &&
      (e.key in {"f", "F"} || (e.shift && e.key in {"s", "S", "b", "B"}))
  {
    LowerIsLetter(e.key, 'f');
    LowerIsLetter(e.key, 's');
    LowerIsLetter(e.key, 'b');
    assert [('f' as int - 32) as char] == "F";
    assert [('s' as int - 32) as char] == "S";
    assert [('b' as int - 32) as char] == "B";
  }

  /** `actions.send_keys(text)`: one keydown per character, with shift held for
      a capital letter. The keys spell the text, all on the same target, and a
      keystroke holds shift exactly when lower-casing changes its key. */
  function Keystrokes(targetTag: string, text: string): (ks: seq<KeyEvent>)
    ensures |ks| == |text|
    ensures forall i :: 0 <= i < |ks| ==> ks[i].targetTag == targetTag && |ks[i].key| == 1 && ks[i].key[0] == text[i]
    ensures forall i :: 0 <= i < |ks| ==> (ks[i].shift <==> Lower(ks[i].key) != ks[i].key)
  {
    seq(|text|, i requires 0 <= i < |text| => KeyEvent(targetTag, [text[i]], IsUpper(text[i])))
  }

  /** `symbol.lower()`: the text the updater types for a symbol. */
  function TypedText(symbol: string): (t: string)
    ensures |t| == |symbol|
    ensures forall i :: 0 <= i < |t| ==> !IsUpper(t[i])
  {
    Lower(symbol)
  }

  /** Typing a lower-cased symbol never holds shift, so the shifted trade keys
      are never produced; a keystroke of it is swallowed only when it is an f
      typed outside an INPUT. */
  lemma TypedKeystrokeBlocked(targetTag: string, symbol: string, i: nat)
    requires i < |symbol|
    ensures !Keystrokes(targetTag, TypedText(symbol))[i].shift
    ensures Blocked(Keystrokes(targetTag, TypedText(symbol))[i]) <==>
      targetTag != "INPUT" && TypedText(symbol)[i] == 'f'
  {
  }

  /** Without the lower-casing, the first keystroke of "SBIN" typed on the
      chart canvas would be Shift+S, which the filter swallows; after it, the
      same keystroke passes. */
  lemma LowercasingAvoidsTradeKeys()
    ensures Blocked(Keystrokes("CANVAS", "SBIN")[0])
    ensures !Blocked(Keystrokes("CANVAS", TypedText("SBIN"))[0])
    ensures TypedText("SBIN") == "sbin"
  {
  }

  /** The Enter that confirms the search is never swallowed. */
  lemma EnterPasses(targetTag: string, shift: bool)
    ensures !Blocked(KeyEvent(targetTag, "Enter", shift))
  {
  }
}
