/** The one DOM operation both browser views share: marking a status element
    with `classList.toggle('closed', …)` and `classList.toggle('open', …)`. */
module Dom {
  import opened JsValues

  /** `classList.toggle(name, force)`: add `name` when `force` holds, remove it otherwise. */
  function Toggle(classes: set<string>, name: string, force: bool): (r: set<string>)
    ensures name in r <==> force
    ensures forall c :: c != name ==> (c in r <==> c in classes)
  {
    if force then classes + {name} else classes - {name}
  }

  /** The classes of a status element after it is set to `state`: `closed`
      exactly for `'closed'`, `open` exactly for `'opened'`, the rest untouched. */
  function MarkState(classes: set<string>, state: Value): (r: set<string>)
    ensures "closed" in r <==> state == Str("closed")
    ensures "open" in r <==> state == Str("opened")
    ensures forall c :: c != "closed" && c != "open" ==> (c in r <==> c in classes)
  {
    Toggle(Toggle(classes, "closed", state == Str("closed")), "open", state == Str("opened"))
  }

  /** Marking again replaces the earlier mark: the last state wins. */
  lemma MarkStateLastWins(classes: set<string>, first: Value, second: Value)
    ensures MarkState(MarkState(classes, first), second) == MarkState(classes, second)
  {
    var twice := MarkState(MarkState(classes, first), second);
    var once := MarkState(classes, second);
    assert forall c :: c in twice <==> c in once;
  }
}
