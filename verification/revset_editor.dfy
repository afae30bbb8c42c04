/**
 The revset input line: what was typed, what is previewed and the candidates offered (internal/ui/revset/revset.go).
 */
module RevsetEditor {
  import opened Text
  import opened RevsetScan
  import opened RevsetCompletion

  /** The candidate after or before the selected one, round and round; without a selection the first or the last. */
  function Neighbour(selected: int, n: nat, reverse: bool): (k: int)
    requires n > 0 && -1 <= selected < n
    ensures 0 <= k < n
    ensures selected >= 0 ==> k == (selected + if reverse then n - 1 else 1) % n
  {
    if reverse then (if selected <= 0 then n - 1 else selected - 1) else if selected + 1 >= n then 0 else selected + 1
  }

  class Editor {
    var provider: Provider
    var history: seq<string>
    var editing: bool
    var value: string      // the text in the input line
    var userInput: string  // what the user typed or accepted
    var items: seq<Completion>
    var selected: int

    /**
     While editing, the candidates are those for the typed text, and the line shows it or the selected candidate applied
     to it.
     */
    ghost predicate Valid()
      reads this
    {
      -1 <= selected && (selected >= 0 ==> selected < |items|) &&
      (editing ==> items == GetCompletionItems(provider, userInput, history) &&
                   value == if selected < 0 then userInput else ApplyCompletion(userInput, items[selected]))
    }

    constructor (provider: Provider, history: seq<string>, value: string)
      ensures Valid() && !editing && this.value == value && this.history == history
    {
      this.provider, this.history, this.value := provider, history, value;
      editing, userInput, items, selected := false, value, [], -1;
    }

    method UpdateCompletionItems()
      modifies this`items
      ensures items == GetCompletionItems(provider, userInput, history)
    {
      items := GetCompletionItems(provider, userInput, history);
    }

    method Edit(loaded: Provider, clear: bool)
      modifies this
      ensures Valid() && editing && selected == -1 && history == old(history) && provider == loaded
      ensures userInput == value == if clear then "" else old(value)
    {
      provider := loaded;
      editing := true;
      if clear { value, userInput := "", ""; } else { userInput := value; }
      selected := -1;
      UpdateCompletionItems();
    }

    /** Typing: whatever the line holds now is what the user typed. */
    method Type(text: string)
      requires Valid()
      modifies this
      ensures Valid() && editing == old(editing) && history == old(history) && provider == old(provider)
      ensures editing && text != old(value) ==> userInput == value == text && selected == -1
      ensures !editing || text == old(value) ==>
                value == old(value) && userInput == old(userInput) && selected == old(selected)
    {
      if !editing || text == value { return; }
      value, userInput, selected := text, text, -1;
      UpdateCompletionItems();
    }

    method Commit(item: Completion)
      modifies this`value, this`userInput, this`selected, this`items
      ensures value == userInput == ApplyCompletion(old(userInput), item) && selected == -1
      ensures items == GetCompletionItems(provider, userInput, history)
    {
      value := ApplyCompletion(userInput, item);
      userInput, selected := value, -1;
      UpdateCompletionItems();
    }

    /** The selected candidate is shown in the line; a named argument is accepted at once. */
    method Preview()
      requires editing && 0 <= selected < |items| && items == GetCompletionItems(provider, userInput, history)
      modifies this`value, this`userInput, this`selected, this`items
      ensures Valid()
      ensures value == ApplyCompletion(old(userInput), old(items)[old(selected)])
      ensures !old(items)[old(selected)].kind.Argument? ==> userInput == old(userInput) && selected == old(selected)
      ensures old(items)[old(selected)].kind.Argument? ==> userInput == value
    {
      var item := items[selected];
      if item.kind.Argument? {
        Commit(item);
      } else {
        value := ApplyCompletion(userInput, item);
      }
    }

    /** The next or previous candidate, round and round. */
    method Cycle(reverse: bool)
      requires Valid()
      modifies this`value, this`userInput, this`selected, this`items
      ensures Valid()
      ensures !editing || old(items) == [] ==>
                value == old(value) && userInput == old(userInput) && selected == old(selected)
      ensures editing && old(items) != [] ==>
                value == ApplyCompletion(old(userInput), old(items)[Neighbour(old(selected), |old(items)|, reverse)])
    {
      if !editing || |items| == 0 { return; }
      selected := Neighbour(selected, |items|, reverse);
      Preview();
    }

    method Move(delta: int)
      requires Valid()
      modifies this`value, this`userInput, this`selected, this`items
      ensures Valid()
      ensures !editing || old(items) == [] || delta == 0 ==>
                value == old(value) && userInput == old(userInput) && selected == old(selected)
      ensures editing && old(items) != [] && delta != 0 ==>
                value == ApplyCompletion(old(userInput), old(items)[Neighbour(old(selected), |old(items)|, delta < 0)])
    {
      if !editing || |items| == 0 || delta == 0 { return; }
      selected := Neighbour(selected, |items|, delta < 0);
      Preview();
    }

    /** A click accepts the candidate. */
    method Click(index: int)
      requires Valid()
      modifies this`value, this`userInput, this`selected, this`items
      ensures Valid()
      ensures 0 <= index < |old(items)| ==> value == userInput == ApplyCompletion(old(userInput), old(items)[index])
      ensures !(0 <= index < |old(items)|) ==> value == old(value) && userInput == old(userInput)
    {
      if 0 <= index < |items| { Commit(items[index]); }
    }

    method Leave()
      requires Valid()
      modifies this`editing
      ensures Valid() && !editing
    {
      editing := false;
    }

    /** The revset was set from outside; the candidates are left as they are until the next edit. */
    method SetRevset(text: string)
      requires Valid()
      modifies this
      ensures Valid() && !editing && value == userInput == text && items == old(items)
    {
      editing := false;
      value, userInput := text, text;
    }

    /** While editing, the line begins with everything typed, unless a history entry is previewed. */
    lemma TypedIsShown()
      requires Valid() && editing && NamedValuesHaveNames(provider) &&
               (selected >= 0 ==> !items[selected].kind.History?)
      ensures userInput <= value
    {
      if selected >= 0 { AcceptKeepsTyped(provider, userInput, history, selected); }
    }
  }
}
