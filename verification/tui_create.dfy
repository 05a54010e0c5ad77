/** The create screen (`updateCreate`): the four fields and, after them, the
    work item type selector, cycled with left and right. */
module TuiCreate {
  import opened Common
  import opened Client
  import opened TuiModel

  /** The selector follows the four text fields in the tab order. */
  const TypeSelector: int := 4

  /** tab/down and shift+tab/up: the focus moves round the four fields and the selector. */
  function CreateFocus(m: Model, forward: bool): (r: Model)
    requires Valid(m) && m.view == CreateView
    ensures Valid(r) && r.view == CreateView && r == m.(create := r.create)
    ensures Values(r.create.inputs) == Values(m.create.inputs)
    ensures r.create.typeIndex == m.create.typeIndex && r.create.types == m.create.types
    ensures r.create.focus == if forward then NextIndex(m.create.focus, 5) else PrevIndex(m.create.focus, 5)
  {
    var c := m.create;
    var f := if forward then NextIndex(c.focus, TypeSelector + 1) else PrevIndex(c.focus, TypeSelector + 1);
    m.(create := c.(focus := f, inputs := FocusOnly(c.inputs, f)))
  }

  /** left/right on the selector pick the previous or next type, wrapping
      round; elsewhere they do nothing here. */
  function SelectType(c: CreateForm, key: string): (r: CreateForm)
    requires 0 <= c.typeIndex < |c.types|
    ensures r == c.(typeIndex := r.typeIndex) && 0 <= r.typeIndex < |c.types|
    ensures r.typeIndex != c.typeIndex ==> c.focus == TypeSelector && (key == "left" || key == "right")
    ensures c.focus == TypeSelector && key == "right" ==> r.typeIndex == NextIndex(c.typeIndex, |c.types|)
    ensures c.focus == TypeSelector && key == "left" ==> r.typeIndex == PrevIndex(c.typeIndex, |c.types|)
  {
    if c.focus == TypeSelector && key == "left" then c.(typeIndex := PrevIndex(c.typeIndex, |c.types|))
    else if c.focus == TypeSelector && key == "right" then c.(typeIndex := NextIndex(c.typeIndex, |c.types|))
    else c
  }

  /** Keys that do not move the focus or submit: the selector reacts to
      left/right, then every key also goes to the focused field (if any). */
  function EditCreate(m: Model, key: string): (r: Model)
    requires Valid(m) && m.view == CreateView
    ensures Valid(r) && r.view == CreateView && r == m.(create := r.create)
    ensures r.create.focus == m.create.focus && r.create.types == m.create.types
    ensures r.create.typeIndex == SelectType(m.create, key).typeIndex
    ensures |r.create.inputs| == 4
    ensures forall i :: 0 <= i < 4 ==> r.create.inputs[i] == EditInput(m.create.inputs[i], key)
  {
    var c := SelectType(m.create, key);
    TypeIntoKeepsFocus(c.inputs, key, c.focus);
    m.(create := c.(inputs := TypeInto(c.inputs, key)))
  }

  /** `updateCreate` for a key (esc is handled before it is reached). */
  function CreateKey(m: Model, key: string): (r: Next)
    requires Valid(m) && m.view == CreateView
    ensures Valid(r.model) && r.model.view == CreateView
    ensures r.model.create.types == m.create.types
    // the item is created iff enter is pressed with a title
    ensures r.cmds != [] <==> key == "enter" && m.create.inputs[0].value != ""
    ensures r.cmds != [] ==> r.cmds == [CreateCmd(m)] && r.model == m.(loading := true)
    // the type changes only through left/right on the selector
    ensures r.model.create.typeIndex != m.create.typeIndex ==>
      m.create.focus == TypeSelector && (key == "left" || key == "right")
  {
    if key == "tab" || key == "down" then Next(CreateFocus(m, true), [])
    else if key == "shift+tab" || key == "up" then Next(CreateFocus(m, false), [])
    else if key == "enter" && m.create.inputs[0].value != "" then Next(m.(loading := true), [CreateCmd(m)])
    else Next(EditCreate(m, key), [])
  }

  /** The form after pressing `key` `k` times. */
  function SelectRepeat(c: CreateForm, key: string, k: nat): (r: CreateForm)
    requires 0 <= c.typeIndex < |c.types|
    ensures r.focus == c.focus && r.types == c.types && 0 <= r.typeIndex < |c.types|
    decreases k
  {
    if k == 0 then c else SelectType(SelectRepeat(c, key, k - 1), key)
  }

  /** The selector runs round every type: pressing right as many times as
      there are types comes back to the same one. */
  lemma {:induction false} RightCycles(c: CreateForm, k: nat)
    requires c.focus == TypeSelector && 0 <= c.typeIndex < |c.types|
    ensures SelectRepeat(c, "right", k).typeIndex == (c.typeIndex + k) % |c.types|
    decreases k
  {
    if k > 0 {
      RightCycles(c, k - 1);
      ModSucc(c.typeIndex + k - 1, |c.types|);
    }
  }

  /** Pressing right once per type returns to the type selected before. */
  lemma RightAroundReturns(c: CreateForm)
    requires c.focus == TypeSelector && 0 <= c.typeIndex < |c.types|
    ensures SelectRepeat(c, "right", |c.types|) == c
  {
    RightCycles(c, |c.types|);
    SelectKeepsForm(c, "right", |c.types|);
    DivModUnique(c.typeIndex + |c.types|, |c.types|, 1, c.typeIndex);
  }

  /** Repeated left/right presses change nothing but the selected type. */
  lemma {:induction false} SelectKeepsForm(c: CreateForm, key: string, k: nat)
    requires 0 <= c.typeIndex < |c.types|
    ensures SelectRepeat(c, key, k) == c.(typeIndex := SelectRepeat(c, key, k).typeIndex)
    decreases k
  {
    if k > 0 {
      SelectKeepsForm(c, key, k - 1);
    }
  }
}
