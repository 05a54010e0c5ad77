/** Properties of the terminal UI as a whole, stated over `Step`: what the
    global keys do, what a failed command does, which results move between
    screens, the delete dialog and the create flow, and the field
    that receives typing after a work item is opened. */
module TuiProps {
  import opened Common
  import opened Client
  import opened TuiModel
  import opened TuiBoard
  import opened TuiDetail
  import opened TuiCreate
  import opened TuiUpdate

  // ------------------------------------------------------------------
  // Keys handled on every screen
  // ------------------------------------------------------------------

  /** ctrl+c quits from any screen, changing nothing. */
  lemma CtrlCQuits(m: Model, env: Env)
    requires Valid(m)
    ensures Step(m, Key("ctrl+c"), env) == Next(m, [Quit])
  {
  }

  /** esc on the create or detail screen returns to the board, clearing the
      error and the message, keeping every edit. */
  lemma EscapeReturnsToBoard(m: Model, env: Env)
    requires Valid(m) && (m.view == CreateView || m.view == DetailView)
    ensures Step(m, Key("esc"), env) == Next(m.(view := BoardView, err := None, message := ""), [])
  {
  }

  // ------------------------------------------------------------------
  // Results of commands
  // ------------------------------------------------------------------

  predicate IsResult(msg: Msg)
  {
    !msg.Key? && !msg.WindowSize?
  }

  /** A failed command issues nothing and leaves the screen, the items and
      the selected item as they were; the foreground ones show their error. */
  lemma FailedResultIssuesNothing(m: Model, msg: Msg, env: Env)
    requires Valid(m) && Deliverable(m, msg) && IsResult(msg) && msg.err.Some?
    ensures var r := Step(m, msg, env);
      && r.cmds == []
      && r.model.view == m.view
      && r.model.board.workItems == m.board.workItems
      && r.model.detail.selected == m.detail.selected
      && r.model.err == if msg.TypesLoaded? || msg.CommentsLoaded? || msg.RelatedLoaded? then m.err else msg.err
  {
  }

  /** Only a successful connection test and a successful create change the
      screen, and both go to the board. */
  lemma OnlyConnectAndCreateMove(m: Model, msg: Msg, env: Env)
    requires Valid(m) && Deliverable(m, msg) && IsResult(msg)
    ensures var r := Step(m, msg, env);
      r.model.view != m.view ==> (msg.Connected? || msg.Created?) && msg.err.None? && r.model.view == BoardView
  {
  }

  /** Every result clears the loading indicator, except the two that load in
      the background (types and related items), which leave it alone. */
  lemma ResultsClearLoading(m: Model, msg: Msg, env: Env)
    requires Valid(m) && Deliverable(m, msg) && IsResult(msg)
    ensures var r := Step(m, msg, env);
      && (msg.TypesLoaded? || msg.RelatedLoaded? ==> r.model.loading == m.loading)
      && (!msg.TypesLoaded? && !msg.RelatedLoaded? ==> !r.model.loading)
  {
  }

  /** A failed background load is invisible: the types and related items
      leave the state unchanged, the comments only clear the loading flag. */
  lemma BackgroundErrorsAreSilent(m: Model, msg: Msg, env: Env)
    requires Valid(m) && (msg.TypesLoaded? || msg.RelatedLoaded? || msg.CommentsLoaded?) && msg.err.Some?
    ensures Step(m, msg, env).model == if msg.CommentsLoaded? then m.(loading := false) else m
  {
  }

  /** Loaded items replace the board's exactly when the fetch succeeded. */
  lemma ItemsReplacedOnSuccess(m: Model, items: seq<WorkItem>, err: Option<string>, env: Env)
    requires Valid(m)
    ensures var r := Step(m, ItemsLoaded(items, err), env).model;
      && r.board.workItems == (if err.None? then items else m.board.workItems)
      && r.err == err && r.board.cursor == m.board.cursor
  {
  }

  /** After a reload the cursor may be past the end of a shorter list; the
      keys that open the item under the cursor then do nothing. */
  lemma StaleCursorOpensNothing(m: Model, key: string, env: Env)
    requires Valid(m) && m.view == BoardView && !m.board.deleting && m.board.cursor >= |m.board.workItems|
    requires key == "enter" || key == "e"
    ensures Step(m, Key(key), env) == Next(m, [])
  {
  }

  /** Nor does the delete key open the dialog for a cursor past the end. */
  lemma StaleCursorDeletesNothing(m: Model, env: Env)
    requires Valid(m) && m.view == BoardView && !m.board.deleting && m.board.cursor >= |m.board.workItems|
    ensures Step(m, Key("d"), env) == Next(m, [])
  {
  }

  // ------------------------------------------------------------------
  // Deleting an item
  // ------------------------------------------------------------------

  /** Typing a one-byte key into the open delete dialog appends it and sends
      nothing; with `TypedTitleDeletes`, typing the title key by key and
      pressing enter deletes the item. */
  lemma DialogKeyAppends(m: Model, c: char, env: Env)
    requires Valid(m) && m.view == BoardView && m.board.deleting && c < '\U{0080}'
    ensures Step(m, Key([c]), env) ==
      Next(m.(board := m.board.(deleteInput := m.board.deleteInput + [c])), [])
  {
    assert [c] != "ctrl+c" && [c] != "esc" && IsSingleByte([c]);
  }

  // ------------------------------------------------------------------
  // Creating an item
  // ------------------------------------------------------------------

  /** From the board, `c` and enter create an item of the selected type,
      assigned to the user, when the title field holds a title. */
  lemma NewItemAssignedToUser(m: Model, env: Env)
    requires Valid(m) && m.view == BoardView && !m.board.deleting && m.create.inputs[0].value != ""
    ensures var c := Step(m, Key("c"), env).model;
      var r := Step(c, Key("enter"), env);
      && r.cmds == [CreateWorkItem(m.create.types[m.create.typeIndex], m.create.inputs[0].value,
                                   m.create.inputs[1].value, Priority(m.create.inputs[2].value), m.username)]
      && r.model.loading
  {
    var c := Step(m, Key("c"), env).model;
    assert Values(c.create.inputs) == Values(m.create.inputs)[3 := m.username];
    assert c.create.inputs[0].value == m.create.inputs[0].value;
  }

  // ------------------------------------------------------------------
  // Opening an item
  // ------------------------------------------------------------------

  /** A character other than the comment keys, typed on the detail screen
      with the comments collapsed, goes to the text fields. */
  lemma DetailCharTypes(o: Model, c: char, env: Env)
    requires Valid(o) && o.view == DetailView && !o.detail.commentsExpanded
    requires c != 'v' && c != 'j' && c != 'k'
    ensures var d := Step(o, Key([c]), env).model.detail;
      d.selected == o.detail.selected && d.inputs == TypeInto(o.detail.inputs, [c])
  {
    assert [c] != "ctrl+c" && [c] != "esc";
    assert DetailActionOf([c]) == Edit;
  }

  /** Opening an item from the board and typing a character edits its title
      and no other field, whatever had the focus when the detail screen was
      last left. */
  lemma OpenedItemTypesIntoTitle(m: Model, c: char, env: Env)
    requires Valid(m) && m.view == BoardView && !m.board.deleting && m.board.cursor < |m.board.workItems|
    requires c != 'v' && c != 'j' && c != 'k'
    ensures var wi := m.board.workItems[m.board.cursor];
      var d := Step(Step(m, Key("enter"), env).model, Key([c]), env).model.detail;
      && d.selected == Some(wi)
      && Values(d.inputs) == DetailValues(wi)[0 := wi.fields.title + [c]]
  {
    var wi := m.board.workItems[m.board.cursor];
    var o := Step(m, Key("enter"), env).model;
    assert o == OpenDetail(m, wi).model;
    DetailCharTypes(o, c, env);
    TypeIntoKeepsFocus(o.detail.inputs, [c], 0);
    var d := Step(o, Key([c]), env).model.detail;
    assert Values(d.inputs) == DetailValues(wi)[0 := wi.fields.title + [c]];
  }

  /** As board.go opens an item, a field focused when the detail screen was
      last left keeps its focus: leaving from the assignee field, opening an
      item and typing a character puts it into both the title and the
      assignee. */
  lemma AsWrittenOpenTypesIntoTwoFields(m: Model, wi: WorkItem, c: char, env: Env)
    requires Valid(m) && m.view == DetailView && m.detail.focus == 2
    ensures var board := Step(m, Key("esc"), env).model;
      var shown := OpenDetailAsWritten(board, wi).model;
      var typed := TypeInto(shown.detail.inputs, [c]);
      && typed[0].value == wi.fields.title + [c]
      && typed[2].value == DetailValues(wi)[2] + [c]
  {
    var board := Step(m, Key("esc"), env).model;
    assert board.detail.inputs == m.detail.inputs;
    assert board.detail.inputs[2].focused;
  }
}
