/** `Model.Update`: a resize, the keys handled on every screen (ctrl+c, and
    esc on the create and detail screens), the results of commands, and
    otherwise the current screen's key handler. The synchronous effects of
    two keys (saving to the keychain, writing the settings file) have their
    outcomes in the `Env` argument. */
module TuiUpdate {
  import opened Common
  import opened Client
  import opened TuiModel
  import opened TuiBoard
  import opened TuiDetail
  import opened TuiCreate
  import opened TuiConfig
  import opened TuiConfigFile

  // ------------------------------------------------------------------
  // Keys
  // ------------------------------------------------------------------

  /** esc on the create and detail screens: back to the board, with the
      error and the message cleared. */
  function BackToBoard(m: Model): (r: Model)
    requires Valid(m) && (m.view == CreateView || m.view == DetailView)
    ensures Valid(r) && r == m.(view := BoardView, err := None, message := "")
  {
    m.(view := BoardView, err := None, message := "")
  }

  /** A key: ctrl+c quits from anywhere, esc leaves the create and detail
      screens, and every other key goes to the current screen. */
  function KeyStep(m: Model, key: string, env: Env): (r: Next)
    requires Valid(m)
    ensures Valid(r.model)
  {
    if key == "ctrl+c" then Next(m, [Quit])
    else if key == "esc" && (m.view == CreateView || m.view == DetailView) then Next(BackToBoard(m), [])
    else
      match m.view
      case ConfigView => ConfigKey(m, key, env.keychainSaved)
      case BoardView => BoardKey(m, key)
      case CreateView => CreateKey(m, key)
      case DetailView => DetailKey(m, key)
      case ConfigFileView => SettingsKey(m, key, env.configSaveError)
  }

  // ------------------------------------------------------------------
  // Results of commands
  // ------------------------------------------------------------------

  /** The connection test: the board, fetching the items and the types, or
      the error on the credentials screen. */
  function OnConnected(m: Model, err: Option<string>): (r: Next)
    requires Valid(m) && m.client.Some?
    ensures Valid(r.model)
    ensures err.Some? ==> r == Next(m.(loading := false, err := err), [])
    ensures err.None? ==>
      && r.model == m.(loading := false, view := BoardView)
      && r.cmds == [FetchItemsCmd(m), FetchWorkItemTypes]
  {
    if err.Some? then Next(m.(loading := false, err := err), [])
    else
      var m' := m.(loading := false, view := BoardView);
      Next(m', [FetchItemsCmd(m'), FetchWorkItemTypes])
  }

  /** The project's work item types replace the built-in list when they
      arrive without an error and are not empty; the selection goes back to
      the first type. */
  function OnTypesLoaded(m: Model, types: seq<string>, err: Option<string>): (r: Model)
    requires Valid(m)
    ensures Valid(r) && r == m.(create := r.create)
    ensures err.None? && |types| > 0 ==> r.create == m.create.(types := types, typeIndex := 0)
    ensures err.Some? || |types| == 0 ==> r == m
  {
    if err.None? && |types| > 0 then m.(create := m.create.(types := types, typeIndex := 0)) else m
  }

  /** The fetched items replace the board's, clearing the error and the
      message; on an error the old items stay. The cursor is kept even if
      the new list is shorter. */
  function OnItemsLoaded(m: Model, items: seq<WorkItem>, err: Option<string>): (r: Model)
    requires Valid(m)
    ensures Valid(r) && !r.loading
    ensures err.Some? ==> r == m.(loading := false, err := err)
    ensures err.None? ==>
      r == m.(loading := false, err := None, message := "", board := m.board.(workItems := items))
  {
    if err.Some? then m.(loading := false, err := err)
    else m.(loading := false, err := None, message := "", board := m.board.(workItems := items))
  }

  /** A created item: back to the board with a message, the create fields
      emptied, and the items fetched again. */
  function OnCreated(m: Model, item: Option<WorkItem>, err: Option<string>): (r: Next)
    requires Valid(m) && (err.None? ==> item.Some? && m.client.Some?)
    ensures Valid(r.model) && !r.model.loading
    ensures err.Some? ==> r == Next(m.(loading := false, err := err), [])
    ensures err.None? ==>
      && r.model.view == BoardView
      && r.model.message == "Created work item #" + IntToString(item.value.id)
      && Values(r.model.create.inputs) == Blank(4)
      && r.model.create == m.create.(inputs := r.model.create.inputs)
      && r.model == m.(loading := false, view := BoardView, message := r.model.message, create := r.model.create)
      && r.cmds == [FetchItemsCmd(m)]
  {
    if err.Some? then Next(m.(loading := false, err := err), [])
    else
      var c := m.create.(inputs := WithValues(m.create.inputs, Blank(4)));
      var m' := m.(loading := false, view := BoardView, message := "Created work item #" + IntToString(item.value.id),
                   create := c);
      Next(m', [FetchItemsCmd(m')])
  }

  /** Comments arrive in the background: an error is dropped. */
  function OnCommentsLoaded(m: Model, comments: seq<Comment>, err: Option<string>): (r: Model)
    requires Valid(m)
    ensures Valid(r) && !r.loading
    ensures err.Some? ==> r == m.(loading := false)
    ensures err.None? ==> r == m.(loading := false, detail := m.detail.(comments := comments))
  {
    if err.Some? then m.(loading := false) else m.(loading := false, detail := m.detail.(comments := comments))
  }

  /** An added comment: the comment field is emptied and the comments are
      fetched again. */
  function OnCommentAdded(m: Model, err: Option<string>): (r: Next)
    requires Valid(m) && (err.None? ==> m.detail.selected.Some?)
    ensures Valid(r.model) && !r.model.loading
    ensures err.Some? ==> r == Next(m.(loading := false, err := err), [])
    ensures err.None? ==>
      && Values(r.model.detail.inputs) == Values(m.detail.inputs)[CommentField := ""]
      && r.model.detail == m.detail.(inputs := r.model.detail.inputs)
      && r.model == m.(loading := false, message := "Comment added", detail := r.model.detail)
      && r.cmds == [FetchComments(m.detail.selected.value.id)]
  {
    if err.Some? then Next(m.(loading := false, err := err), [])
    else
      var d := m.detail;
      var inputs := WithValues(d.inputs, Values(d.inputs)[CommentField := ""]);
      Next(m.(loading := false, message := "Comment added", detail := d.(inputs := inputs)),
           [FetchComments(d.selected.value.id)])
  }

  /** A saved edit: the server's copy of the item becomes the selected item. */
  function OnItemUpdated(m: Model, item: Option<WorkItem>, err: Option<string>): (r: Model)
    requires Valid(m) && (err.None? ==> item.Some?)
    ensures Valid(r) && !r.loading
    ensures err.Some? ==> r == m.(loading := false, err := err)
    ensures err.None? ==>
      r == m.(loading := false, message := "Work item updated", detail := m.detail.(selected := item))
  {
    if err.Some? then m.(loading := false, err := err)
    else m.(loading := false, message := "Work item updated", detail := m.detail.(selected := item))
  }

  /** The parent and children arrive in the background: an error is dropped
      and the loading flag is left alone. */
  function OnRelatedLoaded(m: Model, parent: Option<WorkItem>, children: seq<WorkItem>, err: Option<string>): (r: Model)
    requires Valid(m)
    ensures Valid(r)
    ensures err.Some? ==> r == m
    ensures err.None? ==> r == m.(detail := m.detail.(parent := parent, children := children))
  {
    if err.Some? then m else m.(detail := m.detail.(parent := parent, children := children))
  }

  /** The message naming a new related item. */
  function RelatedMessage(asChild: bool, id: int): string
  {
    "Created " + (if asChild then "child" else "parent") + " #" + IntToString(id)
  }

  /** A created related item: the related items are fetched again. The
      create-related mode is left whatever the outcome. */
  function OnRelatedCreated(m: Model, item: Option<WorkItem>, asChild: bool, err: Option<string>): (r: Next)
    requires Valid(m) && (err.None? ==> item.Some? && m.detail.selected.Some?)
    ensures Valid(r.model) && !r.model.loading && !r.model.detail.creatingRelated
    ensures err.Some? ==>
      r == Next(m.(loading := false, err := err, detail := m.detail.(creatingRelated := false)), [])
    ensures err.None? ==>
      && r.model == m.(loading := false, message := RelatedMessage(asChild, item.value.id),
                       detail := m.detail.(creatingRelated := false))
      && r.cmds == [FetchRelatedItems(m.detail.selected.value.id)]
  {
    var d := m.detail.(creatingRelated := false);
    if err.Some? then Next(m.(loading := false, err := err, detail := d), [])
    else
      Next(m.(loading := false, message := RelatedMessage(asChild, item.value.id), detail := d),
           [FetchRelatedItems(m.detail.selected.value.id)])
  }

  /** A removed link: the related cursor goes back to the parent row and the
      related items are fetched again. */
  function OnLinkRemoved(m: Model, err: Option<string>): (r: Next)
    requires Valid(m) && (err.None? ==> m.detail.selected.Some?)
    ensures Valid(r.model) && !r.model.loading
    ensures err.Some? ==> r == Next(m.(loading := false, err := err), [])
    ensures err.None? ==>
      && r.model == m.(loading := false, message := "Link removed", detail := m.detail.(relatedCursor := 0))
      && r.cmds == [FetchRelatedItems(m.detail.selected.value.id)]
  {
    if err.Some? then Next(m.(loading := false, err := err), [])
    else
      Next(m.(loading := false, message := "Link removed", detail := m.detail.(relatedCursor := 0)),
           [FetchRelatedItems(m.detail.selected.value.id)])
  }

  /** A deleted item: the dialog is closed and emptied whatever the outcome;
      on success the cursor goes to the top and the items are fetched again. */
  function OnItemDeleted(m: Model, err: Option<string>): (r: Next)
    requires Valid(m)
    ensures Valid(r.model) && !r.model.loading
    ensures !r.model.board.deleting && r.model.board.deleteInput == ""
    ensures err.Some? ==>
      r == Next(m.(loading := false, err := err, board := m.board.(deleting := false, deleteInput := "")), [])
    ensures err.None? ==>
      && r.model == m.(loading := false, message := "Deleted work item #" + IntToString(m.board.deleteId),
                       board := m.board.(deleting := false, deleteInput := "", cursor := 0))
      && r.cmds == [FetchItemsCmd(m)]
  {
    var b := m.board.(deleting := false, deleteInput := "");
    if err.Some? then Next(m.(loading := false, err := err, board := b), [])
    else
      var m' := m.(loading := false, message := "Deleted work item #" + IntToString(m.board.deleteId),
                   board := b.(cursor := 0));
      Next(m', [FetchItemsCmd(m')])
  }

  // ------------------------------------------------------------------
  // Update
  // ------------------------------------------------------------------

  /** A terminal resize only records the new size. */
  function Resize(m: Model, width: int, height: int): (r: Model)
    requires Valid(m)
    ensures Valid(r) && r == m.(width := width, height := height)
  {
    m.(width := width, height := height)
  }

  /** `Update`: every reachable state leads to a reachable state. */
  function Step(m: Model, msg: Msg, env: Env): (r: Next)
    requires Valid(m) && Deliverable(m, msg)
    ensures Valid(r.model)
  {
    match msg
    case WindowSize(w, h) => Next(Resize(m, w, h), [])
    case Key(key) => KeyStep(m, key, env)
    case Connected(err) => OnConnected(m, err)
    case TypesLoaded(types, err) => Next(OnTypesLoaded(m, types, err), [])
    case ItemsLoaded(items, err) => Next(OnItemsLoaded(m, items, err), [])
    case Created(item, err) => OnCreated(m, item, err)
    case CommentsLoaded(comments, err) => Next(OnCommentsLoaded(m, comments, err), [])
    case CommentAdded(err) => OnCommentAdded(m, err)
    case ItemUpdated(item, err) => Next(OnItemUpdated(m, item, err), [])
    case RelatedLoaded(parent, children, err) => Next(OnRelatedLoaded(m, parent, children, err), [])
    case RelatedCreated(item, asChild, err) => OnRelatedCreated(m, item, asChild, err)
    case LinkRemoved(err) => OnLinkRemoved(m, err)
    case ItemDeleted(err) => OnItemDeleted(m, err)
  }
}
