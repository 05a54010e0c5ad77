/** The state of the terminal UI (the Bubble Tea `Model`), the messages that
    drive it and the commands it issues, as plain data. A command is the
    request a Bubble Tea command closure would make when run; running it is
    outside the model and its outcome comes back as a message. Text fields are
    a value plus a focus flag; the cursor-blink commands that focusing a field
    returns are not modelled. */
module TuiModel {
  import opened Common
  import opened Client
  import opened Settings

  // ------------------------------------------------------------------
  // Screens and text fields
  // ------------------------------------------------------------------

  datatype View = ConfigView | BoardView | CreateView | DetailView | ConfigFileView

  /** A single-line text field: its text and whether it has the keyboard focus. */
  datatype TextInput = TextInput(value: string, focused: bool)

  function DropLast(s: string): (r: string)
  {
    if |s| > 0 then s[..|s| - 1] else s
  }

  /** How a text field reacts to a key, with the editing cursor kept at the end
      of the text: an unfocused field ignores every key; a focused one appends
      the character a one-character key names (a blank is the key " "), and
      deletes its last character on "backspace". */
  function EditInput(t: TextInput, key: string): (r: TextInput)
    ensures r.focused == t.focused
    ensures !t.focused ==> r == t
    ensures t.focused && key == "backspace" ==> r.value == DropLast(t.value) && |r.value| == Max(0, |t.value| - 1)
    ensures t.focused && |key| == 1 ==> r.value == t.value + key
    ensures t.focused && key != "backspace" && |key| != 1 ==> r == t
  {
    if !t.focused then t
    else if key == "backspace" then t.(value := DropLast(t.value))
    else if |key| == 1 then t.(value := t.value + key)
    else t
  }

  /** A character typed into a focused field and then erased leaves the field as it was. */
  lemma TypeThenErase(t: TextInput, c: char)
    requires t.focused
    ensures EditInput(EditInput(t, [c]), "backspace") == t
  {
    assert (t.value + [c])[..|t.value|] == t.value;
  }

  function Values(inputs: seq<TextInput>): (r: seq<string>)
    ensures |r| == |inputs|
    ensures forall i :: 0 <= i < |inputs| ==> r[i] == inputs[i].value
  {
    seq(|inputs|, i requires 0 <= i < |inputs| => inputs[i].value)
  }

  /** Exactly the field at index `k` has the focus (none when `k` is past the end). */
  predicate FocusedAt(inputs: seq<TextInput>, k: int)
  {
    forall i :: 0 <= i < |inputs| ==> (inputs[i].focused <==> i == k)
  }

  /** Focuses the field at `k` and blurs all others (the `update…Focus` helpers). */
  function FocusOnly(inputs: seq<TextInput>, k: int): (r: seq<TextInput>)
    ensures |r| == |inputs| && FocusedAt(r, k) && Values(r) == Values(inputs)
  {
    seq(|inputs|, i requires 0 <= i < |inputs| => inputs[i].(focused := i == k))
  }

  /** Hands a key to every field (the `update…Inputs` helpers); only a focused one reacts. */
  function TypeInto(inputs: seq<TextInput>, key: string): (r: seq<TextInput>)
    ensures |r| == |inputs|
    ensures forall i :: 0 <= i < |inputs| ==> r[i] == EditInput(inputs[i], key)
  {
    seq(|inputs|, i requires 0 <= i < |inputs| => EditInput(inputs[i], key))
  }

  /** Typing never moves the focus. */
  lemma TypeIntoKeepsFocus(inputs: seq<TextInput>, key: string, k: int)
    requires FocusedAt(inputs, k)
    ensures FocusedAt(TypeInto(inputs, key), k)
    ensures forall i :: 0 <= i < |inputs| && i != k ==> TypeInto(inputs, key)[i] == inputs[i]
  {
  }

  /** Replaces the texts of the fields, keeping their focus flags. */
  function WithValues(inputs: seq<TextInput>, values: seq<string>): (r: seq<TextInput>)
    requires |values| == |inputs|
    ensures |r| == |inputs| && Values(r) == values
    ensures forall i :: 0 <= i < |inputs| ==> r[i].focused == inputs[i].focused
  {
    seq(|inputs|, i requires 0 <= i < |inputs| => inputs[i].(value := values[i]))
  }

  function Blank(n: nat): (r: seq<string>)
    ensures |r| == n && forall i :: 0 <= i < n ==> r[i] == ""
  {
    seq(n, i => "")
  }

  /** `n` new text fields: empty and unfocused. */
  function NewInputs(n: nat): (r: seq<TextInput>)
    ensures |r| == n && Values(r) == Blank(n) && FocusedAt(r, -1)
  {
    seq(n, i => TextInput("", false))
  }

  // ------------------------------------------------------------------
  // Cycling through a form
  // ------------------------------------------------------------------

  /** The position after `i` in a cycle of `n` positions (tab, or the next
      work item type): the first one after the last. */
  function NextIndex(i: int, n: int): int
    requires n > 0 && 0 <= i
  {
    (i + 1) % n
  }

  /** The position before `i` in a cycle of `n` positions: the last one
      before the first. */
  function PrevIndex(i: int, n: int): int
  {
    if i - 1 < 0 then n - 1 else i - 1
  }

  /** Both directions stay in the cycle, and each undoes the other. */
  lemma CycleInverse(i: int, n: int)
    requires 0 <= i < n
    ensures 0 <= NextIndex(i, n) < n && 0 <= PrevIndex(i, n) < n
    ensures PrevIndex(NextIndex(i, n), n) == i
    ensures NextIndex(PrevIndex(i, n), n) == i
  {
  }

  // ------------------------------------------------------------------
  // The state
  // ------------------------------------------------------------------

  /** Board screen: the loaded items, the selection, and the delete-confirmation dialog. */
  datatype Board = Board(
    workItems: seq<WorkItem>,
    cursor: int,
    deleting: bool,
    deleteId: int,
    deleteTitle: string,
    deleteInput: string)

  /** Credentials screen: organization, project, team, area path, access token, user name. */
  datatype Credentials = Credentials(
    inputs: seq<TextInput>,
    focus: int,
    keychainLoaded: bool,
    keychainMessage: string)

  /** Create screen: title, description, priority, assignee, then the type selector (focus 4). */
  datatype CreateForm = CreateForm(
    inputs: seq<TextInput>,
    focus: int,
    typeIndex: int,
    types: seq<string>)

  /** Detail screen: title, state, assignee, tags and a new comment, plus the
      comments and related items shown beneath them. */
  datatype Detail = Detail(
    selected: Option<WorkItem>,
    inputs: seq<TextInput>,
    focus: int,
    comments: seq<Comment>,
    commentsExpanded: bool,
    commentScroll: int,
    parent: Option<WorkItem>,
    children: seq<WorkItem>,
    relatedExpanded: bool,
    relatedCursor: int,
    creatingRelated: bool,
    iterationExpanded: bool,
    iterationCursor: int)

  /** Settings screen: show-all default (focus 0), notifications (focus 1), maximum (focus 2). */
  datatype SettingsForm = SettingsForm(
    config: AppConfig,
    message: string,
    focus: int,
    maxItems: TextInput)

  datatype Model = Model(
    view: View,
    client: Option<Client>,
    username: string,
    showAll: bool,
    err: Option<string>,
    message: string,
    loading: bool,
    width: int,
    height: int,
    board: Board,
    creds: Credentials,
    create: CreateForm,
    detail: Detail,
    settings: SettingsForm)

  // ------------------------------------------------------------------
  // Messages and commands
  // ------------------------------------------------------------------

  /** A key press (by its Bubble Tea name), a terminal resize, or the result
      of a command. An error is `Some(message)`. */
  datatype Msg =
    | Key(key: string)
    | WindowSize(width: int, height: int)
    | Connected(err: Option<string>)
    | TypesLoaded(types: seq<string>, err: Option<string>)
    | ItemsLoaded(items: seq<WorkItem>, err: Option<string>)
    | Created(item: Option<WorkItem>, err: Option<string>)
    | CommentsLoaded(comments: seq<Comment>, err: Option<string>)
    | CommentAdded(err: Option<string>)
    | ItemUpdated(item: Option<WorkItem>, err: Option<string>)
    | RelatedLoaded(parent: Option<WorkItem>, children: seq<WorkItem>, err: Option<string>)
    | RelatedCreated(item: Option<WorkItem>, asChild: bool, err: Option<string>)
    | LinkRemoved(err: Option<string>)
    | ItemDeleted(err: Option<string>)

  /** What a command asks of the client when Bubble Tea runs it. */
  datatype Cmd =
    | Quit
    | Connect(client: Client)
    | FetchWorkItems(workItemType: string, assignedTo: string, top: int)
    | FetchWorkItemTypes
    | CreateWorkItem(workItemType: string, title: string, description: string, priority: int, assignedTo: string)
    | FetchComments(workItemId: int)
    | AddComment(workItemId: int, text: string)
    | UpdateItem(workItemId: int, title: string, state: string, assignedTo: string, tags: string)
    | FetchRelatedItems(workItemId: int)
    | CreateRelatedItem(parentId: int, asChild: bool, title: string, workItemType: string, assignee: string)
    | RemoveLink(workItemId: int, targetId: int, isParent: bool)
    | DeleteWorkItem(workItemId: int)

  /** The state after a message and the commands issued (a `tea.Batch` is its list). */
  datatype Next = Next(model: Model, cmds: seq<Cmd>)

  /** Outcomes of the synchronous side effects some keys have: saving the
      credentials to the keychain and writing the settings file. */
  datatype Env = Env(keychainSaved: bool, configSaveError: Option<string>)

  // ------------------------------------------------------------------
  // Reachable states
  // ------------------------------------------------------------------

  /** What holds in every state the UI can reach: the forms have their fixed
      number of fields, every focus index is on its form and names the one
      focused field of the screen being shown, the type selection is an index
      into a non-empty type list, and the screens that talk to the server have
      a client (and Detail an item). */
  predicate Valid(m: Model)
  {
    && CredentialsValid(m.creds)
    && CreateValid(m.create, m.view == CreateView)
    && DetailValid(m.detail, m.view == DetailView)
    && SettingsValid(m.settings)
    && 0 <= m.board.cursor
    && (m.view != ConfigView && m.view != ConfigFileView ==> m.client.Some?)
  }

  predicate CredentialsValid(c: Credentials)
  {
    |c.inputs| == 6 && 0 <= c.focus < 6 && FocusedAt(c.inputs, c.focus)
  }

  predicate CreateValid(c: CreateForm, shown: bool)
  {
    && |c.inputs| == 4 && 0 <= c.focus < 5
    && 0 <= c.typeIndex < |c.types|
    && (shown ==> FocusedAt(c.inputs, c.focus))
  }

  predicate DetailValid(d: Detail, shown: bool)
  {
    && |d.inputs| == 5 && 0 <= d.focus < 5 && 0 <= d.commentScroll
    && (shown ==> d.selected.Some? && FocusedAt(d.inputs, d.focus))
  }

  predicate SettingsValid(s: SettingsForm)
  {
    0 <= s.focus < 3 && (s.focus == 2 ==> s.maxItems.focused)
  }

  /** A result message can only arrive in states where the command that
      produces it was issued: an added comment, a created related item and a
      removed link refer to the selected item, a connection test to the client
      just built, and a successful create or update carries the item. */
  predicate Deliverable(m: Model, msg: Msg)
  {
    match msg
    case Connected(_) => m.client.Some?
    case Created(item, err) => err.None? ==> item.Some? && m.client.Some?
    case CommentAdded(err) => err.None? ==> m.detail.selected.Some?
    case ItemUpdated(item, err) => err.None? ==> item.Some?
    case RelatedCreated(item, _, err) => err.None? ==> item.Some? && m.detail.selected.Some?
    case LinkRemoved(err) => err.None? ==> m.detail.selected.Some?
    case _ => true
  }

  // ------------------------------------------------------------------
  // The initial state
  // ------------------------------------------------------------------

  datatype StoredCredentials = StoredCredentials(
    organization: string, project: string, team: string, areaPath: string, pat: string, username: string)

  const DefaultWorkItemTypes: seq<string> := ["Bug", "Task", "User Story", "Feature", "Epic"]

  /** The texts of the credential fields for what the keychain held. */
  function StoredValues(c: StoredCredentials): seq<string>
  {
    [c.organization, c.project, c.team, c.areaPath, c.pat, c.username]
  }

  /** The credentials screen `NewModel` builds: the first field focused, and
      the fields filled from the keychain when it held credentials. */
  function InitialCredentials(stored: Option<StoredCredentials>): (c: Credentials)
    ensures CredentialsValid(c) && c.focus == 0
    ensures c.keychainLoaded <==> stored.Some?
    ensures Values(c.inputs) == if stored.Some? then StoredValues(stored.value) else Blank(6)
  {
    var values := if stored.Some? then StoredValues(stored.value) else Blank(6);
    Credentials(FocusOnly(WithValues(NewInputs(6), values), 0), 0, stored.Some?,
                if stored.Some? then "Credentials loaded from keychain" else "")
  }

  /** `NewModel`: the credentials screen, the settings as read from the file,
      and the credentials found in the keychain (if any) filled in. */
  function NewModel(read: ReadOutcome, stored: Option<StoredCredentials>): (m: Model)
    ensures Valid(m) && m.view == ConfigView && m.client.None? && !m.loading
    ensures m.creds == InitialCredentials(stored)
    ensures m.settings.config == LoadConfigFile(read).config && m.showAll == m.settings.config.defaultShowAll
    ensures m.settings.maxItems.value == IntToString(m.settings.config.maxWorkItems)
    ensures m.create.types == DefaultWorkItemTypes && m.create.typeIndex == 0
    ensures m.username == if stored.Some? then stored.value.username else ""
  {
    var config := LoadConfigFile(read).config;
    Model(
      view := ConfigView,
      client := None,
      username := if stored.Some? then stored.value.username else "",
      showAll := config.defaultShowAll,
      err := None,
      message := "",
      loading := false,
      width := 0,
      height := 0,
      board := Board([], 0, false, 0, "", ""),
      creds := InitialCredentials(stored),
      create := CreateForm(NewInputs(4), 0, 0, DefaultWorkItemTypes),
      detail := Detail(None, NewInputs(5), 0, [], false, 0, None, [], false, 0, false, false, 0),
      settings := SettingsForm(config, "", 0, TextInput(IntToString(config.maxWorkItems), false)))
  }

  /** The user name the credentials screen would connect with is the one the
      state starts with. */
  lemma NewModelUserName(read: ReadOutcome, stored: Option<StoredCredentials>)
    ensures var m := NewModel(read, stored);
      Values(m.creds.inputs)[5] == m.username
  {
  }

  // ------------------------------------------------------------------
  // Commands built from the state
  // ------------------------------------------------------------------

  const FetchLimit: int := 50

  /** `fetchWorkItems`: every type, at most fifty items, restricted to the
      user's own items exactly when "show all" is off and a user name is set. */
  function FetchItemsCmd(m: Model): (c: Cmd)
    ensures c.FetchWorkItems? && c.workItemType == "" && c.top == 50
    ensures c.assignedTo != "" <==> !m.showAll && m.username != ""
    ensures c.assignedTo != "" ==> c.assignedTo == m.username
  {
    FetchWorkItems("", if !m.showAll && m.username != "" then m.username else "", FetchLimit)
  }

  /** The priority `createWorkItem` sends: the first character of the
      priority field when it is a digit from 1 to 4, otherwise 2. */
  function Priority(p: string): (r: int)
    ensures 1 <= r <= 4
    ensures r != 2 ==> |p| > 0 && p[0] == DigitChar(r)
    ensures |p| > 0 && '1' <= p[0] <= '4' ==> r == DigitValue(p[0])
  {
    if p != "" && '1' <= p[0] <= '4' then DigitValue(p[0]) else 2
  }

  /** A priority field holding a number from 1 to 4 gives that priority. */
  lemma PriorityRoundTrip(k: nat)
    requires 1 <= k <= 4
    ensures Priority(IntToString(k)) == k
  {
  }

  /** Any field that does not start with a digit from 1 to 4 gives the default priority 2. */
  lemma PriorityDefault(p: string)
    requires p == "" || !('1' <= p[0] <= '4')
    ensures Priority(p) == 2
  {
  }

  /** `createWorkItem`: the type under the selector and the four fields. */
  function CreateCmd(m: Model): (c: Cmd)
    requires Valid(m)
    ensures c.CreateWorkItem? && c.workItemType in m.create.types
    ensures c.title == m.create.inputs[0].value && c.description == m.create.inputs[1].value
    ensures c.priority == Priority(m.create.inputs[2].value) && c.assignedTo == m.create.inputs[3].value
  {
    var v := Values(m.create.inputs);
    CreateWorkItem(m.create.types[m.create.typeIndex], v[0], v[1], Priority(v[2]), v[3])
  }

  // ------------------------------------------------------------------
  // Creating a related item
  // ------------------------------------------------------------------

  /** The fields a `createRelatedMsg` carries. */
  datatype RelatedOutcome = RelatedOutcome(item: Option<WorkItem>, asChild: bool, err: Option<string>)

  /** What running `createRelatedItem` does. A child is created in one
      request that carries its parent link. A parent is created first and,
      only if that succeeded, the current item is linked under it; the
      reported error is the first failure, and a parent whose link failed is
      still reported. `createReply` is the server's answer to the create and
      `linkError` the outcome of the link request. */
  function RunCreateRelated(c: Client, currentId: int, asChild: bool, title: string, workItemType: string,
                            assignee: string, createReply: Result<WorkItem>, linkError: Option<string>): (r: Call<RelatedOutcome>)
    ensures r.result.asChild == asChild
    ensures r.result.item == (if createReply.Ok? then Some(createReply.value) else None)
    ensures asChild ==>
      r.requests == [CreateItem(workItemType, CreateWithParentOps(c, title, "", 2, currentId, assignee))]
    ensures !asChild ==> 1 <= |r.requests| && r.requests[0] == CreateItem(workItemType, CreateOps(c, title, "", 2, assignee))
    ensures !asChild ==> (|r.requests| == 2 <==> createReply.Ok?)
    ensures !asChild && createReply.Ok? ==> r.requests[1] == AddChildLinkRequest(c, createReply.value.id, currentId)
    ensures createReply.Err? ==> r.result.err == Some(createReply.error)
    ensures createReply.Ok? ==> r.result.err == (if asChild then None else linkError)
  {
    if asChild then
      var reply := createReply;
      Call([CreateItem(workItemType, CreateWithParentOps(c, title, "", 2, currentId, assignee))],
           RelatedOutcome(if reply.Ok? then Some(reply.value) else None, true,
                          if reply.Err? then Some(reply.error) else None))
    else
      var create := CreateItem(workItemType, CreateOps(c, title, "", 2, assignee));
      match createReply
      case Err(e) => Call([create], RelatedOutcome(None, false, Some(e)))
      case Ok(item) => Call([create, AddChildLinkRequest(c, item.id, currentId)], RelatedOutcome(Some(item), false, linkError))
  }

  /** Whichever way round, the new item is sent with a hierarchy link to the
      current item: a reverse (parent) link in the create request of a child,
      a forward (child) link patched onto a new parent. */
  lemma CreateRelatedLinksCurrent(c: Client, currentId: int, asChild: bool, title: string, workItemType: string,
                                  assignee: string, item: WorkItem, linkError: Option<string>)
    ensures var r := RunCreateRelated(c, currentId, asChild, title, workItemType, assignee, Ok(item), linkError);
      var req := r.requests[|r.requests| - 1];
      (req.CreateItem? || req.PatchItem?) &&
      var ops := req.ops;
      && |ops| > 0
      && ops[|ops| - 1].value ==
         Link(if asChild then HierarchyReverse else HierarchyForward, WitUrl(c) + "workItems/" + IntToString(currentId))
      && (req.CreateItem? <==> asChild)
      && (req.PatchItem? ==> req.id == item.id)
  {
  }
}
