/** The board screen (`updateBoard`): cursor movement and paging over the
    loaded work items, the refresh and show-all keys, opening the detail and
    create screens, and the delete dialog, in which the user must type the
    item's title before the delete is sent. Also the page window `viewBoard`
    draws. Opening the item in a browser is an OS call and is not modelled. */
module TuiBoard {
  import opened Common
  import opened Client
  import opened TuiModel

  // ------------------------------------------------------------------
  // Paging
  // ------------------------------------------------------------------

  /** Rows per page: the terminal height less twelve lines of chrome, or ten
      when that would leave fewer than five. */
  function PageSize(height: int): (r: int)
    ensures r >= 5
    ensures height - 12 >= 5 ==> r == height - 12
    ensures height - 12 < 5 ==> r == 10
  {
    var maxVisible := height - 12;
    if maxVisible < 5 then 10 else maxVisible
  }

  /** Number of pages: enough for every item, none of them empty, and at least one. */
  function PageCount(n: int, size: int): (r: int)
    requires n >= 0 && size > 0
    ensures r >= 1 && n <= r * size
    ensures r == 1 || (r - 1) * size < n
  {
    var t := (n + size - 1) / size;
    DivBounds(n + size - 1, size);
    assert (t - 1) * size == t * size - size;
    if t == 0 then 1 else t
  }

  /** The page holding index `i`. */
  function PageOf(i: int, size: int): int
    requires size > 0
  {
    i / size
  }

  /** An index in `[q * size, q * size + size)` is on page `q`. */
  lemma OnPage(i: int, size: int, q: int)
    requires size > 0 && q * size <= i < q * size + size
    ensures PageOf(i, size) == q
  {
    var d := i / size;
    DivBounds(i, size);
    if d < q { MulLess(d, q, size); }
    else if d > q { MulLess(q, d, size); }
  }

  /** `p * size` is the first index of page `p`. */
  lemma PageStart(p: int, size: int)
    requires size > 0
    ensures PageOf(p * size, size) == p && (p * size) % size == 0
  {
    OnPage(p * size, size, p);
  }

  /** The rows `viewBoard` draws, `[start, end)`: from the first index of the
      cursor's page, at most one page, never past the last item. */
  function PageWindow(n: int, cursor: int, size: int): (w: (int, int))
    requires n >= 0 && cursor >= 0 && size > 0
    ensures w.0 == PageOf(cursor, size) * size && w.0 % size == 0
    ensures w.1 <= n && w.1 - w.0 <= size
    ensures w.0 < n ==> w.1 > w.0 && (w.1 == n || w.1 - w.0 == size)
    ensures cursor < n ==> w.0 <= cursor < w.1
  {
    var start := PageOf(cursor, size) * size;
    PageStart(PageOf(cursor, size), size);
    DivBounds(cursor, size);
    (start, Min(start + size, n))
  }

  /** Left on a page after the first: the first row of the previous page. */
  function PrevPageStart(cursor: int, size: int): (c: int)
    requires cursor >= 0 && size > 0 && PageOf(cursor, size) > 0
    ensures 0 <= c < cursor
    ensures PageOf(c, size) == PageOf(cursor, size) - 1 && c % size == 0
  {
    var page := PageOf(cursor, size);
    PageStart(page - 1, size);
    DivBounds(cursor, size);
    MulMono(0, page - 1, size);
    assert (page - 1) * size + size == page * size;
    (page - 1) * size
  }

  /** Right on a page before the last: the first row of the next page,
      clamped to the last row. The clamp never applies, since a page before
      the last is followed by a non-empty one. */
  function NextPageStart(cursor: int, n: int, size: int): (c: int)
    requires cursor >= 0 && n >= 0 && size > 0 && PageOf(cursor, size) < PageCount(n, size) - 1
    ensures cursor < c < n
    ensures PageOf(c, size) == PageOf(cursor, size) + 1 && c % size == 0
  {
    var page := PageOf(cursor, size);
    var pages := PageCount(n, size);
    var next := (page + 1) * size;
    PageStart(page + 1, size);
    DivBounds(cursor, size);
    assert next == page * size + size;
    MulMono(page + 1, pages - 1, size);
    if next >= n then n - 1 else next
  }

  // ------------------------------------------------------------------
  // Cursor movement
  // ------------------------------------------------------------------

  predicate IsUpKey(key: string) { key == "up" || key == "k" }
  predicate IsDownKey(key: string) { key == "down" || key == "j" }
  predicate IsPrevPageKey(key: string) { key == "left" || key == "h" || key == "pgup" }
  predicate IsNextPageKey(key: string) { key == "right" || key == "l" || key == "pgdown" }

  predicate IsNavKey(key: string)
  {
    IsUpKey(key) || IsDownKey(key) || IsPrevPageKey(key) || IsNextPageKey(key) || key == "home" || key == "end"
  }

  /** The cursor after a navigation key over `n` items shown `size` per
      page: one row up or down, the first row of the previous or next page,
      the first or last row. */
  function MoveCursor(cursor: int, n: int, size: int, key: string): (c: int)
    requires cursor >= 0 && n >= 0 && size > 0 && IsNavKey(key)
    ensures c >= 0
    // a cursor on the list stays on it
    ensures cursor < n ==> c < n
    // an empty list keeps the cursor where it is on down and end
    ensures n == 0 && (IsDownKey(key) || key == "end") ==> c == cursor
    ensures IsUpKey(key) || IsDownKey(key) ==> -1 <= c - cursor <= 1
    ensures IsPrevPageKey(key) ==>
      c == if PageOf(cursor, size) > 0 then PrevPageStart(cursor, size) else cursor
    ensures IsNextPageKey(key) ==>
      c == if PageOf(cursor, size) < PageCount(n, size) - 1 then NextPageStart(cursor, n, size) else cursor
    ensures key == "home" ==> c == 0
    ensures key == "end" && n > 0 ==> c == n - 1
  {
    if IsUpKey(key) then
      if cursor > 0 then cursor - 1 else cursor
    else if IsDownKey(key) then
      if cursor < n - 1 then cursor + 1 else cursor
    else if IsPrevPageKey(key) then
      if PageOf(cursor, size) > 0 then PrevPageStart(cursor, size) else cursor
    else if IsNextPageKey(key) then
      if PageOf(cursor, size) < PageCount(n, size) - 1 then NextPageStart(cursor, n, size) else cursor
    else if key == "home" then 0
    else if n > 0 then n - 1 else cursor
  }

  // ------------------------------------------------------------------
  // The delete dialog
  // ------------------------------------------------------------------

  const TitleMismatch: string := "title does not match - deletion cancelled"

  /** A key name that is one byte long in UTF-8: a single ASCII character. */
  predicate IsSingleByte(key: string)
  {
    |key| == 1 && key[0] < '\U{0080}'
  }

  /** The typed confirmation after a key other than esc and enter: backspace
      drops the last character, a one-byte key is appended, "space" appends a
      blank, and every other key is ignored. */
  function EditConfirmation(input: string, key: string): (r: string)
    ensures key == "backspace" ==> r == DropLast(input)
    ensures key != "backspace" ==> input <= r && |r| <= |input| + 1
  {
    if key == "backspace" then DropLast(input)
    else if IsSingleByte(key) then input + key
    else if key == "space" then input + " "
    else input
  }

  /** Board keys while the delete dialog is open. Every key goes to the
      dialog: esc closes it, enter sends the delete only when the typed text is
      exactly the title (and otherwise closes it with an error), and the rest
      edit the typed text. */
  function DeleteDialogKey(m: Model, key: string): (r: Next)
    requires m.board.deleting
    // nothing but the dialog, the error and the loading flag changes
    ensures r.model == m.(board := r.model.board, err := r.model.err, loading := r.model.loading)
    ensures r.model.board.workItems == m.board.workItems && r.model.board.cursor == m.board.cursor
    ensures r.model.board.deleteId == m.board.deleteId && r.model.board.deleteTitle == m.board.deleteTitle
    // the delete is sent iff enter is pressed on an exact copy of the title
    ensures r.cmds != [] <==> key == "enter" && m.board.deleteInput == m.board.deleteTitle
    ensures r.cmds != [] ==> r.cmds == [DeleteWorkItem(m.board.deleteId)] && r.model.loading
    // a wrong title is an error, with the dialog closed and emptied
    ensures key == "enter" && m.board.deleteInput != m.board.deleteTitle ==>
      r.model.err == Some(TitleMismatch) && r.model.board.deleteInput == ""
    ensures key == "esc" ==> r.model.board.deleteInput == "" && r.model.err == m.err
    // esc and enter close the dialog; other keys only edit the typed text
    ensures !r.model.board.deleting <==> key == "esc" || key == "enter"
    ensures key != "esc" && key != "enter" ==>
      r.model == m.(board := m.board.(deleteInput := EditConfirmation(m.board.deleteInput, key)))
  {
    var b := m.board;
    if key == "esc" then
      Next(m.(board := b.(deleting := false, deleteInput := "")), [])
    else if key == "enter" then
      if b.deleteInput == b.deleteTitle then
        Next(m.(loading := true, board := b.(deleting := false)), [DeleteWorkItem(b.deleteId)])
      else
        Next(m.(err := Some(TitleMismatch), board := b.(deleting := false, deleteInput := "")), [])
    else
      Next(m.(board := b.(deleteInput := EditConfirmation(b.deleteInput, key))), [])
  }

  /** The text in the dialog after the keys `keys`, starting from `input`. */
  function TypeConfirmation(input: string, keys: seq<string>): string
    decreases |keys|
  {
    if |keys| == 0 then input else TypeConfirmation(EditConfirmation(input, keys[0]), keys[1..])
  }

  /** The keys that type `s`, one character per key. */
  function KeysFor(s: string): (keys: seq<string>)
    ensures |keys| == |s| && forall i :: 0 <= i < |s| ==> keys[i] == [s[i]]
  {
    seq(|s|, i requires 0 <= i < |s| => [s[i]])
  }

  /** Typing an ASCII text key by key after `input` appends it. */
  lemma {:induction false} TypingAppends(input: string, s: string)
    requires forall i :: 0 <= i < |s| ==> s[i] < '\U{0080}'
    ensures TypeConfirmation(input, KeysFor(s)) == input + s
    decreases |s|
  {
    if |s| > 0 {
      var keys := KeysFor(s);
      assert keys[0] == [s[0]] && IsSingleByte(keys[0]);
      assert keys[1..] == KeysFor(s[1..]);
      TypingAppends(input + [s[0]], s[1..]);
      assert input + [s[0]] + s[1..] == input + s;
    }
  }

  /** An ASCII title typed into the freshly opened dialog and confirmed
      with enter sends the delete for that item. */
  lemma TypedTitleDeletes(m: Model)
    requires m.board.deleting && m.board.deleteInput == ""
    requires forall i :: 0 <= i < |m.board.deleteTitle| ==> m.board.deleteTitle[i] < '\U{0080}'
    ensures var typed := m.(board := m.board.(deleteInput := TypeConfirmation("", KeysFor(m.board.deleteTitle))));
      DeleteDialogKey(typed, "enter").cmds == [DeleteWorkItem(m.board.deleteId)]
  {
    TypingAppends("", m.board.deleteTitle);
    assert "" + m.board.deleteTitle == m.board.deleteTitle;
  }

  /** A character typed into the dialog and erased leaves the typed text as it was. */
  lemma ConfirmationTypeThenErase(input: string, c: char)
    requires c < '\U{0080}'
    ensures EditConfirmation(EditConfirmation(input, [c]), "backspace") == input
  {
    assert (input + [c])[..|input|] == input;
  }

  /** `d`: opens the delete dialog for the item under the cursor, when there is one. */
  function StartDelete(m: Model): (r: Next)
    requires Valid(m) && !m.board.deleting
    ensures r.cmds == []
    ensures r.model.board.deleting <==> m.board.cursor < |m.board.workItems|
    ensures r.model.board.deleting ==>
      var wi := m.board.workItems[m.board.cursor];
      && r.model.board.deleteId == wi.id && r.model.board.deleteTitle == wi.fields.title
      && r.model.board.deleteInput == "" && r.model.err.None?
      && r.model == m.(board := r.model.board, err := None)
      && r.model.board == m.board.(deleting := true, deleteId := wi.id, deleteTitle := wi.fields.title, deleteInput := "")
    ensures !r.model.board.deleting ==> r.model == m
  {
    if |m.board.workItems| > 0 && m.board.cursor < |m.board.workItems| then
      var wi := m.board.workItems[m.board.cursor];
      Next(m.(board := m.board.(deleting := true, deleteId := wi.id, deleteTitle := wi.fields.title, deleteInput := ""),
              err := None), [])
    else Next(m, [])
  }

  // ------------------------------------------------------------------
  // Leaving the board
  // ------------------------------------------------------------------

  /** The texts the detail fields start with: title, state, the assignee's
      unique name (empty when unassigned), tags, and an empty comment. */
  function DetailValues(wi: WorkItem): seq<string>
  {
    [wi.fields.title, wi.fields.state,
     if wi.fields.assignedTo.Some? then wi.fields.assignedTo.value.uniqueName else "",
     wi.fields.tags, ""]
  }

  /** The detail state for `wi` with the fields `inputs`: first field current,
      comments and related items cleared, every panel collapsed. */
  function DetailFor(d: Detail, wi: WorkItem, inputs: seq<TextInput>): Detail
  {
    d.(selected := Some(wi), inputs := inputs, focus := 0, comments := [], parent := None, children := [],
       relatedExpanded := false, relatedCursor := 0, commentsExpanded := false, commentScroll := 0,
       iterationExpanded := false, iterationCursor := 0)
  }

  /** Opening the detail screen as board.go does it: the first field is
      focused, but the field that had the focus when the screen was last left
      is not blurred. */
  function OpenDetailAsWritten(m: Model, wi: WorkItem): (r: Next)
    requires |m.detail.inputs| == 5
    ensures |r.model.detail.inputs| == 5 && r.model.detail.inputs[0].focused
    ensures forall i :: 1 <= i < 5 ==> r.model.detail.inputs[i].focused == m.detail.inputs[i].focused
  {
    var inputs := WithValues(m.detail.inputs, DetailValues(wi));
    var inputs := inputs[0 := inputs[0].(focused := true)];
    Next(m.(view := DetailView, detail := DetailFor(m.detail, wi, inputs), err := None, message := ""),
         [FetchComments(wi.id), FetchRelatedItems(wi.id)])
  }

  /** Opening the detail screen with the other fields blurred, as the create
      screen does: exactly the first field has the focus. */
  function OpenDetail(m: Model, wi: WorkItem): (r: Next)
    requires Valid(m) && m.view == BoardView
    ensures Valid(r.model) && r.model.view == DetailView
    ensures r.model.detail.selected == Some(wi) && r.model.detail.focus == 0
    ensures Values(r.model.detail.inputs) == DetailValues(wi) && FocusedAt(r.model.detail.inputs, 0)
    ensures r.model.detail.comments == [] && r.model.detail.parent.None? && r.model.detail.children == []
    ensures !r.model.detail.commentsExpanded && r.model.detail.commentScroll == 0
    ensures r.model.err.None? && r.model.message == ""
    ensures r.cmds == [FetchComments(wi.id), FetchRelatedItems(wi.id)]
    ensures r.model.board == m.board && r.model.create == m.create && r.model.creds == m.creds
  {
    var inputs := FocusOnly(WithValues(m.detail.inputs, DetailValues(wi)), 0);
    Next(m.(view := DetailView, detail := DetailFor(m.detail, wi, inputs), err := None, message := ""),
         [FetchComments(wi.id), FetchRelatedItems(wi.id)])
  }

  /** `c`/`n`: the create screen with the title field focused and the
      assignee prefilled with the user name; the other fields keep their text. */
  function OpenCreate(m: Model): (r: Next)
    requires Valid(m) && m.view == BoardView
    ensures Valid(r.model) && r.model.view == CreateView && r.cmds == []
    ensures r.model.create.focus == 0 && FocusedAt(r.model.create.inputs, 0)
    ensures Values(r.model.create.inputs) == Values(m.create.inputs)[3 := m.username]
    ensures r.model.create.typeIndex == m.create.typeIndex
    ensures r.model.err.None? && r.model.message == ""
  {
    var inputs := FocusOnly(m.create.inputs, 0);
    var inputs := inputs[3 := inputs[3].(value := m.username)];
    assert Values(inputs) == Values(m.create.inputs)[3 := m.username];
    Next(m.(view := CreateView, create := m.create.(focus := 0, inputs := inputs), err := None, message := ""), [])
  }

  // ------------------------------------------------------------------
  // updateBoard
  // ------------------------------------------------------------------

  /** `a`: flips between the user's own items and all items, back to the
      first row, and fetches with the new filter. */
  function ToggleFilter(m: Model): (r: Next)
    ensures r.model.showAll == !m.showAll && r.model.loading && r.model.board.cursor == 0
    ensures r.model == m.(showAll := !m.showAll, loading := true, board := m.board.(cursor := 0))
    ensures r.cmds == [FetchItemsCmd(r.model)]
  {
    var m' := m.(showAll := !m.showAll, loading := true, board := m.board.(cursor := 0));
    Next(m', [FetchItemsCmd(m')])
  }

  /** `updateBoard` for a key. */
  function BoardKey(m: Model, key: string): (r: Next)
    requires Valid(m) && m.view == BoardView
    ensures Valid(r.model)
    ensures r.model.board.workItems == m.board.workItems
    ensures m.board.deleting ==> r == DeleteDialogKey(m, key)
  {
    if m.board.deleting then DeleteDialogKey(m, key)
    else if IsNavKey(key) then
      var c := MoveCursor(m.board.cursor, |m.board.workItems|, PageSize(m.height), key);
      Next(m.(board := m.board.(cursor := c)), [])
    else if key == "r" then Next(m.(loading := true, err := None), [FetchItemsCmd(m)])
    else if key == "a" then ToggleFilter(m)
    else if key == "o" then Next(m, [])
    else if key == "e" || key == "enter" then
      if |m.board.workItems| > 0 && m.board.cursor < |m.board.workItems| then
        OpenDetail(m, m.board.workItems[m.board.cursor])
      else Next(m, [])
    else if key == "c" || key == "n" then OpenCreate(m)
    else if key == "d" then StartDelete(m)
    else if key == "q" then Next(m, [Quit])
    else Next(m, [])
  }

  /** The key table of the list when no confirmation is pending: the
      navigation keys move the cursor and a key the list does not handle
      changes nothing. */
  lemma BoardKeyNavigation(m: Model, key: string)
    requires Valid(m) && m.view == BoardView && !m.board.deleting
    ensures IsNavKey(key) ==>
      BoardKey(m, key) == Next(m.(board := m.board.(cursor := MoveCursor(m.board.cursor, |m.board.workItems|, PageSize(m.height), key))), [])
    ensures !IsNavKey(key) && key !in ["r", "a", "o", "e", "enter", "c", "n", "d", "q"] ==> BoardKey(m, key) == Next(m, [])
  {
  }

  /** `r` marks the list as loading, clears the error and refetches. */
  lemma BoardKeyRefresh(m: Model)
    requires Valid(m) && m.view == BoardView && !m.board.deleting
    ensures BoardKey(m, "r").model == m.(loading := true, err := None) && BoardKey(m, "r").cmds == [FetchItemsCmd(m)]
  {
  }

  /** `a` toggles between my items and all items. */
  lemma BoardKeyFilter(m: Model)
    requires Valid(m) && m.view == BoardView && !m.board.deleting
    ensures BoardKey(m, "a") == ToggleFilter(m)
  {
  }

  /** `o` leaves the model as it is; the browser is outside the model. */
  lemma BoardKeyBrowser(m: Model)
    requires Valid(m) && m.view == BoardView && !m.board.deleting
    ensures BoardKey(m, "o") == Next(m, [])
  {
  }

  /** `q` quits without changing the model. */
  lemma BoardKeyQuit(m: Model)
    requires Valid(m) && m.view == BoardView && !m.board.deleting
    ensures BoardKey(m, "q") == Next(m, [Quit])
  {
  }

  /** `e` and `enter` open the item under the cursor, if there is one. */
  lemma BoardKeyEdit(m: Model)
    requires Valid(m) && m.view == BoardView && !m.board.deleting
    ensures BoardKey(m, "e") == BoardKey(m, "enter") == (if m.board.cursor < |m.board.workItems| then OpenDetail(m, m.board.workItems[m.board.cursor]) else Next(m, []))
  {
  }

  /** `c` and `n` open the creation form. */
  lemma BoardKeyCreate(m: Model)
    requires Valid(m) && m.view == BoardView && !m.board.deleting
    ensures BoardKey(m, "c") == BoardKey(m, "n") == OpenCreate(m)
  {
  }

  /** `d` asks to delete the item under the cursor. */
  lemma BoardKeyDelete(m: Model)
    requires Valid(m) && m.view == BoardView && !m.board.deleting
    ensures BoardKey(m, "d") == StartDelete(m)
  {
  }


  /** The whole key table of the list when no confirmation is pending. */
  lemma BoardKeyTable(m: Model, key: string)
    requires Valid(m) && m.view == BoardView && !m.board.deleting
    ensures key == "r" ==> BoardKey(m, key).model == m.(loading := true, err := None) && BoardKey(m, key).cmds == [FetchItemsCmd(m)]
    ensures key == "a" ==> BoardKey(m, key) == ToggleFilter(m)
    ensures key == "o" ==> BoardKey(m, key) == Next(m, [])
    ensures key == "q" ==> BoardKey(m, key) == Next(m, [Quit])
    ensures (key == "e" || key == "enter") ==>
      BoardKey(m, key) == (if m.board.cursor < |m.board.workItems| then OpenDetail(m, m.board.workItems[m.board.cursor]) else Next(m, []))
    ensures (key == "c" || key == "n") ==> BoardKey(m, key) == OpenCreate(m)
    ensures key == "d" ==> BoardKey(m, key) == StartDelete(m)
  {
    BoardKeyRefresh(m);
    BoardKeyFilter(m);
    BoardKeyBrowser(m);
    BoardKeyQuit(m);
    BoardKeyEdit(m);
    BoardKeyCreate(m);
    BoardKeyDelete(m);
  }

  /** Pressing `a` twice restores the filter and fetches with the original one. */
  lemma FilterToggleTwice(m: Model)
    requires Valid(m) && m.view == BoardView && !m.board.deleting
    ensures var once := BoardKey(m, "a").model;
      && BoardKey(once, "a").model.showAll == m.showAll
      && BoardKey(once, "a").cmds == [FetchItemsCmd(m)]
  {
  }
}
