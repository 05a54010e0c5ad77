/** The detail screen (`updateDetail`): moving between the four editable
    fields and the comment field, saving the edits, adding a comment, and
    paging through the comments; also the window of comments `viewDetail`
    draws and the clean-up of a comment's text. */
module TuiDetail {
  import opened Common
  import opened Client
  import opened TuiModel

  const DetailFieldCount: int := 5
  /** The comment field is the last of the five. */
  const CommentField: int := 4

  // ------------------------------------------------------------------
  // updateDetail
  // ------------------------------------------------------------------

  /** tab/down and shift+tab/up: the focus moves round the five fields while
      the comments are collapsed, and nothing happens while they are expanded. */
  function DetailFocus(m: Model, forward: bool): (r: Model)
    requires Valid(m) && m.view == DetailView
    ensures Valid(r) && r.view == DetailView
    ensures Values(r.detail.inputs) == Values(m.detail.inputs)
    ensures r == m.(detail := r.detail)
    ensures m.detail.commentsExpanded ==> r == m
    ensures !m.detail.commentsExpanded ==>
      r.detail.focus == (if forward then NextIndex(m.detail.focus, 5) else PrevIndex(m.detail.focus, 5))
  {
    var d := m.detail;
    if d.commentsExpanded then m
    else
      var f := if forward then NextIndex(d.focus, DetailFieldCount) else PrevIndex(d.focus, DetailFieldCount);
      m.(detail := d.(focus := f, inputs := FocusOnly(d.inputs, f)))
  }

  /** j/k: the comments scroll by one, within the list, and only while expanded. */
  function Scroll(d: Detail, down: bool): (r: Detail)
    requires 0 <= d.commentScroll
    ensures r == d.(commentScroll := r.commentScroll) && 0 <= r.commentScroll
    ensures !d.commentsExpanded ==> r == d
    ensures r.commentScroll != d.commentScroll ==>
      if down then r.commentScroll == d.commentScroll + 1 && r.commentScroll < |d.comments|
      else r.commentScroll == d.commentScroll - 1
  {
    if !d.commentsExpanded then d
    else if down && d.commentScroll < |d.comments| - 1 then d.(commentScroll := d.commentScroll + 1)
    else if !down && d.commentScroll > 0 then d.(commentScroll := d.commentScroll - 1)
    else d
  }

  /** The detail screen with its comment panel changed, and nothing else. */
  function WithCommentPanel(m: Model, expanded: bool, scroll: int): (r: Model)
    requires Valid(m) && m.view == DetailView && 0 <= scroll
    ensures Valid(r) && r.view == DetailView
    ensures r == m.(detail := m.detail.(commentsExpanded := expanded, commentScroll := scroll))
  {
    m.(detail := m.detail.(commentsExpanded := expanded, commentScroll := scroll))
  }

  /** What a key does on the detail screen. */
  datatype DetailAction =
    | MoveFocus(forward: bool)
    | Save
    | Submit
    | ToggleComments
    | ScrollComments(down: bool)
    | Edit

  /** The case of `updateDetail` a key falls into; every other key is an edit. */
  function DetailActionOf(key: string): (a: DetailAction)
    ensures a.MoveFocus? ==> a.forward == (key == "tab" || key == "down")
    ensures a.MoveFocus? <==> key == "tab" || key == "down" || key == "shift+tab" || key == "up"
    ensures a.Save? <==> key == "ctrl+s"
    ensures a.Submit? <==> key == "enter"
    ensures a.ToggleComments? <==> key == "v"
    ensures a.ScrollComments? <==> key == "j" || key == "k"
    ensures a.ScrollComments? ==> a.down == (key == "j")
  {
    if key == "tab" || key == "down" then MoveFocus(true)
    else if key == "shift+tab" || key == "up" then MoveFocus(false)
    else if key == "ctrl+s" then Save
    else if key == "enter" then Submit
    else if key == "v" then ToggleComments
    else if key == "j" then ScrollComments(true)
    else if key == "k" then ScrollComments(false)
    else Edit
  }

  /** ctrl+s: sends the four edited fields as the item's new title, state,
      assignee and tags. */
  function SaveDetail(m: Model): (r: Next)
    requires Valid(m) && m.view == DetailView
    ensures r.model == m.(loading := true)
    ensures var v := Values(m.detail.inputs);
      r.cmds == [UpdateItem(m.detail.selected.value.id, v[0], v[1], v[2], v[3])]
  {
    var v := Values(m.detail.inputs);
    Next(m.(loading := true), [UpdateItem(m.detail.selected.value.id, v[0], v[1], v[2], v[3])])
  }

  /** enter: adds the comment field's text as a comment, when that field has
      the focus and is not empty. */
  function SubmitComment(m: Model): (r: Next)
    requires Valid(m) && m.view == DetailView
    ensures r.cmds != [] <==> m.detail.focus == CommentField && m.detail.inputs[CommentField].value != ""
    ensures r.cmds != [] ==>
      && r.cmds == [AddComment(m.detail.selected.value.id, m.detail.inputs[CommentField].value)]
      && r.model == m.(loading := true)
    ensures r.cmds == [] ==> r.model == m
  {
    var d := m.detail;
    if d.focus == CommentField && d.inputs[CommentField].value != "" then
      Next(m.(loading := true), [AddComment(d.selected.value.id, d.inputs[CommentField].value)])
    else Next(m, [])
  }

  /** Any other key goes to the focused field, unless the comments are expanded. */
  function EditDetail(m: Model, key: string): (r: Model)
    requires Valid(m) && m.view == DetailView
    ensures Valid(r) && r.view == DetailView && r == m.(detail := r.detail)
    ensures r.detail == m.detail.(inputs := r.detail.inputs)
    ensures m.detail.commentsExpanded ==> r == m
    ensures !m.detail.commentsExpanded ==>
      && r.detail.inputs[m.detail.focus] == EditInput(m.detail.inputs[m.detail.focus], key)
      && forall i :: 0 <= i < 5 && i != m.detail.focus ==> r.detail.inputs[i] == m.detail.inputs[i]
  {
    var d := m.detail;
    if d.commentsExpanded then m
    else
      TypeIntoKeepsFocus(d.inputs, key, d.focus);
      m.(detail := d.(inputs := TypeInto(d.inputs, key)))
  }

  /** `updateDetail` for a key (esc is handled before it is reached). */
  function DetailKey(m: Model, key: string): (r: Next)
    requires Valid(m) && m.view == DetailView
    ensures Valid(r.model) && r.model.view == DetailView
    ensures r.model.detail.selected == m.detail.selected && r.model.board == m.board
    // a request is sent only by ctrl+s, and by enter on a non-empty comment field
    ensures r.cmds != [] <==>
      key == "ctrl+s" || (key == "enter" && m.detail.focus == CommentField && m.detail.inputs[CommentField].value != "")
    ensures key == "ctrl+s" ==> r == SaveDetail(m)
    ensures key == "enter" ==> r == SubmitComment(m)
    // the comment keys never reach the fields
    ensures key == "v" || key == "j" || key == "k" ==> r.model.detail.inputs == m.detail.inputs
  {
    var d := m.detail;
    match DetailActionOf(key)
    case MoveFocus(forward) => Next(DetailFocus(m, forward), [])
    case Save => SaveDetail(m)
    case Submit => SubmitComment(m)
    case ToggleComments => Next(WithCommentPanel(m, !d.commentsExpanded, 0), [])
    case ScrollComments(down) =>
      var s := Scroll(d, down);
      Next(WithCommentPanel(m, s.commentsExpanded, s.commentScroll), [])
    case Edit => Next(EditDetail(m, key), [])
  }

  // ------------------------------------------------------------------
  // The expanded comment list
  // ------------------------------------------------------------------

  const CommentsVisible: int := 5

  /** The comments drawn when expanded: from the scroll position, at most
      five, never past the end. */
  function CommentWindow(n: int, scroll: int): (w: (int, int))
    requires 0 <= scroll && 0 <= n
    ensures w.0 == scroll && w.1 <= n && w.1 - w.0 <= CommentsVisible
    ensures scroll < n ==> w.0 < w.1 && (w.1 == n || w.1 - w.0 == CommentsVisible)
  {
    (scroll, Min(scroll + CommentsVisible, n))
  }

  /** A scroll position the j/k keys can reach from the top of a list of `n`. */
  predicate ScrollInRange(n: int, scroll: int)
  {
    0 <= scroll && (scroll == 0 || scroll < n)
  }

  /** Scrolling keeps the position in range, so the expanded list of a
      non-empty comment list always shows at least one comment. */
  lemma ScrollKeepsCommentsVisible(d: Detail, down: bool)
    requires ScrollInRange(|d.comments|, d.commentScroll)
    ensures var s := Scroll(d, down).commentScroll;
      && ScrollInRange(|d.comments|, s)
      && (|d.comments| > 0 ==> var w := CommentWindow(|d.comments|, s); w.0 < w.1)
  {
  }

  /** The "Showing a-b of n" line, when there are more comments than fit. */
  function ScrollIndicator(n: int, scroll: int): (r: Option<(int, int, int)>)
    requires 0 <= scroll && 0 <= n
    ensures r.Some? <==> n > CommentsVisible
    ensures r.Some? ==> r.value == (scroll + 1, CommentWindow(n, scroll).1, n)
  {
    if n > CommentsVisible then Some((scroll + 1, CommentWindow(n, scroll).1, n)) else None
  }

  // ------------------------------------------------------------------
  // A comment's text
  // ------------------------------------------------------------------

  /** Removes `<div>` and `</div>` and turns `<br>` into a line break. */
  function StripMarkup(text: string): (r: string)
    ensures |r| <= |text|
    ensures !Contains(text, "<div>") && !Contains(text, "</div>") && !Contains(text, "<br>") ==> r == text
  {
    var a := ReplaceAll(text, "<div>", "");
    var b := ReplaceAll(a, "</div>", "");
    ReplaceAll(b, "<br>", "\n")
  }

  const MaxCommentLength: int := 200

  /** Texts over 200 characters are cut to 197 and marked with "...". */
  function Truncate(t: string): (r: string)
    ensures |r| <= MaxCommentLength
    ensures |t| <= MaxCommentLength ==> r == t
    ensures |t| > MaxCommentLength ==> |r| == MaxCommentLength && r[..197] == t[..197] && r[197..] == "..."
  {
    if |t| > MaxCommentLength then t[..197] + "..." else t
  }

  /** Cutting a cut text again changes nothing. */
  lemma TruncateIdempotent(t: string)
    ensures Truncate(Truncate(t)) == Truncate(t)
  {
  }

  /** The text drawn for a comment. */
  function CommentText(text: string): (r: string)
    ensures |r| <= MaxCommentLength && |r| <= |text|
  {
    Truncate(StripMarkup(text))
  }
}
