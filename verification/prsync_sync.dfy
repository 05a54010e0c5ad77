/** The update plans of the pull-request synchroniser: from the directives
    read out of a description (module `PrSync`) and the server's replies
    (existing children, relations, comments, parent fields), the requests
    that mirror them on the card. */
module PrSyncPlan {
  import opened Common
  import opened Client
  import opened PrSync

  // ------------------------------------------------------------------
  // Target card
  // ------------------------------------------------------------------

  /** The card the run syncs to: an empty description or a missing or zero
      card number stops the run. */
  function SyncTarget(description: string): (r: Result<nat>)
    ensures r.Ok? ==> r.value > 0 && ExtractCard(description) == Some(r.value)
    ensures r.Err? <==> description == "" || ExtractCard(description).None? || ExtractCard(description) == Some(0)
  {
    if description == "" then Err("PR description is empty")
    else match ExtractCard(description)
      case Some(n) => if n > 0 then Ok(n) else Err("No ADO Card number found in PR description")
      case None => Err("No ADO Card number found in PR description")
  }

  // ------------------------------------------------------------------
  // Description and tags
  // ------------------------------------------------------------------

  /** `update_work_item_description_and_tags`: replace the description, then
      replace the tags with the `; `-joined list or remove the field. */
  function DescriptionPatch(description: string, tags: seq<string>): (ops: seq<PatchOp>)
    ensures |ops| == 2 && ops[0].path == DescriptionPath && ops[1].path == TagsPath
    ensures ValueAt(ops, DescriptionPath) == Some(Text(description))
    ensures ops[0].op == Replace && ops[1].op == (if |tags| == 0 then Remove else Replace)
    ensures |tags| > 0 ==> ops[1] == PatchOp(Replace, TagsPath, Text(Join(tags, "; ")))
    ensures |tags| == 0 ==> ops[1] == PatchOp(Remove, TagsPath, Absent)
  {
    var tagOp := if |tags| > 0 then PatchOp(Replace, TagsPath, Text(Join(tags, "; "))) else PatchOp(Remove, TagsPath, Absent);
    var ops := [PatchOp(Replace, DescriptionPath, Text(description)), tagOp];
    assert ops[1..] == [tagOp] && ops[1..][1..] == [];
    assert ValueAt(ops[1..], DescriptionPath) == None;
    ops
  }

  /** The tags field the patch writes reads back as the extracted tags when
      no tag contains a semicolon. */
  lemma DescriptionPatchTags(description: string, tags: seq<string>)
    requires |tags| >= 1
    requires forall k :: 0 <= k < |tags| ==> Clean(tags[k]) && ';' !in tags[k]
    ensures DescriptionPatch(description, tags)[1].value.Text?
    ensures CleanPieces(Split(DescriptionPatch(description, tags)[1].value.text, ';')) == tags
  {
    SpacedJoinRoundTrip(tags, ';');
  }

  // ------------------------------------------------------------------
  // Child items
  // ------------------------------------------------------------------

  /** What the parent work item contributes to a new child. */
  datatype ParentInfo = ParentInfo(areaPath: string, iterationPath: string)

  const IterationPathPath: string := "/fields/System.IterationPath"

  /** The API root the script talks to. */
  function ApiBase(organization: string, project: string): string
  {
    "https://dev.azure.com/" + organization + "/" + project + "/_apis"
  }

  /** The ops creating a child task under `parentId`. */
  function ChildOps(apiBase: string, parentId: int, title: string, parent: ParentInfo): (ops: seq<PatchOp>)
    ensures |ops| >= 2 && ops[0] == PatchOp(Add, TitlePath, Text(title))
    ensures ops[1] == PatchOp(Add, RelationsEnd, Link(HierarchyReverse, apiBase + "/wit/workitems/" + IntToString(parentId)))
    ensures forall k :: 0 <= k < |ops| ==> ops[k].op == Add
    ensures ValueAt(ops, AreaPathPath) == if parent.areaPath == "" then None else Some(Text(parent.areaPath))
    ensures ValueAt(ops, IterationPathPath) == if parent.iterationPath == "" then None else Some(Text(parent.iterationPath))
    ensures |ops| == 2 + (if parent.areaPath != "" then 1 else 0) + (if parent.iterationPath != "" then 1 else 0)
    ensures forall k :: 2 <= k < |ops| ==> ops[k].path == AreaPathPath || ops[k].path == IterationPathPath
    ensures |ops| == 4 ==> ops[2].path == AreaPathPath && ops[3].path == IterationPathPath
  {
    var area := if parent.areaPath != "" then [PatchOp(Add, AreaPathPath, Text(parent.areaPath))] else [];
    var iteration := if parent.iterationPath != "" then [PatchOp(Add, IterationPathPath, Text(parent.iterationPath))] else [];
    var base := [PatchOp(Add, TitlePath, Text(title)), PatchOp(Add, RelationsEnd, Link(HierarchyReverse, apiBase + "/wit/workitems/" + IntToString(parentId)))];
    var ops := base + area + iteration;
    ValueAtSplit(base, area + iteration, AreaPathPath);
    ValueAtSplit(base, area + iteration, IterationPathPath);
    ValueAtSplit(area, iteration, AreaPathPath);
    ValueAtSplit(area, iteration, IterationPathPath);
    assert base + (area + iteration) == ops;
    ops
  }

  /** The value left at a path by two op lists in a row. */
  lemma {:induction false} ValueAtSplit(a: seq<PatchOp>, b: seq<PatchOp>, path: string)
    ensures ValueAt(a + b, path) == if ValueAt(b, path).Some? then ValueAt(b, path) else ValueAt(a, path)
    decreases |a|
  {
    if |a| == 0 {
      assert a + b == b;
    } else {
      ValueAtSplit(a[1..], b, path);
      assert (a + b)[1..] == a[1..] + b;
    }
  }

  /** The lower-cased titles of the existing children: the lookup keys. */
  function ChildKeys(existing: seq<string>): set<string>
  {
    set t | t in existing :: Lower(t)
  }

  /** The titles a sync creates: those whose lower-case form is not an
      existing child's, in input order; duplicates in the input are each
      created, because the keys are not updated during the loop. */
  function TitlesToCreate(titles: seq<string>, keys: set<string>): (r: seq<string>)
    ensures forall t :: multiset(r)[t] == if Lower(t) in keys then 0 else multiset(titles)[t]
  {
    if |titles| == 0 then []
    else
      var rest := TitlesToCreate(titles[1..], keys);
      assert titles == [titles[0]] + titles[1..];
      if Lower(titles[0]) in keys then rest else [titles[0]] + rest
  }

  /** The titles to create keep the input order: the selection of a
      concatenation is the concatenation of the selections. */
  lemma {:induction false} TitlesToCreateAppend(a: seq<string>, b: seq<string>, keys: set<string>)
    ensures TitlesToCreate(a + b, keys) == TitlesToCreate(a, keys) + TitlesToCreate(b, keys)
    decreases |a|
  {
    if |a| == 0 {
      assert a + b == b;
    } else {
      assert (a + b)[0] == a[0] && (a + b)[1..] == a[1..] + b;
      TitlesToCreateAppend(a[1..], b, keys);
    }
  }

  /** One title is created exactly when its lower-case form is not a key. */
  lemma TitlesToCreateSingle(t: string, keys: set<string>)
    ensures TitlesToCreate([t], keys) == (if Lower(t) in keys then [] else [t])
  {
  }

  /** `sync_child_items`: nothing for an empty list or a parent that cannot
      be fetched; otherwise one "Task" creation per title to create, in order. */
  function SyncChildItems(apiBase: string, parentId: int, titles: seq<string>, existing: seq<string>, parent: Option<ParentInfo>): (r: seq<Request>)
    ensures |titles| == 0 || parent.None? ==> r == []
    ensures parent.Some? ==> |r| == |TitlesToCreate(titles, ChildKeys(existing))|
    ensures parent.Some? ==> forall k :: 0 <= k < |r| ==>
      r[k] == CreateItem("Task", ChildOps(apiBase, parentId, TitlesToCreate(titles, ChildKeys(existing))[k], parent.value))
  {
    if |titles| == 0 then []
    else match parent
      case None => []
      case Some(info) =>
        var create := TitlesToCreate(titles, ChildKeys(existing));
        seq(|create|, k requires 0 <= k < |create| => CreateItem("Task", ChildOps(apiBase, parentId, create[k], info)))
  }

  /** Re-running the sync after every creation succeeded creates nothing:
      the new children are found by their lower-cased titles. */
  lemma ChildSyncIdempotent(titles: seq<string>, existing: seq<string>)
    ensures TitlesToCreate(titles, ChildKeys(existing + TitlesToCreate(titles, ChildKeys(existing)))) == []
  {
    var created := TitlesToCreate(titles, ChildKeys(existing));
    var keys := ChildKeys(existing + created);
    var again := TitlesToCreate(titles, keys);
    forall t
      ensures multiset(again)[t] == 0
    {
      if multiset(titles)[t] > 0 {
        if Lower(t) in ChildKeys(existing) {
          var u :| u in existing && Lower(u) == Lower(t);
          assert u in existing + created;
        } else {
          assert multiset(created)[t] > 0;
          assert t in existing + created;
        }
      }
    }
    assert multiset(again) == multiset{};
  }

  // ------------------------------------------------------------------
  // Hyperlinks
  // ------------------------------------------------------------------

  const HyperlinkRel: string := "Hyperlink"

  /** The URLs of the item's `Hyperlink` relations; empty when the item
      cannot be fetched. Other relation types do not count. */
  function ExistingHyperlinks(item: Option<seq<Relation>>): (r: set<string>)
    ensures item.None? ==> r == {}
    ensures item.Some? ==> forall u :: u in r <==> exists k :: 0 <= k < |item.value| && item.value[k] == Relation(HyperlinkRel, u)
  {
    match item
    case None => {}
    case Some(rels) =>
      var r := set k | 0 <= k < |rels| && rels[k].rel == HyperlinkRel :: rels[k].url;
      assert forall u :: u in r ==> exists k :: 0 <= k < |rels| && rels[k] == Relation(HyperlinkRel, u);
      r
  }

  /** The links a sync adds: those whose URL is not already a hyperlink, in
      input order; duplicates in the input are each added. */
  function LinksToAdd(links: seq<Hyperlink>, existing: set<string>): (r: seq<Hyperlink>)
    ensures forall h :: multiset(r)[h] == if h.url in existing then 0 else multiset(links)[h]
  {
    if |links| == 0 then []
    else
      var rest := LinksToAdd(links[1..], existing);
      assert links == [links[0]] + links[1..];
      if links[0].url in existing then rest else [links[0]] + rest
  }

  /** The links to add keep the input order: the selection of a
      concatenation is the concatenation of the selections. */
  lemma {:induction false} LinksToAddAppend(a: seq<Hyperlink>, b: seq<Hyperlink>, existing: set<string>)
    ensures LinksToAdd(a + b, existing) == LinksToAdd(a, existing) + LinksToAdd(b, existing)
    decreases |a|
  {
    if |a| == 0 {
      assert a + b == b;
    } else {
      assert (a + b)[0] == a[0] && (a + b)[1..] == a[1..] + b;
      LinksToAddAppend(a[1..], b, existing);
    }
  }

  /** One link is added exactly when its URL is not already a hyperlink. */
  lemma LinksToAddSingle(h: Hyperlink, existing: set<string>)
    ensures LinksToAdd([h], existing) == (if h.url in existing then [] else [h])
  {
  }

  function HyperlinkOp(h: Hyperlink): PatchOp
  {
    PatchOp(Add, RelationsEnd, AnnotatedLink(HyperlinkRel, h.url, h.name))
  }

  /** `sync_hyperlinks`: one single-op patch per link to add, in order;
      nothing for an empty list. */
  function SyncHyperlinks(workItemId: int, links: seq<Hyperlink>, item: Option<seq<Relation>>): (r: seq<Request>)
    ensures |links| == 0 ==> r == []
    ensures |links| > 0 ==> |r| == |LinksToAdd(links, ExistingHyperlinks(item))|
    ensures |links| > 0 ==> forall k :: 0 <= k < |r| ==>
      r[k] == PatchItem(workItemId, [HyperlinkOp(LinksToAdd(links, ExistingHyperlinks(item))[k])])
  {
    if |links| == 0 then []
    else
      var add := LinksToAdd(links, ExistingHyperlinks(item));
      seq(|add|, k requires 0 <= k < |add| => PatchItem(workItemId, [HyperlinkOp(add[k])]))
  }

  /** The relations an item gains once the added links exist. */
  function AddedRelations(links: seq<Hyperlink>): (r: seq<Relation>)
    ensures |r| == |links| && forall k :: 0 <= k < |links| ==> r[k] == Relation(HyperlinkRel, links[k].url)
  {
    seq(|links|, k requires 0 <= k < |links| => Relation(HyperlinkRel, links[k].url))
  }

  /** Re-running the sync after every link was added adds nothing. */
  lemma HyperlinkSyncIdempotent(links: seq<Hyperlink>, rels: seq<Relation>)
    ensures LinksToAdd(links, ExistingHyperlinks(Some(rels + AddedRelations(LinksToAdd(links, ExistingHyperlinks(Some(rels))))))) == []
  {
    var added := LinksToAdd(links, ExistingHyperlinks(Some(rels)));
    var rels' := rels + AddedRelations(added);
    var again := LinksToAdd(links, ExistingHyperlinks(Some(rels')));
    forall h
      ensures multiset(again)[h] == 0
    {
      if multiset(links)[h] > 0 {
        if h.url in ExistingHyperlinks(Some(rels)) {
          var k :| 0 <= k < |rels| && rels[k] == Relation(HyperlinkRel, h.url);
          assert rels'[k] == rels[k];
        } else {
          assert multiset(added)[h] > 0;
          var k :| 0 <= k < |added| && added[k] == h;
          assert rels'[|rels| + k] == Relation(HyperlinkRel, h.url);
        }
      }
    }
    assert multiset(again) == multiset{};
  }

  /** A relation of another type with the same URL does not make a link exist. */
  lemma OtherRelationsIgnored(links: seq<Hyperlink>, rels: seq<Relation>, other: Relation)
    requires other.rel != HyperlinkRel
    ensures ExistingHyperlinks(Some(rels + [other])) == ExistingHyperlinks(Some(rels))
  {
    var rels' := rels + [other];
    forall u | u in ExistingHyperlinks(Some(rels'))
      ensures u in ExistingHyperlinks(Some(rels))
    {
      var k :| 0 <= k < |rels'| && rels'[k] == Relation(HyperlinkRel, u);
      assert k < |rels| && rels[k] == rels'[k];
    }
    forall u | u in ExistingHyperlinks(Some(rels))
      ensures u in ExistingHyperlinks(Some(rels'))
    {
      var k :| 0 <= k < |rels| && rels[k] == Relation(HyperlinkRel, u);
      assert rels'[k] == rels[k];
    }
  }

  // ------------------------------------------------------------------
  // The marked comment
  // ------------------------------------------------------------------

  const CommentMarker: string := "<!-- ado-sync-comment -->"

  function CommentBody(text: string): string { CommentMarker + "\n" + text }

  datatype CommentAction = NoCommentChange | EditComment(commentId: int, text: string) | PostComment(text: string)

  predicate Marked(c: Comment) { Contains(c.text, CommentMarker) }

  /** `sync_comment`: nothing for empty text; otherwise the first comment
      carrying the marker is rewritten, or a new one is posted. */
  function SyncComment(text: string, comments: seq<Comment>): (r: CommentAction)
    ensures r.NoCommentChange? <==> text == ""
    ensures r.PostComment? <==> text != "" && forall k :: 0 <= k < |comments| ==> !Marked(comments[k])
    ensures r.PostComment? ==> r.text == CommentBody(text)
    ensures r.EditComment? ==> r.text == CommentBody(text)
    ensures r.EditComment? ==>
      exists k :: 0 <= k < |comments| && Marked(comments[k]) && comments[k].id == r.commentId && (forall j :: 0 <= j < k ==> !Marked(comments[j]))
  {
    if text == "" then NoCommentChange
    else match FirstIndex(comments, Marked)
      case Some(k) => EditComment(comments[k].id, CommentBody(text))
      case None => PostComment(CommentBody(text))
  }

  lemma BodyIsMarked(text: string)
    ensures Contains(CommentBody(text), CommentMarker)
  {
    assert OccursAt(CommentBody(text), CommentMarker, 0);
  }

  /** After a post, the next run rewrites that comment instead of posting again. */
  lemma CommentPostThenEdit(text: string, comments: seq<Comment>, posted: Comment)
    requires SyncComment(text, comments).PostComment?
    requires posted.text == SyncComment(text, comments).text
    ensures SyncComment(text, comments + [posted]) == EditComment(posted.id, CommentBody(text))
  {
    var cs := comments + [posted];
    BodyIsMarked(text);
    assert Marked(cs[|comments|]);
    assert forall j :: 0 <= j < |comments| ==> cs[j] == comments[j];
  }

  /** After an edit, the next run rewrites the same comment with the same text. */
  lemma CommentEditIsStable(text: string, comments: seq<Comment>, k: nat)
    requires k < |comments|
    requires SyncComment(text, comments) == EditComment(comments[k].id, CommentBody(text))
    requires Marked(comments[k]) && forall j :: 0 <= j < k ==> !Marked(comments[j])
    ensures SyncComment(text, comments[k := comments[k].(text := CommentBody(text))]) == SyncComment(text, comments)
  {
    var cs := comments[k := comments[k].(text := CommentBody(text))];
    BodyIsMarked(text);
    assert Marked(cs[k]);
    assert forall j :: 0 <= j < k ==> cs[j] == comments[j];
  }
}
