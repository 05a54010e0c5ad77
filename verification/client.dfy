/** The decision logic of the Azure DevOps REST client: the paging window, the
    JSON-patch operation lists sent to the work-item endpoints, the relation
    search used to unlink items, the parent/child classification of relations
    and the planning-field allow-list. Every HTTP exchange is abstracted: a
    request the client would send is recorded as a `Request` value and the
    server's decoded reply is an input. */
module Client {
  import opened Common

  // ------------------------------------------------------------------
  // Entities
  // ------------------------------------------------------------------

  /** Connection settings (the HTTP client itself is not modelled). */
  datatype Client = Client(organization: string, project: string, team: string, areaPath: string, pat: string)

  datatype Identity = Identity(displayName: string, uniqueName: string)

  /** A 64-bit floating-point value, carried through untouched. */
  datatype Float64 = Float64(bits: bv64)

  datatype Fields = Fields(
    title: string,
    state: string,
    workItemType: string,
    assignedTo: Option<Identity>,
    description: string,
    areaPath: string,
    iterationPath: string,
    priority: int,
    tags: string)

  datatype Relation = Relation(rel: string, url: string)

  datatype WorkItem = WorkItem(id: int, rev: int, fields: Fields, url: string, relations: seq<Relation>)

  datatype Comment = Comment(id: int, text: string, createdBy: Identity, createdDate: string)

  /** The `value` member of a JSON-patch operation. */
  datatype Value =
    | Absent
    | Text(text: string)
    | Number(number: int)
    | Decimal(decimal: Float64)
    | Link(rel: string, url: string)
    | AnnotatedLink(rel: string, url: string, comment: string)

  datatype OpKind = Add | Replace | Remove

  datatype PatchOp = PatchOp(op: OpKind, path: string, value: Value)

  /** A request the client sends; the server's reply is an input of each operation. */
  datatype Request =
    | QueryWiql(url: string, query: string)
    | GetItemsBatch(ids: string)
    | GetItem(id: int)
    | CreateItem(workItemType: string, ops: seq<PatchOp>)
    | PatchItem(id: int, ops: seq<PatchOp>)

  /** The requests an operation sent, in order, and what it returned. */
  datatype Call<+T> = Call(requests: seq<Request>, result: T)

  const HierarchyReverse: string := "System.LinkTypes.Hierarchy-Reverse"
  const HierarchyForward: string := "System.LinkTypes.Hierarchy-Forward"

  const TitlePath: string := "/fields/System.Title"
  const StatePath: string := "/fields/System.State"
  const DescriptionPath: string := "/fields/System.Description"
  const PriorityPath: string := "/fields/Microsoft.VSTS.Common.Priority"
  const AreaPathPath: string := "/fields/System.AreaPath"
  const AssignedToPath: string := "/fields/System.AssignedTo"
  const TagsPath: string := "/fields/System.Tags"
  const RelationsEnd: string := "/relations/-"

  const StoryPointsField: string := "Microsoft.VSTS.Scheduling.StoryPoints"
  const OriginalEstimateField: string := "Microsoft.VSTS.Scheduling.OriginalEstimate"
  const RemainingWorkField: string := "Microsoft.VSTS.Scheduling.RemainingWork"
  const CompletedWorkField: string := "Microsoft.VSTS.Scheduling.CompletedWork"
  const EffortField: string := "Microsoft.VSTS.Scheduling.Effort"

  function FieldPath(referenceName: string): string { "/fields/" + referenceName }

  // ------------------------------------------------------------------
  // URLs
  // ------------------------------------------------------------------

  function BaseUrl(c: Client): string
  {
    "https://dev.azure.com/" + c.organization + "/" + c.project
  }

  /** The URL WIQL queries go to: scoped to the team when one is configured. */
  function TeamUrl(c: Client): (r: string)
    ensures BaseUrl(c) <= r
    ensures r == BaseUrl(c) <==> c.team == ""
    ensures c.team != "" ==> r[|BaseUrl(c)|..] == "/" + c.team
  {
    if c.team != "" then BaseUrl(c) + "/" + c.team else BaseUrl(c)
  }

  /** The root of the work item tracking API. */
  function WitUrl(c: Client): string
  {
    BaseUrl(c) + "/_apis/wit/"
  }

  /** The URL by which a relation refers to another work item. */
  function WorkItemUrl(c: Client, id: int): string
  {
    WitUrl(c) + "workItems/" + IntToString(id)
  }

  // ------------------------------------------------------------------
  // Reading an op list back
  // ------------------------------------------------------------------

  /** The value an op list leaves at `path` when applied in order (the last
      operation on a path wins); None when no operation touches it. */
  function ValueAt(ops: seq<PatchOp>, path: string): Option<Value>
  {
    if |ops| == 0 then None
    else
      var later := ValueAt(ops[1..], path);
      if later.Some? then later
      else if ops[0].path == path then Some(ops[0].value)
      else None
  }

  /** Position of `path` in a fixed field order (|order| when absent). */
  function Rank(order: seq<string>, path: string): nat
  {
    if |order| == 0 then 0
    else if order[0] == path then 0
    else 1 + Rank(order[1..], path)
  }

  /** The op list touches the paths of `order` only, each at most once, in that order. */
  predicate Ascending(ops: seq<PatchOp>, order: seq<string>)
  {
    (forall i :: 0 <= i < |ops| ==> ops[i].path in order)
    && (forall i :: 0 <= i < |ops| - 1 ==> Rank(order, ops[i].path) < Rank(order, ops[i + 1].path))
  }

  /** An operation the builders append only when its condition holds. */
  datatype Candidate = Candidate(enabled: bool, op: PatchOp)

  /** The enabled operations, in candidate order. */
  function Pick(cs: seq<Candidate>): seq<PatchOp>
  {
    if |cs| == 0 then []
    else (if cs[0].enabled then [cs[0].op] else []) + Pick(cs[1..])
  }

  function PathsOf(cs: seq<Candidate>): (r: seq<string>)
    ensures |r| == |cs| && forall i :: 0 <= i < |cs| ==> r[i] == cs[i].op.path
  {
    if |cs| == 0 then [] else [cs[0].op.path] + PathsOf(cs[1..])
  }

  predicate DistinctPaths(cs: seq<Candidate>)
  {
    forall i, j :: 0 <= i < j < |cs| ==> cs[i].op.path != cs[j].op.path
  }

  function Included(cs: seq<Candidate>): nat
  {
    if |cs| == 0 then 0 else (if cs[0].enabled then 1 else 0) + Included(cs[1..])
  }

  /** Whatever holds of every candidate operation holds of every picked one. */
  lemma {:induction false} PickKeeps(cs: seq<Candidate>, p: PatchOp -> bool)
    requires forall i :: 0 <= i < |cs| ==> p(cs[i].op)
    ensures forall k :: 0 <= k < |Pick(cs)| ==> p(Pick(cs)[k])
    ensures |Pick(cs)| == Included(cs) <= |cs|
  {
    if |cs| > 0 {
      PickKeeps(cs[1..], p);
    }
  }

  lemma {:induction false} ValueAtAbsent(ops: seq<PatchOp>, path: string)
    requires forall k :: 0 <= k < |ops| ==> ops[k].path != path
    ensures ValueAt(ops, path) == None
  {
    if |ops| > 0 {
      ValueAtAbsent(ops[1..], path);
    }
  }

  /** Reading back a picked op list: each candidate's path holds its value
      exactly when that candidate was enabled. */
  lemma {:induction false} PickValueAt(cs: seq<Candidate>, i: nat)
    requires DistinctPaths(cs) && i < |cs|
    ensures ValueAt(Pick(cs), cs[i].op.path) == if cs[i].enabled then Some(cs[i].op.value) else None
  {
    var rest := cs[1..];
    var p := cs[i].op.path;
    if i == 0 {
      PickKeeps(rest, (op: PatchOp) => op.path != p);
      ValueAtAbsent(Pick(rest), p);
    } else {
      assert rest[i - 1] == cs[i];
      assert cs[0].op.path != p;
      PickValueAt(rest, i - 1);
    }
    if cs[0].enabled {
      assert Pick(cs) == [cs[0].op] + Pick(rest);
      assert Pick(cs)[1..] == Pick(rest);
    } else {
      assert Pick(cs) == Pick(rest);
    }
  }

  lemma AscendingCons(op: PatchOp, tail: seq<PatchOp>, order: seq<string>)
    requires |order| > 0 && order[0] == op.path
    requires Ascending(tail, order[1..])
    requires forall k :: 0 <= k < |tail| ==> tail[k].path != op.path
    ensures Ascending(tail, order) && Ascending([op] + tail, order)
  {
    assert forall k :: 0 <= k < |tail| ==> Rank(order, tail[k].path) == 1 + Rank(order[1..], tail[k].path);
    var ops := [op] + tail;
    assert forall k :: 1 <= k < |ops| ==> ops[k] == tail[k - 1];
  }

  /** A picked op list follows candidate order. */
  lemma {:induction false} PickAscending(cs: seq<Candidate>)
    requires DistinctPaths(cs)
    ensures Ascending(Pick(cs), PathsOf(cs))
  {
    if |cs| > 0 {
      var rest := cs[1..];
      PickAscending(rest);
      var order := PathsOf(cs);
      assert order[1..] == PathsOf(rest);
      PickKeeps(rest, (op: PatchOp) => op.path != cs[0].op.path);
      AscendingCons(cs[0].op, Pick(rest), order);
    }
  }

  lemma Included4(a: Candidate, b: Candidate, c: Candidate, d: Candidate)
    ensures Included([a, b, c, d]) == (if a.enabled then 1 else 0) + (if b.enabled then 1 else 0)
                                       + (if c.enabled then 1 else 0) + (if d.enabled then 1 else 0)
  {
    assert [a, b, c, d][1..] == [b, c, d];
    assert [b, c, d][1..] == [c, d];
    assert [c, d][1..] == [d];
    assert [d][1..] == [];
    assert Included([d]) == (if d.enabled then 1 else 0);
    assert Included([c, d]) == (if c.enabled then 1 else 0) + Included([d]);
    assert Included([b, c, d]) == (if b.enabled then 1 else 0) + Included([c, d]);
  }

  /** Every fact a builder states about its picked op list. */
  lemma PickReadBack(cs: seq<Candidate>, kind: OpKind)
    requires DistinctPaths(cs)
    requires forall i :: 0 <= i < |cs| ==> cs[i].op.op == kind
    ensures forall i :: 0 <= i < |cs| ==> ValueAt(Pick(cs), cs[i].op.path) == if cs[i].enabled then Some(cs[i].op.value) else None
    ensures Ascending(Pick(cs), PathsOf(cs))
    ensures |Pick(cs)| == Included(cs) <= |cs|
    ensures forall k :: 0 <= k < |Pick(cs)| ==> Pick(cs)[k].op == kind
  {
    forall i | 0 <= i < |cs| ensures ValueAt(Pick(cs), cs[i].op.path) == if cs[i].enabled then Some(cs[i].op.value) else None {
      PickValueAt(cs, i);
    }
    PickAscending(cs);
    PickKeeps(cs, (op: PatchOp) => op.op == kind);
  }

  // ------------------------------------------------------------------
  // Create, link and update op lists
  // ------------------------------------------------------------------

  const CreateOrder: seq<string> := [TitlePath, DescriptionPath, PriorityPath, AreaPathPath, AssignedToPath]

  /** No field path appears twice in a field order. */
  predicate DistinctOrder(order: seq<string>)
  {
    forall i, j :: 0 <= i < j < |order| ==> order[i] != order[j]
  }

  /** The create field paths have pairwise different lengths. */
  lemma CreateOrderDistinct()
    ensures DistinctOrder(CreateOrder)
  {
    assert |TitlePath| == 20 && |DescriptionPath| == 26 && |PriorityPath| == 38;
    assert |AreaPathPath| == 23 && |AssignedToPath| == 25;
  }

  function CreateCandidates(c: Client, title: string, description: string, priority: int, assignedTo: string): (cs: seq<Candidate>)
    ensures DistinctPaths(cs) && PathsOf(cs) == CreateOrder
  {
    CreateOrderDistinct();
    [ Candidate(true, PatchOp(Add, TitlePath, Text(title))),
      Candidate(description != "", PatchOp(Add, DescriptionPath, Text(description))),
      Candidate(priority > 0, PatchOp(Add, PriorityPath, Number(priority))),
      Candidate(c.areaPath != "", PatchOp(Add, AreaPathPath, Text(c.areaPath))),
      Candidate(assignedTo != "", PatchOp(Add, AssignedToPath, Text(assignedTo))) ]
  }

  /** The op list `CreateWorkItemWithAssignee` posts: the title, then the
      description, priority, area path and assignee, each only when given. */
  function CreateOps(c: Client, title: string, description: string, priority: int, assignedTo: string): (ops: seq<PatchOp>)
    ensures |ops| >= 1 && ops[0] == PatchOp(Add, TitlePath, Text(title))
    ensures forall i :: 0 <= i < |ops| ==> ops[i].op == Add
    ensures Ascending(ops, CreateOrder)
    ensures ValueAt(ops, TitlePath) == Some(Text(title))
    ensures ValueAt(ops, DescriptionPath) == if description != "" then Some(Text(description)) else None
    ensures ValueAt(ops, PriorityPath) == if priority > 0 then Some(Number(priority)) else None
    ensures ValueAt(ops, AreaPathPath) == if c.areaPath != "" then Some(Text(c.areaPath)) else None
    ensures ValueAt(ops, AssignedToPath) == if assignedTo != "" then Some(Text(assignedTo)) else None
  {
    var cs := CreateCandidates(c, title, description, priority, assignedTo);
    PickReadBack(cs, Add);
    assert cs[1].op.path == DescriptionPath && cs[2].op.path == PriorityPath;
    assert cs[3].op.path == AreaPathPath && cs[4].op.path == AssignedToPath;
    Pick(cs)
  }

  /** The relation operation that links a new or existing item to `target`. */
  function LinkOp(c: Client, relType: string, target: int): PatchOp
  {
    PatchOp(Add, RelationsEnd, Link(relType, WorkItemUrl(c, target)))
  }

  /** `CreateWorkItemWithParentAndAssignee`: the same fields as a plain create,
      followed by exactly one parent-link operation. */
  function CreateWithParentOps(c: Client, title: string, description: string, priority: int, parentId: int, assignedTo: string): (ops: seq<PatchOp>)
    ensures |ops| == |CreateOps(c, title, description, priority, assignedTo)| + 1
    ensures ops[..|ops| - 1] == CreateOps(c, title, description, priority, assignedTo)
    ensures ops[|ops| - 1].op == Add && ops[|ops| - 1].path == RelationsEnd
    ensures ops[|ops| - 1].value == Link(HierarchyReverse, WitUrl(c) + "workItems/" + IntToString(parentId))
  {
    var base := CreateOps(c, title, description, priority, assignedTo);
    var ops := base + [LinkOp(c, HierarchyReverse, parentId)];
    assert ops[..|ops| - 1] == base;
    ops
  }

  /** `AddChildLink(parent, child)`: one forward-link operation patched onto the parent. */
  function AddChildLinkRequest(c: Client, parentId: int, childId: int): (r: Request)
    ensures r.PatchItem? && r.id == parentId && |r.ops| == 1
    ensures r.ops[0].op == Add && r.ops[0].path == RelationsEnd
    ensures r.ops[0].value == Link(HierarchyForward, WitUrl(c) + "workItems/" + IntToString(childId))
  {
    PatchItem(parentId, [LinkOp(c, HierarchyForward, childId)])
  }

  /** `RemoveRelation(id, index)`: a single remove operation on `/relations/<index>`. */
  function RemoveRelationRequest(workItemId: int, index: nat): (r: Request)
    ensures r.PatchItem? && r.id == workItemId && |r.ops| == 1
    ensures r.ops[0].op == Remove && r.ops[0].value == Absent
    ensures r.ops[0].path == "/relations/" + NatToDigits(index)
  {
    PatchItem(workItemId, [PatchOp(Remove, "/relations/" + IntToString(index), Absent)])
  }

  const UpdateOrder: seq<string> := [TitlePath, StatePath, AssignedToPath, TagsPath]

  function UpdateCandidates(title: string, state: string, assignedTo: string, tags: string): (cs: seq<Candidate>)
    ensures DistinctPaths(cs) && PathsOf(cs) == UpdateOrder
  {
    [ Candidate(title != "", PatchOp(Replace, TitlePath, Text(title))),
      Candidate(state != "", PatchOp(Replace, StatePath, Text(state))),
      Candidate(true, PatchOp(Replace, AssignedToPath, Text(assignedTo))),
      Candidate(true, PatchOp(Replace, TagsPath, Text(tags))) ]
  }

  /** The op list `UpdateWorkItem` patches: title and state only when non-empty,
      the assignee and tags always (an empty value clears them). */
  function UpdateOps(title: string, state: string, assignedTo: string, tags: string): (ops: seq<PatchOp>)
    ensures 2 <= |ops| <= 4
    ensures forall i :: 0 <= i < |ops| ==> ops[i].op == Replace
    ensures Ascending(ops, UpdateOrder)
    ensures ValueAt(ops, TitlePath) == if title != "" then Some(Text(title)) else None
    ensures ValueAt(ops, StatePath) == if state != "" then Some(Text(state)) else None
    ensures ValueAt(ops, AssignedToPath) == Some(Text(assignedTo))
    ensures ValueAt(ops, TagsPath) == Some(Text(tags))
  {
    var cs := UpdateCandidates(title, state, assignedTo, tags);
    PickReadBack(cs, Replace);
    assert cs[0].op.path == TitlePath && cs[1].op.path == StatePath;
    assert cs[2].op.path == AssignedToPath && cs[3].op.path == TagsPath;
    Included4(cs[0], cs[1], cs[2], cs[3]);
    Pick(cs)
  }

  /** `UpdateWorkItem`: the op list is never empty, so the request is always
      sent and its reply is what the call returns. */
  function UpdateWorkItem(workItemId: int, title: string, state: string, assignedTo: string, tags: string,
                          reply: Result<WorkItem>): (r: Call<Result<WorkItem>>)
    ensures r.requests == [PatchItem(workItemId, UpdateOps(title, state, assignedTo, tags))]
    ensures r.result == reply
  {
    var ops := UpdateOps(title, state, assignedTo, tags);
    if |ops| == 0 then Call([], Err("no updates specified"))
    else Call([PatchItem(workItemId, ops)], reply)
  }

  // ------------------------------------------------------------------
  // Planning updates
  // ------------------------------------------------------------------

  const StoryPointsPath: string := "/fields/Microsoft.VSTS.Scheduling.StoryPoints"
  const OriginalEstimatePath: string := "/fields/Microsoft.VSTS.Scheduling.OriginalEstimate"
  const RemainingWorkPath: string := "/fields/Microsoft.VSTS.Scheduling.RemainingWork"
  const CompletedWorkPath: string := "/fields/Microsoft.VSTS.Scheduling.CompletedWork"

  const PlanningOrder: seq<string> := [StoryPointsPath, OriginalEstimatePath, RemainingWorkPath, CompletedWorkPath]

  function Given(v: Option<Float64>): Option<Value>
  {
    if v.Some? then Some(Decimal(v.value)) else None
  }

  function CountGiven(a: Option<Float64>, b: Option<Float64>, c: Option<Float64>, d: Option<Float64>): nat
  {
    (if a.Some? then 1 else 0) + (if b.Some? then 1 else 0) + (if c.Some? then 1 else 0) + (if d.Some? then 1 else 0)
  }

  function PlanningOp(path: string, v: Option<Float64>): Candidate
  {
    Candidate(v.Some?, PatchOp(Add, path, if v.Some? then Decimal(v.value) else Absent))
  }

  function PlanningCandidates(storyPoints: Option<Float64>, originalEstimate: Option<Float64>,
                              remainingWork: Option<Float64>, completedWork: Option<Float64>): (cs: seq<Candidate>)
    ensures DistinctPaths(cs) && PathsOf(cs) == PlanningOrder
  {
    [ PlanningOp(StoryPointsPath, storyPoints), PlanningOp(OriginalEstimatePath, originalEstimate),
      PlanningOp(RemainingWorkPath, remainingWork), PlanningOp(CompletedWorkPath, completedWork) ]
  }

  /** The op list of `UpdateWorkItemPlanning`: one `add` per supplied value, in
      the fixed order story points, original estimate, remaining work,
      completed work; an error, before any request, when nothing is supplied. */
  function PlanningOps(storyPoints: Option<Float64>, originalEstimate: Option<Float64>,
                       remainingWork: Option<Float64>, completedWork: Option<Float64>): (r: Result<seq<PatchOp>>)
    ensures r.Err? <==> storyPoints.None? && originalEstimate.None? && remainingWork.None? && completedWork.None?
    ensures r.Err? ==> r.error == "no planning updates specified"
    ensures r.Ok? ==> |r.value| == CountGiven(storyPoints, originalEstimate, remainingWork, completedWork)
    ensures r.Ok? ==> forall i :: 0 <= i < |r.value| ==> r.value[i].op == Add
    ensures r.Ok? ==> Ascending(r.value, PlanningOrder)
    ensures r.Ok? ==> ValueAt(r.value, StoryPointsPath) == Given(storyPoints)
    ensures r.Ok? ==> ValueAt(r.value, OriginalEstimatePath) == Given(originalEstimate)
    ensures r.Ok? ==> ValueAt(r.value, RemainingWorkPath) == Given(remainingWork)
    ensures r.Ok? ==> ValueAt(r.value, CompletedWorkPath) == Given(completedWork)
  {
    var cs := PlanningCandidates(storyPoints, originalEstimate, remainingWork, completedWork);
    PickReadBack(cs, Add);
    var ops := Pick(cs);
    Included4(cs[0], cs[1], cs[2], cs[3]);
    assert cs[0].op.path == StoryPointsPath && cs[1].op.path == OriginalEstimatePath;
    assert cs[2].op.path == RemainingWorkPath && cs[3].op.path == CompletedWorkPath;
    if |ops| == 0 then Err("no planning updates specified") else Ok(ops)
  }

  /** A patch built from an op-list outcome: an error stops the call before
      any request, otherwise exactly one PATCH is sent and its reply returned. */
  function SendPatch(workItemId: int, ops: Result<seq<PatchOp>>, reply: Result<WorkItem>): (r: Call<Result<WorkItem>>)
    ensures ops.Err? ==> r.requests == [] && r.result == Err(ops.error)
    ensures ops.Ok? ==> r.requests == [PatchItem(workItemId, ops.value)] && r.result == reply
  {
    match ops
    case Err(e) => Call([], Err(e))
    case Ok(o) => Call([PatchItem(workItemId, o)], reply)
  }

  /** `UpdateWorkItemPlanning`. */
  function UpdateWorkItemPlanning(workItemId: int, storyPoints: Option<Float64>, originalEstimate: Option<Float64>,
                                  remainingWork: Option<Float64>, completedWork: Option<Float64>,
                                  reply: Result<WorkItem>): (r: Call<Result<WorkItem>>)
    ensures r.requests == [] <==> storyPoints.None? && originalEstimate.None? && remainingWork.None? && completedWork.None?
    ensures r.requests == [] ==> r.result == Err("no planning updates specified")
  {
    SendPatch(workItemId, PlanningOps(storyPoints, originalEstimate, remainingWork, completedWork), reply)
  }

  /** The key order of a map as Go's range happens to enumerate it: every key
      exactly once, in an order the model leaves open. */
  predicate Enumerates(order: seq<string>, fields: map<string, Float64>)
  {
    |order| == |fields|
    && (forall i :: 0 <= i < |order| ==> order[i] in fields)
    && (forall i, j :: 0 <= i < j < |order| ==> order[i] != order[j])
  }

  function DynamicOps(order: seq<string>, fields: map<string, Float64>): seq<PatchOp>
    requires forall i :: 0 <= i < |order| ==> order[i] in fields
  {
    if |order| == 0 then []
    else [PatchOp(Add, FieldPath(order[0]), Decimal(fields[order[0]]))] + DynamicOps(order[1..], fields)
  }

  lemma {:induction false} DynamicOpsMembers(order: seq<string>, fields: map<string, Float64>)
    requires forall i :: 0 <= i < |order| ==> order[i] in fields
    ensures |DynamicOps(order, fields)| == |order|
    ensures forall i :: 0 <= i < |order| ==> DynamicOps(order, fields)[i] == PatchOp(Add, FieldPath(order[i]), Decimal(fields[order[i]]))
  {
    if |order| > 0 {
      DynamicOpsMembers(order[1..], fields);
    }
  }

  lemma DistinctKeysCoverMap(order: seq<string>, fields: map<string, Float64>)
    requires Enumerates(order, fields)
    ensures forall k :: k in fields ==> k in order
  {
    var seen := set i | 0 <= i < |order| :: order[i];
    assert seen <= fields.Keys;
    SetSizeOfDistinct(order);
    if exists k :: k in fields && k !in order {
      var k :| k in fields && k !in order;
      assert seen < fields.Keys;
      SubsetSize(seen, fields.Keys);
      assert false;
    }
  }

  lemma SubsetSize(a: set<string>, b: set<string>)
    requires a < b
    ensures |a| < |b|
  {
    var x :| x in b && x !in a;
    assert a <= b - {x};
    assert |b - {x}| == |b| - 1;
    if |a| > |b - {x}| {
      SubsetNotLarger(a, b - {x});
    }
    SubsetNotLarger(a, b - {x});
  }

  lemma {:induction false} SubsetNotLarger(a: set<string>, b: set<string>)
    requires a <= b
    ensures |a| <= |b|
    decreases |b|
  {
    if a != {} {
      var x :| x in a;
      SubsetNotLarger(a - {x}, b - {x});
    }
  }

  lemma {:induction false} SetSizeOfDistinct(order: seq<string>)
    requires forall i, j :: 0 <= i < j < |order| ==> order[i] != order[j]
    ensures |set i | 0 <= i < |order| :: order[i]| == |order|
  {
    if |order| > 0 {
      var rest := order[1..];
      SetSizeOfDistinct(rest);
      var s := set i | 0 <= i < |order| :: order[i];
      var t := set i | 0 <= i < |rest| :: rest[i];
      assert s == t + {order[0]} by {
        forall x | x in s ensures x in t + {order[0]} {
          var i :| 0 <= i < |order| && order[i] == x;
          if i > 0 { assert rest[i - 1] == x; }
        }
        forall x | x in t ensures x in s {
          var i :| 0 <= i < |rest| && rest[i] == x;
          assert order[i + 1] == x;
        }
      }
      assert order[0] !in t;
    }
  }

  /** The op list of `UpdateWorkItemPlanningDynamic`: one `add` per map entry,
      in map-iteration order, and an error for an empty map. */
  function PlanningOpsDynamic(fields: map<string, Float64>, order: seq<string>): (r: Result<seq<PatchOp>>)
    requires Enumerates(order, fields)
    ensures r.Err? <==> |fields| == 0
    ensures r.Err? ==> r.error == "no planning updates specified"
    ensures r.Ok? ==> |r.value| == |fields|
    ensures r.Ok? ==> forall k :: k in fields ==> PatchOp(Add, FieldPath(k), Decimal(fields[k])) in r.value
    ensures r.Ok? ==> forall op :: op in r.value ==> exists k :: k in fields && op == PatchOp(Add, FieldPath(k), Decimal(fields[k]))
  {
    var ops := DynamicOps(order, fields);
    DynamicOpsMembers(order, fields);
    DistinctKeysCoverMap(order, fields);
    assert forall k :: k in fields ==> exists i :: 0 <= i < |order| && order[i] == k && ops[i] == PatchOp(Add, FieldPath(k), Decimal(fields[k]));
    if |ops| == 0 then Err("no planning updates specified") else Ok(ops)
  }

  // ------------------------------------------------------------------
  // Planning-field allow-list
  // ------------------------------------------------------------------

  /** A field definition as the work-item-type fields endpoint reports it. */
  datatype TypeField = TypeField(referenceName: string, name: string, alwaysRequired: bool, readOnly: bool)

  datatype PlanningField = PlanningField(referenceName: string, displayName: string, value: Option<Float64>)

  /** The fixed table of planning fields and their display names. */
  function PlanningDisplayName(referenceName: string): Option<string>
  {
    if referenceName == StoryPointsField then Some("Story Points")
    else if referenceName == OriginalEstimateField then Some("Original Estimate (hours)")
    else if referenceName == RemainingWorkField then Some("Remaining Work (hours)")
    else if referenceName == CompletedWorkField then Some("Completed Work (hours)")
    else if referenceName == EffortField then Some("Effort")
    else None
  }

  predicate Editable(f: TypeField)
  {
    PlanningDisplayName(f.referenceName).Some? && !f.readOnly
  }

  /** Some editable schema field carries the reference name `name`. */
  predicate EditableIn(fields: seq<TypeField>, name: string)
  {
    exists j :: 0 <= j < |fields| && Editable(fields[j]) && fields[j].referenceName == name
  }

  /** The planning fields of a type, in schema order: reference-side definition. */
  function PlanningFieldsOf(fields: seq<TypeField>): seq<PlanningField>
  {
    if |fields| == 0 then []
    else
      var last := fields[|fields| - 1];
      PlanningFieldsOf(fields[..|fields| - 1])
      + (if Editable(last) then [PlanningField(last.referenceName, PlanningDisplayName(last.referenceName).value, None)] else [])
  }

  /** What the filter keeps: table fields that are not read-only, each with
      the table's display name and no value. */
  lemma {:induction false} PlanningFieldsOfKeeps(fields: seq<TypeField>)
    ensures |PlanningFieldsOf(fields)| <= |fields|
    ensures forall k :: 0 <= k < |PlanningFieldsOf(fields)| ==>
      PlanningFieldsOf(fields)[k].value.None?
      && PlanningDisplayName(PlanningFieldsOf(fields)[k].referenceName) == Some(PlanningFieldsOf(fields)[k].displayName)
    ensures forall k :: 0 <= k < |PlanningFieldsOf(fields)| ==> EditableIn(fields, PlanningFieldsOf(fields)[k].referenceName)
  {
    if |fields| > 0 {
      var init := fields[..|fields| - 1];
      PlanningFieldsOfKeeps(init);
      var r := PlanningFieldsOf(fields);
      var r0 := PlanningFieldsOf(init);
      forall k | 0 <= k < |r|
        ensures r[k].value.None? && PlanningDisplayName(r[k].referenceName) == Some(r[k].displayName)
        ensures EditableIn(fields, r[k].referenceName)
      {
        if k < |r0| {
          assert r[k] == r0[k];
          assert EditableIn(init, r0[k].referenceName);
          var j :| 0 <= j < |init| && Editable(init[j]) && init[j].referenceName == r0[k].referenceName;
          assert fields[j] == init[j];
        } else {
          assert Editable(fields[|fields| - 1]);
          assert fields[|fields| - 1].referenceName == r[k].referenceName;
        }
      }
    }
  }

  /** `GetPlanningFields` after the schema has been fetched: keeps the fields
      of the fixed table that are not read-only, in schema order, with the
      table's display name and no value. */
  method GetPlanningFields(fields: seq<TypeField>) returns (r: seq<PlanningField>)
    ensures r == PlanningFieldsOf(fields)
    ensures |r| <= |fields|
    ensures forall k :: 0 <= k < |r| ==> r[k].value.None? && PlanningDisplayName(r[k].referenceName) == Some(r[k].displayName)
    ensures forall k :: 0 <= k < |r| ==> EditableIn(fields, r[k].referenceName)
  {
    r := [];
    var i := 0;
    while i < |fields|
      invariant 0 <= i <= |fields|
      invariant r == PlanningFieldsOf(fields[..i])
    {
      var f := fields[i];
      assert fields[..i + 1][..i] == fields[..i];
      var name := PlanningDisplayName(f.referenceName);
      if name.Some? && !f.readOnly {
        r := r + [PlanningField(f.referenceName, name.value, None)];
      }
      i := i + 1;
    }
    assert fields[..i] == fields;
    PlanningFieldsOfKeeps(fields);
  }

  /** The filter keeps schema order: filtering a concatenation is the
      concatenation of the filtered parts. */
  lemma {:induction false} PlanningFieldsAppend(a: seq<TypeField>, b: seq<TypeField>)
    ensures PlanningFieldsOf(a + b) == PlanningFieldsOf(a) + PlanningFieldsOf(b)
    decreases |b|
  {
    if |b| == 0 {
      assert a + b == a;
    } else {
      var b' := b[..|b| - 1];
      assert (a + b)[..|a + b| - 1] == a + b';
      PlanningFieldsAppend(a, b');
    }
  }

  /** A single schema field is kept exactly when it is an editable planning field. */
  lemma PlanningFieldsSingle(f: TypeField)
    ensures |PlanningFieldsOf([f])| == 1 <==> Editable(f)
    ensures |PlanningFieldsOf([f])| <= 1
    ensures Editable(f) ==> PlanningFieldsOf([f])[0].displayName == PlanningDisplayName(f.referenceName).value
  {
    assert [f][..0] == [];
  }

  // ------------------------------------------------------------------
  // Paging
  // ------------------------------------------------------------------

  /** The local slicing of `GetWorkItemsPaged` over the IDs the query returned.
      A negative `top` panics in Go as soon as there is something left to cut. */
  function PageRefs(refs: seq<int>, top: int, skip: int): (r: Outcome<seq<int>>)
    ensures r.Panics? <==> 0 < |refs| && skip < |refs| && top < 0
    ensures r.Returns? ==> |r.value| == Max(0, Min(top, |refs| - Max(skip, 0)))
    ensures r.Returns? ==> forall i :: 0 <= i < |r.value| ==> r.value[i] == refs[Max(skip, 0) + i]
  {
    if |refs| == 0 then Returns([])
    else
      var rest :=
        if skip > 0 && skip < |refs| then refs[skip..]
        else if skip >= |refs| then []
        else refs;
      if skip >= |refs| then Returns([])
      else if |rest| > top then (if top < 0 then Panics else Returns(rest[..top]))
      else Returns(rest)
  }

  /** For a non-negative page request the window is exactly
      refs[skip .. min(skip + top, |refs|)], empty once skip passes the end. */
  lemma PageWindow(refs: seq<int>, top: int, skip: int)
    requires top >= 0 && skip >= 0
    ensures PageRefs(refs, top, skip) == Returns(if skip >= |refs| then [] else refs[skip..Min(skip + top, |refs|)])
  {
    if 0 < |refs| && skip < |refs| {
      var rest := if skip > 0 then refs[skip..] else refs;
      assert rest == refs[skip..];
      if |rest| > top {
        assert rest[..top] == refs[skip..skip + top];
      } else {
        assert rest == refs[skip..|refs|];
      }
    }
  }

  /** WIQL text of the query (project, optional type, assignee and area path). */
  function WiqlQuery(c: Client, workItemType: string, assignedTo: string): string
  {
    "SELECT [System.Id] FROM WorkItems WHERE [System.TeamProject] = '" + c.project + "'"
    + (if workItemType != "" then " AND [System.WorkItemType] = '" + workItemType + "'" else "")
    + (if assignedTo != "" then " AND [System.AssignedTo] = '" + assignedTo + "'" else "")
    + (if c.areaPath != "" then " AND [System.AreaPath] UNDER '" + c.areaPath + "'" else "")
    + " ORDER BY [System.ChangedDate] DESC"
  }

  function WiqlUrl(c: Client, top: int, skip: int): string
  {
    TeamUrl(c) + "/_apis/wit/wiql?api-version=7.0&$top=" + IntToString(top + skip)
  }

  function FormatIds(ids: seq<int>): (r: seq<string>)
    ensures |r| == |ids|
    ensures forall i :: 0 <= i < |ids| ==> r[i] == IntToString(ids[i])
  {
    if |ids| == 0 then [] else [IntToString(ids[0])] + FormatIds(ids[1..])
  }

  /** The `ids` parameter of the batch request, built as the source builds it:
      a comma before every ID but the first. */
  method JoinIds(ids: seq<string>) returns (r: string)
    ensures r == Join(ids, ",")
  {
    r := "";
    var i := 0;
    while i < |ids|
      invariant 0 <= i <= |ids|
      invariant r == Join(ids[..i], ",")
    {
      JoinSnoc(ids[..i], ids[i]);
      assert ids[..i + 1] == ids[..i] + [ids[i]];
      if i > 0 {
        r := r + ",";
      }
      r := r + ids[i];
      i := i + 1;
    }
    assert ids[..i] == ids;
  }

  lemma {:induction false} JoinSnoc(parts: seq<string>, x: string)
    ensures Join(parts + [x], ",") == if |parts| == 0 then x else Join(parts, ",") + "," + x
    decreases |parts|
  {
    if |parts| == 0 {
      assert parts + [x] == [x];
    } else if |parts| == 1 {
      assert parts + [x] == [parts[0], x];
      assert [parts[0], x][1..] == [x];
    } else {
      assert (parts + [x])[1..] == parts[1..] + [x];
      JoinSnoc(parts[1..], x);
    }
  }

  /** Decimal IDs joined with commas split back into the same IDs, so the
      batch parameter has one comma between neighbours and none at the ends. */
  lemma IdsParamRoundTrip(ids: seq<int>)
    requires |ids| >= 1
    ensures Split(Join(FormatIds(ids), ","), ',') == FormatIds(ids)
  {
    var parts := FormatIds(ids);
    forall i | 0 <= i < |parts| ensures ',' !in parts[i] {
      assert parts[i] == IntToString(ids[i]);
      IntToStringNoComma(ids[i]);
    }
    SplitJoin(parts, ',');
  }

  lemma IntToStringNoComma(n: int)
    ensures ',' !in IntToString(n)
  {
    var s := IntToString(n);
    if n < 0 {
      assert forall i :: 1 <= i < |s| ==> s[i] == s[1..][i - 1];
    }
    assert forall i :: 0 <= i < |s| ==> s[i] != ',';
  }

  /** `getWorkItemsByIDs`: no request at all for an empty ID list, otherwise a
      single batch request whose reply is returned. */
  method GetWorkItemsByIds(ids: seq<string>, batch: string -> Result<seq<WorkItem>>) returns (r: Call<Result<seq<WorkItem>>>)
    ensures |ids| == 0 ==> r == Call([], Ok([]))
    ensures |ids| > 0 ==> r == Call([GetItemsBatch(Join(ids, ","))], batch(Join(ids, ",")))
  {
    if |ids| == 0 {
      return Call([], Ok([]));
    }
    var param := JoinIds(ids);
    r := Call([GetItemsBatch(param)], batch(param));
  }

  /** `GetWorkItemsPaged` with the WIQL reply (the IDs in server order) and the
      batch reply as inputs. */
  method GetWorkItemsPaged(c: Client, workItemType: string, assignedTo: string, top: int, skip: int,
                           wiql: Result<seq<int>>, batch: string -> Result<seq<WorkItem>>)
    returns (r: Outcome<Call<Result<seq<WorkItem>>>>)
    ensures r.Panics? <==> wiql.Ok? && PageRefs(wiql.value, top, skip).Panics?
    ensures r.Returns? ==> (|r.value.requests| >= 1
      && r.value.requests[0] == QueryWiql(WiqlUrl(c, top, skip), WiqlQuery(c, workItemType, assignedTo)))
    ensures wiql.Err? ==> r == Returns(Call([QueryWiql(WiqlUrl(c, top, skip), WiqlQuery(c, workItemType, assignedTo))], Err(wiql.error)))
    ensures wiql.Ok? && PageRefs(wiql.value, top, skip).Returns? ==>
      var page := PageRefs(wiql.value, top, skip).value;
      r.Returns?
      && (|page| == 0 ==> r.value.requests == [r.value.requests[0]] && r.value.result == Ok([]))
      && (|page| > 0 ==> r.value.requests == [r.value.requests[0], GetItemsBatch(Join(FormatIds(page), ","))]
                         && r.value.result == batch(Join(FormatIds(page), ",")))
  {
    var query := QueryWiql(WiqlUrl(c, top, skip), WiqlQuery(c, workItemType, assignedTo));
    if wiql.Err? {
      return Returns(Call([query], Err(wiql.error)));
    }
    var page := PageRefs(wiql.value, top, skip);
    if page.Panics? {
      return Panics;
    }
    var fetched := GetWorkItemsByIds(FormatIds(page.value), batch);
    r := Returns(Call([query] + fetched.requests, fetched.result));
  }

  // ------------------------------------------------------------------
  // Work-item ID extraction from a relation URL
  // ------------------------------------------------------------------

  /** `fmt.Sscanf(s, "%d", &id)`: the scanned value, or `id` unchanged when the scan fails. */
  function ScanInto(s: string, id: int): int
  {
    match ScanInt(s)
    case Some(v) => v
    case None => id
  }

  /** The second half of the extractor: when the number scanned from the tail
      window is not positive, scan the text after the last '/'. */
  function ExtractFallback(url: string, id: int): int
  {
    if id > 0 then id
    else match LastIndexOf(url, '/')
      case Some(i) => ScanInto(url[i + 1..], id)
      case None => 0
  }

  /** `extractWorkItemIDFromURL` as written: the first scan reads
      url[len-10:], which panics for a URL shorter than ten bytes. */
  function ExtractIdAsWritten(url: string): Outcome<int>
  {
    if |url| < 10 then Panics
    else Returns(ExtractFallback(url, ScanInto(url[|url| - 10..], 0)))
  }

  /** The extractor with the tail window clamped to the start of the string,
      so that short URLs yield 0 instead of a panic. */
  function ExtractId(url: string): int
  {
    ExtractFallback(url, ScanInto(url[Max(0, |url| - 10)..], 0))
  }

  /** On every URL the as-written extractor accepts, the two agree. */
  lemma ExtractIdAgrees(url: string)
    requires |url| >= 10
    ensures ExtractIdAsWritten(url) == Returns(ExtractId(url))
  {
  }

  /** The as-written extractor panics on the short inputs for which the
      repository's own expectations are 0, and the clamped one returns 0. */
  lemma ExtractIdShortUrls()
    ensures ExtractIdAsWritten("").Panics? && ExtractId("") == 0
    ensures ExtractIdAsWritten("abc").Panics? && ExtractId("abc") == 0
  {
    assert ScanInt("abc") == None by { ScanIntNoNumber("abc"); }
    assert LastIndexOf("abc", '/') == None;
  }

  lemma LastSlash(p: string, seg: string)
    requires '/' !in seg
    ensures LastIndexOf(p + "/" + seg, '/') == Some(|p|)
    ensures (p + "/" + seg)[|p| + 1..] == seg
  {
    var url := p + "/" + seg;
    assert url[|p|] == '/';
    assert url[|p| + 1..] == seg;
    LastIndexAt(url, '/', |p|);
  }

  /** The characters of `workItems/`: none of them can start a number. */
  lemma MarkerStartsNoNumber(k: nat)
    requires k < 10
    ensures var c := "workItems/"[k]; !IsScanSpace(c) && c != '+' && c != '-' && !IsDigit(c)
  {
    var c := "workItems/"[k];
    assert c in "workItems/";
  }

  lemma ExtractIdRoundTripTen(prefix: string, n: nat)
    requires 0 < n <= MaxInt64 && |NatToDigits(n)| == 10
    ensures ExtractId(prefix + "workItems/" + NatToDigits(n)) == n
  {
    var d := NatToDigits(n);
    var url := prefix + "workItems/" + d;
    assert url[|url| - 10..] == d;
    ScanIntDigits(n);
  }

  /** With fewer than ten characters after `workItems/`, the ten-character
      window starts inside the marker and scans to nothing. */
  lemma ShortWindowScansNothing(prefix: string, d: string)
    requires |d| < 10
    ensures var url := prefix + "workItems/" + d; ScanInt(url[|url| - 10..]) == None
  {
    var url := prefix + "workItems/" + d;
    var w := url[|url| - 10..];
    assert w[0] == "workItems/"[|d|];
    MarkerStartsNoNumber(|d|);
    ScanIntNoNumber(w);
  }

  lemma ExtractIdRoundTripShort(prefix: string, n: nat)
    requires 0 < n <= MaxInt64 && |NatToDigits(n)| < 10
    ensures ExtractId(prefix + "workItems/" + NatToDigits(n)) == n
  {
    var d := NatToDigits(n);
    var url := prefix + "workItems/" + d;
    ShortWindowScansNothing(prefix, d);
    assert ScanInto(url[Max(0, |url| - 10)..], 0) == 0;
    assert url == (prefix + "workItems") + "/" + d;
    assert '/' !in d;
    LastSlash(prefix + "workItems", d);
    ScanIntDigits(n);
    assert ScanInto(url[|prefix| + 10..], 0) == n;
  }

  /** Round trip with the URL format of relations: any prefix, then
      `workItems/`, then the decimal form of an ID of one to ten digits. */
  lemma ExtractIdRoundTrip(prefix: string, n: nat)
    requires 0 < n < 10_000_000_000
    ensures ExtractId(prefix + "workItems/" + NatToDigits(n)) == n
  {
    Pow10Ten();
    DigitsLength(n, 10);
    if |NatToDigits(n)| == 10 {
      ExtractIdRoundTripTen(prefix, n);
    } else {
      ExtractIdRoundTripShort(prefix, n);
    }
  }

  /** A last segment whose digits are cut by an underscore yields the digits
      before it, as Go's `%d` stops there. */
  lemma ExtractIdUnderscore(prefix: string)
    ensures ExtractId(prefix + "workItems/" + "12_4") == 12
  {
    var url := prefix + "workItems/" + "12_4";
    var w := url[|url| - 10..];
    assert w == "Items/12_4";
    ScanIntNoNumber(w);
    assert url == (prefix + "workItems") + "/" + "12_4";
    LastSlash(prefix + "workItems", "12_4");
    ScanIntUnderscore();
  }

  /** A final path segment of at least nine characters that holds no digit
      yields 0 (shorter segments let the ten-character window reach into the
      previous segment). */
  lemma ExtractIdNoDigits(prefix: string, seg: string)
    requires |seg| >= 9
    requires forall i :: 0 <= i < |seg| ==> seg[i] != '/' && !IsDigit(seg[i])
    ensures ExtractId(prefix + "/" + seg) == 0
  {
    var url := prefix + "/" + seg;
    var w := url[|url| - 10..];
    assert forall i :: 0 <= i < |w| ==> w[i] == url[|url| - 10 + i];
    assert forall k :: |prefix| < k < |url| ==> url[k] == seg[k - |prefix| - 1];
    ScanIntNoDigit(w);
    LastSlash(prefix, seg);
    ScanIntNoDigit(seg);
  }

  lemma ScanIntNoDigit(s: string)
    requires forall i :: 0 <= i < |s| ==> !IsDigit(s[i])
    ensures ScanInt(s) == None
  {
  }

  // ------------------------------------------------------------------
  // Relation classification
  // ------------------------------------------------------------------

  /** The parent ID the relations record: the ID in the URL of the LAST
      reverse-hierarchy relation (even when that is 0), or 0 without one. */
  function ParentIdOf(rels: seq<Relation>): int
  {
    if |rels| == 0 then 0
    else if rels[|rels| - 1].rel == HierarchyReverse then ExtractId(rels[|rels| - 1].url)
    else ParentIdOf(rels[..|rels| - 1])
  }

  /** The positive child IDs of the forward-hierarchy relations, in relation order. */
  function ChildIdsOf(rels: seq<Relation>): seq<int>
  {
    if |rels| == 0 then []
    else
      var last := rels[|rels| - 1];
      ChildIdsOf(rels[..|rels| - 1])
      + (if last.rel == HierarchyForward && ExtractId(last.url) > 0 then [ExtractId(last.url)] else [])
  }

  /** The parent ID is 0 without a reverse relation and otherwise comes from
      the last one. */
  lemma {:induction false} ParentIdOfLast(rels: seq<Relation>)
    ensures (forall j :: 0 <= j < |rels| ==> rels[j].rel != HierarchyReverse) ==> ParentIdOf(rels) == 0
    ensures forall j :: (0 <= j < |rels| && rels[j].rel == HierarchyReverse
              && (forall k :: j < k < |rels| ==> rels[k].rel != HierarchyReverse)) ==> ParentIdOf(rels) == ExtractId(rels[j].url)
  {
    if |rels| > 0 {
      var init := rels[..|rels| - 1];
      ParentIdOfLast(init);
      assert forall j :: 0 <= j < |init| ==> init[j] == rels[j];
    }
  }

  /** Some forward-hierarchy relation points at `id`. */
  predicate ForwardTo(rels: seq<Relation>, id: int)
  {
    exists j :: 0 <= j < |rels| && rels[j].rel == HierarchyForward && ExtractId(rels[j].url) == id
  }

  /** Every child ID is positive and is the ID of some forward relation. */
  lemma {:induction false} ChildIdsOfSource(rels: seq<Relation>)
    ensures forall k :: 0 <= k < |ChildIdsOf(rels)| ==> ChildIdsOf(rels)[k] > 0
    ensures forall k :: 0 <= k < |ChildIdsOf(rels)| ==> ForwardTo(rels, ChildIdsOf(rels)[k])
  {
    if |rels| > 0 {
      var init := rels[..|rels| - 1];
      ChildIdsOfSource(init);
      var kids := ChildIdsOf(rels);
      var kids0 := ChildIdsOf(init);
      forall k | 0 <= k < |kids|
        ensures kids[k] > 0
        ensures ForwardTo(rels, kids[k])
      {
        if k < |kids0| {
          assert kids[k] == kids0[k];
          assert ForwardTo(init, kids0[k]);
          var j :| 0 <= j < |init| && init[j].rel == HierarchyForward && ExtractId(init[j].url) == kids0[k];
          assert rels[j] == init[j];
        } else {
          assert rels[|rels| - 1].rel == HierarchyForward;
          assert ExtractId(rels[|rels| - 1].url) == kids[k];
        }
      }
    }
  }

  /** The relation loop of `GetRelatedWorkItems`. */
  method ClassifyRelations(rels: seq<Relation>) returns (parentId: int, childIds: seq<int>)
    ensures parentId == ParentIdOf(rels) && childIds == ChildIdsOf(rels)
    ensures (forall j :: 0 <= j < |rels| ==> rels[j].rel != HierarchyReverse) ==> parentId == 0
    ensures forall j :: (0 <= j < |rels| && rels[j].rel == HierarchyReverse
              && (forall k :: j < k < |rels| ==> rels[k].rel != HierarchyReverse)) ==> parentId == ExtractId(rels[j].url)
    ensures forall k :: 0 <= k < |childIds| ==> childIds[k] > 0
    ensures forall k :: 0 <= k < |childIds| ==> ForwardTo(rels, childIds[k])
  {
    parentId := 0;
    childIds := [];
    var i := 0;
    while i < |rels|
      invariant 0 <= i <= |rels|
      invariant parentId == ParentIdOf(rels[..i]) && childIds == ChildIdsOf(rels[..i])
    {
      var rel := rels[i];
      assert rels[..i + 1] == rels[..i] + [rel];
      ChildIdsSnoc(rels[..i], rel);
      if rel.rel == HierarchyReverse {
        parentId := ExtractId(rel.url);
      } else if rel.rel == HierarchyForward {
        var childId := ExtractId(rel.url);
        if childId > 0 {
          childIds := childIds + [childId];
        }
      }
      i := i + 1;
    }
    assert rels[..i] == rels;
    ParentIdOfLast(rels);
    ChildIdsOfSource(rels);
  }

  /** Appending a forward relation adds its ID as the last child when positive. */
  lemma ChildIdsSnoc(rels: seq<Relation>, r: Relation)
    ensures ChildIdsOf(rels + [r]) == ChildIdsOf(rels) + (if r.rel == HierarchyForward && ExtractId(r.url) > 0 then [ExtractId(r.url)] else [])
    ensures ParentIdOf(rels + [r]) == if r.rel == HierarchyReverse then ExtractId(r.url) else ParentIdOf(rels)
  {
    assert (rels + [r])[..|rels|] == rels;
  }

  /** `GetRelatedWorkItems`: the item (with relations) is fetched first; the
      parent is fetched only for a positive parent ID and the children only
      when there are some; failures of these two fetches yield no parent or no
      children, and the call itself then still succeeds. */
  method GetRelatedWorkItems(workItemId: int, item: Result<WorkItem>,
                             fetchParent: int -> Result<WorkItem>,
                             fetchChildren: string -> Result<seq<WorkItem>>)
    returns (requests: seq<Request>, parent: Option<WorkItem>, children: seq<WorkItem>, err: Option<string>)
    ensures item.Err? ==> requests == [GetItem(workItemId)] && parent.None? && children == [] && err == Some(item.error)
    ensures item.Ok? ==> err.None?
    ensures item.Ok? ==> (requests == [GetItem(workItemId)]
      + (if ParentIdOf(item.value.relations) > 0 then [GetItem(ParentIdOf(item.value.relations))] else [])
      + (if |ChildIdsOf(item.value.relations)| > 0 then [GetItemsBatch(Join(FormatIds(ChildIdsOf(item.value.relations)), ","))] else []))
    ensures item.Ok? ==> (parent.Some? <==> ParentIdOf(item.value.relations) > 0 && fetchParent(ParentIdOf(item.value.relations)).Ok?)
    ensures parent.Some? ==> parent.value == fetchParent(ParentIdOf(item.value.relations)).value
    ensures item.Ok? && |ChildIdsOf(item.value.relations)| > 0 ==>
      var reply := fetchChildren(Join(FormatIds(ChildIdsOf(item.value.relations)), ","));
      children == if reply.Ok? then reply.value else []
    ensures item.Ok? && |ChildIdsOf(item.value.relations)| == 0 ==> children == []
  {
    requests := [GetItem(workItemId)];
    if item.Err? {
      return requests, None, [], Some(item.error);
    }
    var parentId, childIds := ClassifyRelations(item.value.relations);
    parent := None;
    children := [];
    if parentId > 0 {
      requests := requests + [GetItem(parentId)];
      var p := fetchParent(parentId);
      if p.Ok? {
        parent := Some(p.value);
      }
    }
    if |childIds| > 0 {
      var fetched := GetWorkItemsByIds(FormatIds(childIds), fetchChildren);
      requests := requests + fetched.requests;
      if fetched.result.Ok? {
        children := fetched.result.value;
      }
    }
    err := None;
  }

  // ------------------------------------------------------------------
  // Unlinking
  // ------------------------------------------------------------------

  /** The matching rule of `RemoveHierarchyLink`: the relation type, and the
      URL containing `workItems/<target>` anywhere. */
  predicate LinkMatches(r: Relation, relType: string, target: int)
  {
    r.rel == relType && Contains(r.url, "workItems/" + IntToString(target))
  }

  function HierarchyType(isParent: bool): string
  {
    if isParent then HierarchyReverse else HierarchyForward
  }

  /** Reference definition: the first index whose relation matches. */
  function FirstLinkMatch(rels: seq<Relation>, relType: string, target: int): (r: Option<nat>)
    ensures r.Some? ==> r.value < |rels| && LinkMatches(rels[r.value], relType, target)
    ensures r.Some? ==> forall j :: 0 <= j < r.value ==> !LinkMatches(rels[j], relType, target)
    ensures r.None? <==> forall j :: 0 <= j < |rels| ==> !LinkMatches(rels[j], relType, target)
  {
    FirstIndex(rels, (x: Relation) => LinkMatches(x, relType, target))
  }

  /** `RemoveHierarchyLink` with the fetched item and the reply to the removal
      as inputs: the item is fetched, the first matching relation is removed
      by position, and without a match nothing is removed. */
  method RemoveHierarchyLink(workItemId: int, targetId: int, isParent: bool,
                             item: Result<WorkItem>, removeReply: Option<string>)
    returns (requests: seq<Request>, err: Option<string>)
    ensures |requests| >= 1 && requests[0] == GetItem(workItemId)
    ensures item.Err? ==> requests == [GetItem(workItemId)] && err == Some(item.error)
    ensures item.Ok? ==>
      var m := FirstLinkMatch(item.value.relations, HierarchyType(isParent), targetId);
      (m.None? ==> requests == [GetItem(workItemId)] && err == Some("relation not found"))
      && (m.Some? ==> requests == [GetItem(workItemId), RemoveRelationRequest(workItemId, m.value)] && err == removeReply)
  {
    requests := [GetItem(workItemId)];
    if item.Err? {
      return requests, Some(item.error);
    }
    var m := FindLink(item.value.relations, HierarchyType(isParent), targetId);
    if m.None? {
      return requests, Some("relation not found");
    }
    return requests + [RemoveRelationRequest(workItemId, m.value)], removeReply;
  }

  /** The scan of `RemoveHierarchyLink`: the index of the first relation of
      the given type whose URL contains `workItems/<target>`. */
  method FindLink(rels: seq<Relation>, relType: string, targetId: int) returns (m: Option<nat>)
    ensures m == FirstLinkMatch(rels, relType, targetId)
  {
    var target := "workItems/" + IntToString(targetId);
    var i := 0;
    while i < |rels|
      invariant 0 <= i <= |rels|
      invariant forall j :: 0 <= j < i ==> !LinkMatches(rels[j], relType, targetId)
    {
      if rels[i].rel == relType && Contains(rels[i].url, target) {
        FirstMatchIsUnique(rels, relType, targetId, i);
        return Some(i);
      }
      i := i + 1;
    }
    return None;
  }

  lemma FirstMatchIsUnique(rels: seq<Relation>, relType: string, target: int, i: nat)
    requires i < |rels| && LinkMatches(rels[i], relType, target)
    requires forall j :: 0 <= j < i ==> !LinkMatches(rels[j], relType, target)
    ensures FirstLinkMatch(rels, relType, target) == Some(i)
  {
    var m := FirstLinkMatch(rels, relType, target);
    assert m.Some?;
    assert !(m.value < i);
    assert !(m.value > i);
  }

  lemma ContainsTail(a: string, b: string, c: string)
    ensures Contains(a + b + c, b + c)
  {
    assert (a + b + c)[|a|..|a| + |b + c|] == b + c;
    assert OccursAt(a + b + c, b + c, |a|);
  }

  /** The URL a child link stores names that child for the substring rule. */
  lemma ChildUrlMatches(c: Client, childId: int)
    ensures LinkMatches(Relation(HierarchyForward, WitUrl(c) + "workItems/" + IntToString(childId)), HierarchyForward, childId)
  {
    ContainsTail(WitUrl(c), "workItems/", IntToString(childId));
  }

  /** A link that `AddChildLink` stored on the parent is the one
      `RemoveHierarchyLink(parent, child, false)` finds when no earlier relation matches. */
  lemma ChildLinkFound(c: Client, rels: seq<Relation>, childId: int)
    requires forall j :: 0 <= j < |rels| ==> !LinkMatches(rels[j], HierarchyForward, childId)
    ensures
      var op := AddChildLinkRequest(c, 0, childId).ops[0];
      FirstLinkMatch(rels + [Relation(op.value.rel, op.value.url)], HierarchyType(false), childId) == Some(|rels|)
  {
    var url := WitUrl(c) + "workItems/" + IntToString(childId);
    var all := rels + [Relation(HierarchyForward, url)];
    assert forall j :: 0 <= j < |rels| ==> all[j] == rels[j];
    ChildUrlMatches(c, childId);
    FirstMatchIsUnique(all, HierarchyForward, childId, |rels|);
  }

  /** A parent link written by a create-with-parent is read back by the
      classifier as the parent, and a child link written by `AddChildLink` as a child. */
  lemma LinksReadBack(c: Client, rels: seq<Relation>, id: nat)
    requires 0 < id < 10_000_000_000
    ensures ParentIdOf(rels + [Relation(HierarchyReverse, WorkItemUrl(c, id))]) == id
    ensures ChildIdsOf(rels + [Relation(HierarchyForward, WorkItemUrl(c, id))]) == ChildIdsOf(rels) + [id]
  {
    ExtractIdRoundTrip(WitUrl(c), id);
    ChildIdsSnoc(rels, Relation(HierarchyReverse, WorkItemUrl(c, id)));
    ChildIdsSnoc(rels, Relation(HierarchyForward, WorkItemUrl(c, id)));
  }

  /** The decimal forms of 12 and 123. */
  lemma SmallIds()
    ensures IntToString(12) == "12" && IntToString(123) == "123"
  {
    assert NatToDigits(1) == "1";
    assert NatToDigits(12) == NatToDigits(1) + "2";
    assert NatToDigits(123) == NatToDigits(12) + "3";
  }

  /** The substring rule lets the link to item 12 match the URL of item 123:
      with children 123 and 12 in that order, unlinking child 12 removes the
      relation at index 0, which the classifier reads as child 123. */
  lemma PrefixIdMatchesLongerId(c: Client)
    ensures
      var rels := [Relation(HierarchyForward, WorkItemUrl(c, 123)), Relation(HierarchyForward, WorkItemUrl(c, 12))];
      FirstLinkMatch(rels, HierarchyType(false), 12) == Some(0)
      && ExtractId(rels[0].url) == 123
  {
    SmallIds();
    var pre := WitUrl(c);
    var u := WorkItemUrl(c, 123);
    assert u == pre + "workItems/123";
    assert u[|pre|..|pre| + 12] == "workItems/12";
    assert OccursAt(u, "workItems/12", |pre|);
    assert "workItems/" + IntToString(12) == "workItems/12";
    assert LinkMatches(Relation(HierarchyForward, u), HierarchyForward, 12);
    assert u == pre + "workItems/" + NatToDigits(123);
    ExtractIdRoundTrip(pre, 123);
  }

  /** The intended matching rule: the relation's URL names exactly the target item. */
  predicate LinkTargets(r: Relation, relType: string, target: int)
  {
    r.rel == relType && ExtractId(r.url) == target
  }

  /** The corrected scan: the first relation of the type whose URL names
      exactly the target item. */
  function FirstExactLink(rels: seq<Relation>, relType: string, target: int): (r: Option<nat>)
    ensures r.Some? ==> r.value < |rels| && LinkTargets(rels[r.value], relType, target)
    ensures r.Some? ==> forall j :: 0 <= j < r.value ==> !LinkTargets(rels[j], relType, target)
    ensures r.None? <==> forall j :: 0 <= j < |rels| ==> !LinkTargets(rels[j], relType, target)
  {
    FirstIndex(rels, (x: Relation) => LinkTargets(x, relType, target))
  }

  /** With the exact rule, unlinking a child removes a relation exactly when
      the classifier lists that child, and the removed relation is that child's. */
  lemma ExactUnlinkMatchesChildren(rels: seq<Relation>, childId: int)
    requires childId > 0
    ensures FirstExactLink(rels, HierarchyForward, childId).Some? <==> childId in ChildIdsOf(rels)
    ensures FirstExactLink(rels, HierarchyForward, childId).Some? ==>
      ExtractId(rels[FirstExactLink(rels, HierarchyForward, childId).value].url) == childId
  {
    ChildIdsMembers(rels, childId);
    var r := FirstExactLink(rels, HierarchyForward, childId);
    if r.Some? {
      assert LinkTargets(rels[r.value], HierarchyForward, childId);
    }
  }

  /** Some forward hierarchy relation of `rels` points at `id`. */
  predicate HasChildLink(rels: seq<Relation>, id: int)
  {
    exists j :: 0 <= j < |rels| && LinkTargets(rels[j], HierarchyForward, id)
  }

  lemma HasChildLinkSnoc(init: seq<Relation>, last: Relation, id: int)
    ensures HasChildLink(init + [last], id) <==> HasChildLink(init, id) || LinkTargets(last, HierarchyForward, id)
  {
    var rels := init + [last];
    if HasChildLink(init, id) {
      var j :| 0 <= j < |init| && LinkTargets(init[j], HierarchyForward, id);
      assert rels[j] == init[j];
    }
    if LinkTargets(last, HierarchyForward, id) {
      assert rels[|init|] == last;
    }
    if HasChildLink(rels, id) {
      var j :| 0 <= j < |rels| && LinkTargets(rels[j], HierarchyForward, id);
      if j < |init| {
        assert init[j] == rels[j];
      }
    }
  }

  /** A positive ID is a child ID exactly when some forward hierarchy
      relation points at it. */
  lemma {:induction false} ChildIdsMembers(rels: seq<Relation>, id: int)
    requires id > 0
    ensures id in ChildIdsOf(rels) <==> HasChildLink(rels, id)
    decreases |rels|
  {
    if |rels| > 0 {
      var init := rels[..|rels| - 1];
      var last := rels[|rels| - 1];
      ChildIdsMembers(init, id);
      assert init + [last] == rels;
      ChildIdsSnoc(init, last);
      HasChildLinkSnoc(init, last, id);
    }
  }

}
