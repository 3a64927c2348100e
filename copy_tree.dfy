/**
 * `copy_tree` of src/commands/copy_tree.rs: the node map built from the
 * discovered descendants, the blocked set grown to a fixpoint over the parent
 * relation, the sorted child lists, the body fetches, and the pre-order
 * `walk` that creates (or, in a dry run, plans) each copy while threading the
 * old-to-new id mapping. The page-create call is an oracle; `HashMap` and
 * `HashSet` iteration order is an arbitrary choice.
 */
module CopyTree {
  import opened Wrappers
  import opened Strings
  import opened Json
  import opened Pattern
  import opened Sorting

  datatype Node = Node(id: string, parentId: Option<string>, title: string, childPosition: int, body: Option<string>)

  // ------------------------------------------------------------------ nodes

  /** `item.get("id").and_then(as_str).unwrap_or("")` */
  function ItemId(item: Json): string {
    GetStr(item, "id").GetOr("")
  }

  /** The node a descendant item becomes (its body is fetched later). */
  function ItemNode(item: Json): (n: Node)
    ensures n.id == ItemId(item) && n.body.None?
  {
    Node(ItemId(item), GetStr(item, "parentId"), GetStr(item, "title").GetOr(""),
         match Get(item, "childPosition") case Some(v) => AsI64(v).GetOr(0) case None => 0,
         None)
  }

  /** The map after inserting `items` in order; an item with an empty id is skipped. */
  function NodesFrom(start: map<string, Node>, items: seq<Json>): map<string, Node>
    decreases |items|
  {
    if items == [] then start
    else
      var m := NodesFrom(start, items[..|items| - 1]);
      var item := items[|items| - 1];
      if ItemId(item) == "" then m else m[ItemId(item) := ItemNode(item)]
  }

  /** The loop filling `nodes`: the root node first, then every descendant. */
  method CollectNodes(root: string, rootTitle: string, rootBody: string, items: seq<Json>)
    returns (nodes: map<string, Node>)
    ensures nodes == NodesFrom(map[root := Node(root, None, rootTitle, 0, Some(rootBody))], items)
  {
    var start := map[root := Node(root, None, rootTitle, 0, Some(rootBody))];
    nodes := start;
    var i := 0;
    while i < |items|
      invariant 0 <= i <= |items|
      invariant nodes == NodesFrom(start, items[..i])
    {
      assert items[..i + 1][..i] == items[..i];
      var id := ItemId(items[i]);
      if id != "" {
        nodes := nodes[id := ItemNode(items[i])];
      }
      i := i + 1;
    }
    assert items[..i] == items;
  }

  /** Every node is stored under its own id. */
  lemma {:induction false} NodesFromIds(start: map<string, Node>, items: seq<Json>)
    requires forall j :: j in start ==> start[j].id == j
    ensures forall k :: k in NodesFrom(start, items) ==> NodesFrom(start, items)[k].id == k
    decreases |items|
  {
    if items != [] {
      NodesFromIds(start, items[..|items| - 1]);
    }
  }

  /** Every key of the node map is the root or the id of some descendant. */
  lemma {:induction false} NodesFromKeys(start: map<string, Node>, items: seq<Json>, k: string)
    ensures k in NodesFrom(start, items) <==> k in start || (k != "" && exists i :: 0 <= i < |items| && ItemId(items[i]) == k)
    decreases |items|
  {
    if items != [] {
      var front := items[..|items| - 1];
      NodesFromKeys(start, front, k);
      if k != "" && ItemId(items[|items| - 1]) != k {
        KeyInFront(items, front, k);
      }
    }
  }

  lemma KeyInFront(items: seq<Json>, front: seq<Json>, k: string)
    requires items != [] && front == items[..|items| - 1] && ItemId(items[|items| - 1]) != k
    ensures (exists i :: 0 <= i < |items| && ItemId(items[i]) == k)
      <==> (exists i :: 0 <= i < |front| && ItemId(front[i]) == k)
  {
    if exists i :: 0 <= i < |items| && ItemId(items[i]) == k {
      var i :| 0 <= i < |items| && ItemId(items[i]) == k;
      assert ItemId(front[i]) == k;
    }
    if exists i :: 0 <= i < |front| && ItemId(front[i]) == k {
      var i :| 0 <= i < |front| && ItemId(front[i]) == k;
      assert ItemId(items[i]) == k;
    }
  }

  // ---------------------------------------------------------------- blocked

  /** The first `blocked` set: every node but the root whose title the
      exclusion pattern matches. */
  function Matching(nodes: map<string, Node>, root: string, exclude: Option<Regex>): set<string> {
    match exclude
    case None => {}
    case Some(re) => set id | id in nodes && id != root && IsMatch(re, nodes[id].title)
  }

  /** The loop over `nodes` that tests each title against the pattern. */
  method MarkMatching(nodes: map<string, Node>, root: string, exclude: Option<Regex>) returns (blocked: set<string>)
    ensures blocked == Matching(nodes, root, exclude)
  {
    blocked := {};
    if exclude.None? {
      return;
    }
    var re := exclude.value;
    var todo := nodes.Keys;
    while todo != {}
      invariant todo <= nodes.Keys
      invariant blocked == set id | id in nodes && id !in todo && id != root && IsMatch(re, nodes[id].title)
      decreases |todo|
    {
      var id :| id in todo;
      todo := todo - {id};
      if id != root && IsMatch(re, nodes[id].title) {
        blocked := blocked + {id};
      }
    }
  }

  /** `id`'s parent is in `s`. */
  predicate ParentIn(nodes: map<string, Node>, id: string, s: set<string>) {
    id in nodes && nodes[id].parentId.Some? && nodes[id].parentId.value in s
  }

  /** No node outside `s` has its parent inside it. */
  ghost predicate Closed(nodes: map<string, Node>, s: set<string>) {
    forall id :: ParentIn(nodes, id, s) ==> id in s
  }

  /** Following at most `k` parent links from `id` reaches a member of `b0`. */
  predicate HitsWithin(nodes: map<string, Node>, b0: set<string>, id: string, k: nat)
    decreases k
  {
    id in b0 || (k > 0 && id in nodes && nodes[id].parentId.Some? && HitsWithin(nodes, b0, nodes[id].parentId.value, k - 1))
  }

  /** Every member of `s` has a chain of parents into `b0` of length `rank`. */
  ghost predicate Derived(nodes: map<string, Node>, b0: set<string>, s: set<string>, rank: map<string, nat>) {
    forall b :: b in s ==> b in rank && HitsWithin(nodes, b0, b, rank[b])
  }

  lemma DerivedAdd(nodes: map<string, Node>, b0: set<string>, s: set<string>, rank: map<string, nat>, id: string)
    requires Derived(nodes, b0, s, rank) && ParentIn(nodes, id, s)
    ensures Derived(nodes, b0, s + {id}, rank[id := rank[nodes[id].parentId.value] + 1])
  {
    var r := rank[id := rank[nodes[id].parentId.value] + 1];
    forall b | b in s + {id} ensures b in r && HitsWithin(nodes, b0, b, r[b]) {
      if b != id {
        assert r[b] == rank[b];
      }
    }
  }

  lemma StrictlyFewer(keys: set<string>, a: set<string>, b: set<string>)
    requires a < b <= keys
    ensures |keys - b| < |keys - a|
  {
    var x :| x in b && x !in a;
    var d := b - a;
    assert keys - a == (keys - b) + d;
    assert (keys - b) * d == {};
    assert |(keys - b) + d| == |keys - b| + |d|;
    assert {x} <= d;
  }

  /** One pass of the `while changed` loop over `nodes`, in an arbitrary order. */
  method PropagatePass(nodes: map<string, Node>, ghost b0: set<string>, blocked: set<string>, ghost rank: map<string, nat>)
    returns (blocked': set<string>, ghost rank': map<string, nat>, changed: bool)
    requires blocked <= nodes.Keys && Derived(nodes, b0, blocked, rank)
    ensures blocked <= blocked' <= nodes.Keys && Derived(nodes, b0, blocked', rank')
    ensures changed ==> |nodes.Keys - blocked'| < |nodes.Keys - blocked|
    ensures !changed ==> blocked' == blocked && Closed(nodes, blocked)
  {
    blocked', rank', changed := blocked, rank, false;
    var todo := nodes.Keys;
    while todo != {}
      invariant todo <= nodes.Keys
      invariant blocked <= blocked' <= nodes.Keys && Derived(nodes, b0, blocked', rank')
      invariant changed ==> blocked < blocked'
      invariant !changed ==> blocked' == blocked
      invariant !changed ==> forall id :: id in nodes && id !in todo && ParentIn(nodes, id, blocked) ==> id in blocked
      decreases |todo|
    {
      var id :| id in todo;
      todo := todo - {id};
      if id !in blocked' && ParentIn(nodes, id, blocked') {
        DerivedAdd(nodes, b0, blocked', rank', id);
        rank' := rank'[id := rank'[nodes[id].parentId.value] + 1];
        blocked' := blocked' + {id};
        changed := true;
      }
    }
    if changed {
      StrictlyFewer(nodes.Keys, blocked, blocked');
    }
  }

  /** The propagation of the blocked set to the descendants of blocked nodes. */
  method Propagate(nodes: map<string, Node>, b0: set<string>) returns (blocked: set<string>, ghost rank: map<string, nat>)
    requires b0 <= nodes.Keys
    ensures b0 <= blocked <= nodes.Keys
    ensures Closed(nodes, blocked)
    ensures Derived(nodes, b0, blocked, rank)
  {
    blocked := b0;
    rank := map b | b in b0 :: 0;
    if blocked == {} {
      return;
    }
    var changed := true;
    while changed
      invariant b0 <= blocked <= nodes.Keys && Derived(nodes, b0, blocked, rank)
      invariant !changed ==> Closed(nodes, blocked)
      decreases |nodes.Keys - blocked| + (if changed then 1 else 0)
    {
      blocked, rank, changed := PropagatePass(nodes, b0, blocked, rank);
    }
  }

  /** A closed set that holds `b0` holds everything whose parent chain reaches `b0`. */
  lemma {:induction false} ClosedHolds(nodes: map<string, Node>, b0: set<string>, s: set<string>, id: string, k: nat)
    requires b0 <= s && Closed(nodes, s) && HitsWithin(nodes, b0, id, k)
    ensures id in s
    decreases k
  {
    if id !in b0 {
      ClosedHolds(nodes, b0, s, nodes[id].parentId.value, k - 1);
    }
  }

  /** After propagation a node is blocked iff its own title matched or its
      parent is blocked, and the blocked set is the least such set. */
  lemma BlockedRule(nodes: map<string, Node>, b0: set<string>, blocked: set<string>, rank: map<string, nat>, id: string)
    requires b0 <= blocked && Closed(nodes, blocked) && Derived(nodes, b0, blocked, rank)
    ensures id in blocked <==> id in b0 || ParentIn(nodes, id, blocked)
  {
    if id in blocked && id !in b0 {
      assert HitsWithin(nodes, b0, id, rank[id]);
      ClosedHolds(nodes, b0, blocked, nodes[id].parentId.value, rank[id] - 1);
    }
  }

  lemma BlockedLeast(nodes: map<string, Node>, b0: set<string>, blocked: set<string>, rank: map<string, nat>, s: set<string>)
    requires Derived(nodes, b0, blocked, rank)
    requires b0 <= s && Closed(nodes, s)
    ensures blocked <= s
  {
    forall b | b in blocked ensures b in s {
      ClosedHolds(nodes, b0, s, b, rank[b]);
    }
  }

  /** The root's title is never tested, and a root without a parent is never blocked. */
  lemma RootNeverBlocked(nodes: map<string, Node>, root: string, exclude: Option<Regex>,
                         blocked: set<string>, rank: map<string, nat>)
    requires root in nodes && nodes[root].parentId.None?
    requires Matching(nodes, root, exclude) <= blocked && Closed(nodes, blocked)
    requires Derived(nodes, Matching(nodes, root, exclude), blocked, rank)
    ensures root !in blocked
  {
    BlockedRule(nodes, Matching(nodes, root, exclude), blocked, rank, root);
  }

  // ---------------------------------------------------------------- children

  /** `id` belongs in the child list of `p`. */
  predicate ChildOf(nodes: map<string, Node>, blocked: set<string>, p: string, id: string) {
    id in nodes && id !in blocked && nodes[id].parentId == Some(p)
  }

  function ChildSet(nodes: map<string, Node>, blocked: set<string>, p: string): set<string> {
    set id | id in nodes && ChildOf(nodes, blocked, p, id)
  }

  /** The sort key: the child's `childPosition`, 0 for an unknown id. */
  function PositionKey(nodes: map<string, Node>): string -> int {
    id => if id in nodes then nodes[id].childPosition else 0
  }

  /** The child lists: one per parent with an unblocked child, each holding
      exactly those children once, sorted by `childPosition`. */
  ghost predicate ChildrenOk(nodes: map<string, Node>, blocked: set<string>, children: map<string, seq<string>>) {
    (forall p :: p in children <==> ChildSet(nodes, blocked, p) != {})
    && (forall p :: p in children ==> multiset(children[p]) == multiset(ChildSet(nodes, blocked, p)))
    && (forall p :: p in children ==> SortedBy(children[p], PositionKey(nodes)))
  }

  lemma ChildSetAdd(nodes: map<string, Node>, blocked: set<string>, done: set<string>, p: string, id: string)
    requires id !in done
    ensures (set x | x in done + {id} && ChildOf(nodes, blocked, p, x))
      == (set x | x in done && ChildOf(nodes, blocked, p, x)) + (if ChildOf(nodes, blocked, p, id) then {id} else {})
  {
  }

  /** The child set of `p` among the nodes visited so far. */
  function ChildrenSoFar(nodes: map<string, Node>, blocked: set<string>, done: set<string>, p: string): set<string> {
    set x | x in done && ChildOf(nodes, blocked, p, x)
  }

  /** The unsorted lists after visiting the nodes in `done`. */
  ghost predicate RawOk(nodes: map<string, Node>, blocked: set<string>, done: set<string>, raw: map<string, seq<string>>) {
    (forall p :: p in raw <==> ChildrenSoFar(nodes, blocked, done, p) != {})
    && (forall p :: p in raw ==> multiset(raw[p]) == multiset(ChildrenSoFar(nodes, blocked, done, p)))
  }

  lemma RawAdd(nodes: map<string, Node>, blocked: set<string>, done: set<string>, raw: map<string, seq<string>>, id: string)
    requires RawOk(nodes, blocked, done, raw) && id !in done && id in nodes
    ensures var raw' := if id !in blocked && nodes[id].parentId.Some? then
        var p := nodes[id].parentId.value;
        raw[p := (if p in raw then raw[p] else []) + [id]]
      else raw;
      RawOk(nodes, blocked, done + {id}, raw')
  {
    var raw' := if id !in blocked && nodes[id].parentId.Some? then
        var p := nodes[id].parentId.value;
        raw[p := (if p in raw then raw[p] else []) + [id]]
      else raw;
    forall q ensures (q in raw' <==> ChildrenSoFar(nodes, blocked, done + {id}, q) != {})
      && (q in raw' ==> multiset(raw'[q]) == multiset(ChildrenSoFar(nodes, blocked, done + {id}, q)))
    {
      ChildSetAdd(nodes, blocked, done, q, id);
      if ChildOf(nodes, blocked, q, id) {
        var before := ChildrenSoFar(nodes, blocked, done, q);
        assert id !in before;
        assert multiset(before + {id}) == multiset(before) + multiset{id};
        assert id in ChildrenSoFar(nodes, blocked, done + {id}, q);
      }
    }
  }

  /** The loop over `nodes` pushing each unblocked node onto its parent's list. */
  method RawChildren(nodes: map<string, Node>, blocked: set<string>) returns (raw: map<string, seq<string>>)
    ensures RawOk(nodes, blocked, nodes.Keys, raw)
  {
    raw := map[];
    var todo := nodes.Keys;
    ghost var done: set<string> := {};
    while todo != {}
      invariant todo <= nodes.Keys && done == nodes.Keys - todo
      invariant RawOk(nodes, blocked, done, raw)
      decreases |todo|
    {
      var id :| id in todo;
      RawAdd(nodes, blocked, done, raw, id);
      if id !in blocked && nodes[id].parentId.Some? {
        var p := nodes[id].parentId.value;
        raw := raw[p := (if p in raw then raw[p] else []) + [id]];
      }
      todo, done := todo - {id}, done + {id};
    }
  }

  lemma SoFarAll(nodes: map<string, Node>, blocked: set<string>, p: string)
    ensures ChildrenSoFar(nodes, blocked, nodes.Keys, p) == ChildSet(nodes, blocked, p)
  {
  }

  /** Child-list construction followed by the in-place sort of every list. */
  method BuildChildren(nodes: map<string, Node>, blocked: set<string>) returns (children: map<string, seq<string>>)
    ensures ChildrenOk(nodes, blocked, children)
  {
    var raw := RawChildren(nodes, blocked);
    var key := PositionKey(nodes);
    children := map p | p in raw :: SortByKey(raw[p], key);
    forall p | p in children
      ensures multiset(children[p]) == multiset(ChildSet(nodes, blocked, p))
      ensures SortedBy(children[p], key)
    {
      SortByKeySortedPermutation(raw[p], key);
      SoFarAll(nodes, blocked, p);
    }
    forall p ensures p in children <==> ChildSet(nodes, blocked, p) != {} {
      SoFarAll(nodes, blocked, p);
    }
  }

  /** Blocked nodes are in no child list, and every listed id is a known node
      whose parent is the list's owner. */
  lemma ChildrenMembers(nodes: map<string, Node>, blocked: set<string>, children: map<string, seq<string>>, p: string, x: string)
    requires ChildrenOk(nodes, blocked, children) && p in children
    ensures x in children[p] <==> ChildOf(nodes, blocked, p, x)
  {
    assert x in children[p] <==> x in multiset(children[p]);
    assert x in ChildSet(nodes, blocked, p) <==> x in multiset(ChildSet(nodes, blocked, p));
  }

  // ----------------------------------------------------------------- bodies

  /** A descendant whose storage body is still to be fetched. */
  predicate NeedsBody(nodes: map<string, Node>, root: string, blocked: set<string>, id: string) {
    id in nodes && id != root && id !in blocked && nodes[id].body.None?
  }

  /** The node map with the fetched bodies filled in. */
  ghost predicate BodiesFilled(nodes: map<string, Node>, root: string, blocked: set<string>,
                               fetch: string -> Result<string>, done: set<string>, nodes': map<string, Node>) {
    nodes'.Keys == nodes.Keys
    && forall id :: id in nodes ==>
         nodes'[id] == if id in done && NeedsBody(nodes, root, blocked, id) && fetch(id).Ok?
                       then nodes[id].(body := Some(fetch(id).value)) else nodes[id]
  }

  /** The body fetches: one `fetch_page_with_body_format(id, "storage")` per
      unblocked descendant without a body, in the map's iteration order; the
      first failure, in that order, is the error returned. */
  method FetchBodies(nodes: map<string, Node>, root: string, blocked: set<string>, fetch: string -> Result<string>)
    returns (r: Result<map<string, Node>>)
    ensures r.Ok? <==> forall id :: NeedsBody(nodes, root, blocked, id) ==> fetch(id).Ok?
    ensures r.Ok? ==> BodiesFilled(nodes, root, blocked, fetch, nodes.Keys, r.value)
    ensures r.Err? ==> exists id :: NeedsBody(nodes, root, blocked, id) && fetch(id) == Err(r.error)
  {
    var filled := nodes;
    var todo := nodes.Keys;
    while todo != {}
      invariant todo <= nodes.Keys
      invariant BodiesFilled(nodes, root, blocked, fetch, nodes.Keys - todo, filled)
      invariant forall id :: id !in todo && NeedsBody(nodes, root, blocked, id) ==> fetch(id).Ok?
      decreases |todo|
    {
      var id :| id in todo;
      if NeedsBody(nodes, root, blocked, id) {
        match fetch(id)
        case Err(e) =>
          return Err(e);
        case Ok(b) =>
          filled := filled[id := filled[id].(body := Some(b))];
      }
      todo := todo - {id};
    }
    return Ok(filled);
  }

  // ------------------------------------------------------------------- walk

  /** What `copy_tree` hands to `walk`. */
  datatype Plan = Plan(nodes: map<string, Node>, children: map<string, seq<string>>, target: string,
                       space: string, newTitle: Option<string>, suffix: string, maxDepth: nat, dryRun: bool)

  /** What `walk` changes: the id mapping, the created pages, the printed
      dry-run lines, the create payloads sent and the visited ids in order. */
  datatype WalkState = WalkState(mapping: map<string, string>, created: seq<Json>, lines: seq<string>,
                                 posts: seq<Json>, visited: seq<string>)

  datatype WalkError = MissingNode | MissingParentId | MissingParentMapping | CreateFailed(msg: string) | MissingCreatedId

  function ErrorText(e: WalkError): string {
    match e
    case MissingNode => "Missing node"
    case MissingParentId => "Missing parentId"
    case MissingParentMapping => "Missing parent mapping"
    case CreateFailed(msg) => msg
    case MissingCreatedId => "Missing created page id"
  }

  datatype WalkResult = Done(st: WalkState) | Failed(error: WalkError)

  /** The create call: the `n`-th `POST /pages` with this payload. */
  type Creator = (nat, Json) -> Result<Json>

  /** The default `--copy-suffix`. */
  const DEFAULT_SUFFIX: string := " (Copy)"

  function CopyTitle(pl: Plan, title: string, depth: nat): string {
    if depth == 0 then pl.newTitle.GetOr(title + pl.suffix) else title + pl.suffix
  }

  function CreatePayload(space: string, title: string, parent: string, body: string): Json {
    JObj(map["spaceId" := JStr(space), "title" := JStr(title), "parentId" := JStr(parent),
             "status" := JStr("current"),
             "body" := JObj(map["representation" := JStr("storage"), "value" := JStr(body)])])
  }

  /** The parent the copy goes under: the target for the root, else the copy of
      the node's own parent. */
  function NewParent(pl: Plan, node: Node, depth: nat, mapping: map<string, string>): (r: Result<string>)
    ensures depth == 0 ==> r == Ok(pl.target)
    ensures depth > 0 && r.Ok? ==> node.parentId.Some? && node.parentId.value in mapping && r.value == mapping[node.parentId.value]
  {
    if depth == 0 then Ok(pl.target)
    else if node.parentId.None? then Err("Missing parentId")
    else if node.parentId.value !in mapping then Err("Missing parent mapping")
    else Ok(mapping[node.parentId.value])
  }

  /** The work `walk` does for one node before it recurses into the children:
      print the plan and map to `<dry-run:id>`, or create the copy and map to
      the new id. */
  function VisitNode(pl: Plan, create: Creator, id: string, depth: nat, st: WalkState): WalkResult
  {
    if id !in pl.nodes then Failed(MissingNode)
    else
      var node := pl.nodes[id];
      match NewParent(pl, node, depth, st.mapping)
      case Err(e) => Failed(if e == "Missing parentId" then MissingParentId else MissingParentMapping)
      case Ok(parent) =>
        var title := CopyTitle(pl, node.title, depth);
        if pl.dryRun then
          var display := if depth == 0 then parent else "(copy of " + node.parentId.value + ")";
          Done(st.(mapping := st.mapping[node.id := "<dry-run:" + node.id + ">"],
                   lines := st.lines + ["Would create '" + title + "' under " + display],
                   visited := st.visited + [id]))
        else
          var payload := CreatePayload(pl.space, title, parent, node.body.GetOr(""));
          match create(|st.posts|, payload)
          case Err(e) => Failed(CreateFailed(e))
          case Ok(result) =>
            match GetStr(result, "id")
            case None => Failed(MissingCreatedId)
            case Some(newId) =>
              Done(st.(mapping := st.mapping[node.id := newId], created := st.created + [result],
                       posts := st.posts + [payload], visited := st.visited + [id]))
  }

  /** One step visits `id` and maps it, with the effect counts of one node. */
  lemma VisitNodeSteps(pl: Plan, create: Creator, id: string, depth: nat, st: WalkState)
    ensures var r := VisitNode(pl, create, id, depth, st);
      r.Done? ==> (
        id in pl.nodes && r.st.visited == st.visited + [id]
        && r.st.mapping.Keys == st.mapping.Keys + {pl.nodes[id].id} && Effects(pl, st, r.st, 1))
  {
  }

  /** One step fails only on a node that is not ready, or at the create call. */
  lemma VisitNodeFails(pl: Plan, create: Creator, id: string, depth: nat, st: WalkState)
    ensures var r := VisitNode(pl, create, id, depth, st);
      r.Failed? ==> !Ready(pl, id, depth, st.mapping) || (!pl.dryRun && (r.error.CreateFailed? || r.error.MissingCreatedId?))
  {
  }

  /** A dry-run step prints "Would create '<title>' under X", X the target for
      the root and "(copy of <old parent>)" below it, and maps the node to
      `<dry-run:id>`. */
  lemma VisitNodeDryRun(pl: Plan, create: Creator, id: string, depth: nat, st: WalkState)
    requires pl.dryRun && Ready(pl, id, depth, st.mapping)
    ensures var r := VisitNode(pl, create, id, depth, st);
      var node := pl.nodes[id];
      r.Done? && r.st.mapping == st.mapping[node.id := "<dry-run:" + node.id + ">"]
      && r.st.lines == st.lines + ["Would create '" + CopyTitle(pl, node.title, depth) + "' under "
                                   + (if depth == 0 then pl.target else "(copy of " + node.parentId.value + ")")]
  {
  }

  /** A real step posts the node's storage body with the target space, the
      copy's title and the mapped parent (the target parent for the root), and
      on success appends the response once and maps the node to its id. */
  lemma VisitNodeCreates(pl: Plan, create: Creator, id: string, depth: nat, st: WalkState)
    requires !pl.dryRun && Ready(pl, id, depth, st.mapping)
    ensures var r := VisitNode(pl, create, id, depth, st);
      var node := pl.nodes[id];
      var parent := if depth == 0 then pl.target else st.mapping[node.parentId.value];
      var payload := CreatePayload(pl.space, CopyTitle(pl, node.title, depth), parent, node.body.GetOr(""));
      (r.Done? <==> create(|st.posts|, payload).Ok? && GetStr(create(|st.posts|, payload).value, "id").Some?)
      && (r.Done? ==>
            r.st.posts == st.posts + [payload]
            && r.st.created == st.created + [create(|st.posts|, payload).value]
            && r.st.mapping == st.mapping[node.id := GetStr(create(|st.posts|, payload).value, "id").value])
  {
  }

  function KidsOf(pl: Plan, id: string): seq<string> {
    if id in pl.children then pl.children[id] else []
  }

  function Visit(pl: Plan, create: Creator, id: string, depth: nat, fuel: nat, st: WalkState): WalkResult
    decreases fuel, 0
  {
    if pl.maxDepth > 0 && depth > pl.maxDepth then Done(st)
    else if fuel == 0 then Done(st)
    else match VisitNode(pl, create, id, depth, st)
      case Failed(e) => Failed(e)
      case Done(s) => VisitKids(pl, create, KidsOf(pl, id), depth + 1, fuel - 1, s)
  }

  function VisitKids(pl: Plan, create: Creator, kids: seq<string>, depth: nat, fuel: nat, st: WalkState): WalkResult
    decreases fuel, 1, |kids|
  {
    if kids == [] then Done(st)
    else match Visit(pl, create, kids[0], depth, fuel, st)
      case Failed(e) => Failed(e)
      case Done(s) => VisitKids(pl, create, kids[1..], depth, fuel, s)
  }

  /** `walk`: the node itself, then each child in list order, one level deeper. */
  method Walk(pl: Plan, create: Creator, id: string, depth: nat, fuel: nat, st: WalkState) returns (r: WalkResult)
    ensures r == Visit(pl, create, id, depth, fuel, st)
    decreases fuel, 0
  {
    if pl.maxDepth > 0 && depth > pl.maxDepth {
      return Done(st);
    }
    if fuel == 0 {
      return Done(st);
    }
    var one := VisitNode(pl, create, id, depth, st);
    if one.Failed? {
      return one;
    }
    r := WalkKids(pl, create, KidsOf(pl, id), depth + 1, fuel - 1, one.st);
  }

  /** The `for kid in kids` loop of `walk`. */
  method WalkKids(pl: Plan, create: Creator, kids: seq<string>, depth: nat, fuel: nat, st: WalkState) returns (r: WalkResult)
    ensures r == VisitKids(pl, create, kids, depth, fuel, st)
    decreases fuel, 1
  {
    var s := st;
    var i := 0;
    while i < |kids|
      invariant 0 <= i <= |kids|
      invariant VisitKids(pl, create, kids, depth, fuel, st) == VisitKids(pl, create, kids[i..], depth, fuel, s)
    {
      assert kids[i..][1..] == kids[i + 1..];
      var sub := Walk(pl, create, kids[i], depth, fuel, s);
      if sub.Failed? {
        return sub;
      }
      s := sub.st;
      i := i + 1;
    }
    return Done(s);
  }

  /** The ids `walk` visits, with their depths, in pre-order. */
  function Order(pl: Plan, id: string, depth: nat, fuel: nat): seq<(string, nat)>
    decreases fuel, 0
  {
    if pl.maxDepth > 0 && depth > pl.maxDepth then []
    else if fuel == 0 then []
    else [(id, depth)] + OrderKids(pl, KidsOf(pl, id), depth + 1, fuel - 1)
  }

  function OrderKids(pl: Plan, kids: seq<string>, depth: nat, fuel: nat): seq<(string, nat)>
    decreases fuel, 1, |kids|
  {
    if kids == [] then [] else Order(pl, kids[0], depth, fuel) + OrderKids(pl, kids[1..], depth, fuel)
  }

  function Ids(o: seq<(string, nat)>): seq<string> {
    if o == [] then [] else [o[0].0] + Ids(o[1..])
  }

  lemma {:induction false} IdsAppend(a: seq<(string, nat)>, b: seq<(string, nat)>)
    ensures Ids(a + b) == Ids(a) + Ids(b)
    decreases |a|
  {
    if a == [] {
      assert a + b == b;
    } else {
      assert (a + b)[0] == a[0] && (a + b)[1..] == a[1..] + b;
      IdsAppend(a[1..], b);
    }
  }

  /** `Visit` past the depth and fuel guards: the node, then its children. */
  lemma VisitStep(pl: Plan, create: Creator, id: string, depth: nat, fuel: nat, st: WalkState)
    requires !(pl.maxDepth > 0 && depth > pl.maxDepth) && fuel > 0
    ensures VisitNode(pl, create, id, depth, st).Failed? ==> Visit(pl, create, id, depth, fuel, st) == VisitNode(pl, create, id, depth, st)
    ensures VisitNode(pl, create, id, depth, st).Done? ==> (
      Visit(pl, create, id, depth, fuel, st)
      == VisitKids(pl, create, KidsOf(pl, id), depth + 1, fuel - 1, VisitNode(pl, create, id, depth, st).st))
    ensures Order(pl, id, depth, fuel) == [(id, depth)] + OrderKids(pl, KidsOf(pl, id), depth + 1, fuel - 1)
  {
  }

  /** `walk` visits exactly the ids of `Order`, in that order. */
  lemma {:induction false} VisitOrder(pl: Plan, create: Creator, id: string, depth: nat, fuel: nat, st: WalkState)
    ensures Visit(pl, create, id, depth, fuel, st).Done? ==>
      Visit(pl, create, id, depth, fuel, st).st.visited == st.visited + Ids(Order(pl, id, depth, fuel))
    decreases fuel, 0
  {
    if !(pl.maxDepth > 0 && depth > pl.maxDepth) && fuel > 0 {
      var one := VisitNode(pl, create, id, depth, st);
      VisitNodeSteps(pl, create, id, depth, st);
      VisitStep(pl, create, id, depth, fuel, st);
      if one.Done? {
        var rest := OrderKids(pl, KidsOf(pl, id), depth + 1, fuel - 1);
        VisitKidsOrder(pl, create, KidsOf(pl, id), depth + 1, fuel - 1, one.st);
        IdsAppend([(id, depth)], rest);
        assert Ids([(id, depth)]) == [id];
      }
    }
  }

  lemma {:induction false} VisitKidsOrder(pl: Plan, create: Creator, kids: seq<string>, depth: nat, fuel: nat, st: WalkState)
    ensures VisitKids(pl, create, kids, depth, fuel, st).Done? ==>
      VisitKids(pl, create, kids, depth, fuel, st).st.visited == st.visited + Ids(OrderKids(pl, kids, depth, fuel))
    decreases fuel, 1, |kids|
  {
    if kids != [] {
      var first := Visit(pl, create, kids[0], depth, fuel, st);
      VisitOrder(pl, create, kids[0], depth, fuel, st);
      if first.Done? {
        VisitKidsOrder(pl, create, kids[1..], depth, fuel, first.st);
        IdsAppend(Order(pl, kids[0], depth, fuel), OrderKids(pl, kids[1..], depth, fuel));
      }
    }
  }

  /** The node map and child lists as `copy_tree` builds them. */
  ghost predicate PlanOk(pl: Plan) {
    (forall k :: k in pl.nodes ==> pl.nodes[k].id == k)
    && (forall p, x :: p in pl.children && x in pl.children[p] ==> x in pl.nodes && pl.nodes[x].parentId == Some(p))
  }

  /** `id` can be visited at `depth`: it is a node, and below the root its
      parent has been mapped. */
  ghost predicate Ready(pl: Plan, id: string, depth: nat, mapping: map<string, string>) {
    id in pl.nodes && (depth > 0 ==> pl.nodes[id].parentId.Some? && pl.nodes[id].parentId.value in mapping)
  }

  /** The effect counts of a walk over `n` visited nodes. */
  ghost predicate Effects(pl: Plan, st: WalkState, st': WalkState, n: nat) {
    st.mapping.Keys <= st'.mapping.Keys
    && (pl.dryRun ==> st'.posts == st.posts && st'.created == st.created && |st'.lines| == |st.lines| + n)
    && (!pl.dryRun ==> st'.lines == st.lines && |st'.posts| == |st.posts| + n && |st'.created| == |st.created| + n)
  }

  /** A node is only reached after its parent's mapping exists, so `walk`
      never fails with "Missing parent mapping" (nor "Missing node" or
      "Missing parentId"): a dry run always succeeds, and a real run fails only
      at a create call. A dry run makes no create call and prints one line per
      visited node; a real run posts one payload and appends one created page
      per visited node. */
  lemma {:induction false} VisitSafe(pl: Plan, create: Creator, id: string, depth: nat, fuel: nat, st: WalkState)
    requires PlanOk(pl) && Ready(pl, id, depth, st.mapping)
    ensures var r := Visit(pl, create, id, depth, fuel, st);
      r.Failed? ==> !pl.dryRun && (r.error.CreateFailed? || r.error.MissingCreatedId?)
    decreases fuel, 0
  {
    if !(pl.maxDepth > 0 && depth > pl.maxDepth) && fuel > 0 {
      var one := VisitNode(pl, create, id, depth, st);
      VisitNodeSteps(pl, create, id, depth, st);
      VisitNodeFails(pl, create, id, depth, st);
      VisitStep(pl, create, id, depth, fuel, st);
      if one.Done? {
        assert id in one.st.mapping;
        VisitKidsSafe(pl, create, KidsOf(pl, id), id, depth + 1, fuel - 1, one.st);
      }
    }
  }

  lemma {:induction false} VisitKidsSafe(pl: Plan, create: Creator, kids: seq<string>, parent: string,
                                         depth: nat, fuel: nat, st: WalkState)
    requires PlanOk(pl) && depth > 0 && parent in st.mapping
    requires forall x :: x in kids ==> x in pl.nodes && pl.nodes[x].parentId == Some(parent)
    ensures var r := VisitKids(pl, create, kids, depth, fuel, st);
      r.Failed? ==> !pl.dryRun && (r.error.CreateFailed? || r.error.MissingCreatedId?)
    decreases fuel, 1, |kids|
  {
    if kids != [] {
      assert kids[0] in kids;
      VisitSafe(pl, create, kids[0], depth, fuel, st);
      VisitEffects(pl, create, kids[0], depth, fuel, st);
      var first := Visit(pl, create, kids[0], depth, fuel, st);
      if first.Done? {
        assert forall x :: x in kids[1..] ==> x in kids;
        VisitKidsSafe(pl, create, kids[1..], parent, depth, fuel, first.st);
      }
    }
  }

  /** A dry run makes no create call and prints one line per visited node; a
      real run posts one payload and appends one created page per visited
      node; mappings are only added. */
  lemma {:induction false} VisitEffects(pl: Plan, create: Creator, id: string, depth: nat, fuel: nat, st: WalkState)
    ensures var r := Visit(pl, create, id, depth, fuel, st);
      r.Done? ==> Effects(pl, st, r.st, |Order(pl, id, depth, fuel)|)
    decreases fuel, 0
  {
    if !(pl.maxDepth > 0 && depth > pl.maxDepth) && fuel > 0 {
      var one := VisitNode(pl, create, id, depth, st);
      VisitNodeSteps(pl, create, id, depth, st);
      VisitStep(pl, create, id, depth, fuel, st);
      if one.Done? {
        var kids := KidsOf(pl, id);
        VisitKidsEffects(pl, create, kids, depth + 1, fuel - 1, one.st);
        var r := VisitKids(pl, create, kids, depth + 1, fuel - 1, one.st);
        if r.Done? {
          EffectsCompose(pl, st, one.st, r.st, 1, |OrderKids(pl, kids, depth + 1, fuel - 1)|);
        }
      }
    }
  }

  lemma {:induction false} VisitKidsEffects(pl: Plan, create: Creator, kids: seq<string>, depth: nat, fuel: nat,
                                            st: WalkState)
    ensures var r := VisitKids(pl, create, kids, depth, fuel, st);
      r.Done? ==> Effects(pl, st, r.st, |OrderKids(pl, kids, depth, fuel)|)
    decreases fuel, 1, |kids|
  {
    if kids != [] {
      VisitEffects(pl, create, kids[0], depth, fuel, st);
      var first := Visit(pl, create, kids[0], depth, fuel, st);
      if first.Done? {
        VisitKidsEffects(pl, create, kids[1..], depth, fuel, first.st);
        var r := VisitKids(pl, create, kids[1..], depth, fuel, first.st);
        if r.Done? {
          EffectsCompose(pl, st, first.st, r.st, |Order(pl, kids[0], depth, fuel)|,
                         |OrderKids(pl, kids[1..], depth, fuel)|);
        }
      }
    }
  }

  lemma EffectsCompose(pl: Plan, a: WalkState, b: WalkState, c: WalkState, m: nat, n: nat)
    requires Effects(pl, a, b, m) && Effects(pl, b, c, n)
    ensures Effects(pl, a, c, m + n)
  {
  }

  // --------------------------------------------------------------- coverage

  /** The id `n` steps up from `x`, each step from a node to the parent whose
      child list holds it; None once a step is not listed. */
  function Up(pl: Plan, x: string, n: nat): Option<string>
    decreases n
  {
    if n == 0 then Some(x)
    else if x in pl.nodes && pl.nodes[x].parentId.Some? && x in KidsOf(pl, pl.nodes[x].parentId.value)
    then Up(pl, pl.nodes[x].parentId.value, n - 1)
    else None
  }

  /** `depth` passes the `--max-depth` guard of `walk` (0: no limit). */
  predicate InReach(pl: Plan, depth: nat) {
    pl.maxDepth == 0 || depth <= pl.maxDepth
  }

  /** No listed chain of one or more steps leads from `id` back to itself. */
  ghost predicate NoCycle(pl: Plan, id: string) {
    forall e: nat :: e >= 1 ==> Up(pl, id, e) != Some(id)
  }

  /** No node hangs `fuel` listed steps below `id`. */
  ghost predicate Shallow(pl: Plan, id: string, fuel: nat) {
    forall x :: Up(pl, x, fuel) != Some(id)
  }

  predicate Unique(s: seq<string>) {
    forall i, j :: 0 <= i < j < |s| ==> s[i] != s[j]
  }

  /** Every child list names each child once. */
  ghost predicate KidsUnique(pl: Plan) {
    forall p :: p in pl.children ==> Unique(pl.children[p])
  }

  lemma {:induction false} UpAdd(pl: Plan, x: string, a: nat, b: nat)
    ensures Up(pl, x, a + b) == if Up(pl, x, a).Some? then Up(pl, Up(pl, x, a).value, b) else None
    decreases a
  {
    if a > 0 && x in pl.nodes && pl.nodes[x].parentId.Some? && x in KidsOf(pl, pl.nodes[x].parentId.value) {
      UpAdd(pl, pl.nodes[x].parentId.value, a - 1, b);
      assert a + b - 1 == (a - 1) + b;
    }
  }

  lemma UpKid(pl: Plan, id: string, k: string)
    requires PlanOk(pl) && k in KidsOf(pl, id)
    ensures Up(pl, k, 1) == Some(id)
  {
  }

  lemma RootNoCycle(pl: Plan, root: string)
    requires root in pl.nodes && pl.nodes[root].parentId.None?
    ensures NoCycle(pl, root)
  {
    forall e: nat | e >= 1
      ensures Up(pl, root, e) != Some(root)
    {
    }
  }

  lemma KidNoCycle(pl: Plan, id: string, k: string)
    requires PlanOk(pl) && k in KidsOf(pl, id) && NoCycle(pl, id)
    ensures NoCycle(pl, k)
  {
    forall e: nat | e >= 1
      ensures Up(pl, k, e) != Some(k)
    {
      UpKid(pl, id, k);
      UpAdd(pl, k, e, 1);
      UpAdd(pl, k, 1, e);
      assert 1 + e == e + 1;
    }
  }

  lemma ShallowKid(pl: Plan, id: string, k: string, fuel: nat)
    requires PlanOk(pl) && k in KidsOf(pl, id) && Shallow(pl, id, fuel) && fuel > 0
    ensures Shallow(pl, k, fuel - 1)
  {
    var f := fuel - 1;
    forall x
      ensures Up(pl, x, f) != Some(k)
    {
      UpKid(pl, id, k);
      UpAdd(pl, x, f, 1);
    }
  }

  /** Two listed children of one parent that both lie above `x` are the same. */
  lemma Fork(pl: Plan, parent: string, k1: string, k2: string, x: string, a: nat, b: nat)
    requires PlanOk(pl) && NoCycle(pl, parent)
    requires k1 in KidsOf(pl, parent) && k2 in KidsOf(pl, parent)
    requires Up(pl, x, a) == Some(k1) && Up(pl, x, b) == Some(k2)
    ensures k1 == k2
  {
    UpKid(pl, parent, k1);
    UpKid(pl, parent, k2);
    UpAdd(pl, x, a, 1);
    UpAdd(pl, x, b, 1);
    if a < b {
      assert a + 1 + (b - a) == b + 1;
      UpAdd(pl, x, a + 1, b - a);
      assert false;
    } else if b < a {
      assert b + 1 + (a - b) == a + 1;
      UpAdd(pl, x, b + 1, a - b);
      assert false;
    }
  }

  /** Every visited pair is a node `e - depth` listed steps below `id`, within
      the depth limit. */
  lemma {:induction false} OrderSound(pl: Plan, id: string, depth: nat, fuel: nat, x: string, e: nat)
    requires PlanOk(pl) && (x, e) in Order(pl, id, depth, fuel)
    ensures depth <= e && Up(pl, x, e - depth) == Some(id) && InReach(pl, e)
    decreases fuel, 0
  {
    if (x, e) != (id, depth) {
      BelowKids(pl, id, depth, fuel - 1, x, e);
    }
  }

  /** A pair from the children's pre-orders lies at least one listed step below `id`. */
  lemma BelowKids(pl: Plan, id: string, depth: nat, fuel: nat, x: string, e: nat)
    requires PlanOk(pl) && (x, e) in OrderKids(pl, KidsOf(pl, id), depth + 1, fuel)
    ensures depth < e && Up(pl, x, e - depth) == Some(id) && InReach(pl, e)
    decreases fuel, 2
  {
    OrderKidsSound(pl, KidsOf(pl, id), depth + 1, fuel, x, e);
    var k := Up(pl, x, e - depth - 1).value;
    UpKid(pl, id, k);
    UpAdd(pl, x, e - depth - 1, 1);
    assert e - depth - 1 + 1 == e - depth;
  }

  lemma {:induction false} OrderKidsSound(pl: Plan, kids: seq<string>, depth: nat, fuel: nat, x: string, e: nat)
    requires PlanOk(pl) && (x, e) in OrderKids(pl, kids, depth, fuel)
    ensures depth <= e && Up(pl, x, e - depth).Some? && Up(pl, x, e - depth).value in kids && InReach(pl, e)
    decreases fuel, 1, |kids|
  {
    if (x, e) in Order(pl, kids[0], depth, fuel) {
      OrderSound(pl, kids[0], depth, fuel, x, e);
    } else {
      OrderKidsSound(pl, kids[1..], depth, fuel, x, e);
    }
  }

  lemma {:induction false} OrderKidsHas(pl: Plan, kids: seq<string>, depth: nat, fuel: nat, k: string, entry: (string, nat))
    requires k in kids && entry in Order(pl, k, depth, fuel)
    ensures entry in OrderKids(pl, kids, depth, fuel)
    decreases |kids|
  {
    if kids[0] != k {
      OrderKidsHas(pl, kids[1..], depth, fuel, k, entry);
    }
  }

  /** The last listed step up to `id` leaves from one of `id`'s children. */
  lemma UpLast(pl: Plan, x: string, n: nat, id: string)
    requires Up(pl, x, n) == Some(id) && n > 0
    ensures Up(pl, x, n - 1).Some? && Up(pl, x, n - 1).value in KidsOf(pl, id)
  {
    UpAdd(pl, x, n - 1, 1);
    assert n - 1 + 1 == n;
  }

  /** Every node `n` listed steps below `id` within the depth limit is visited
      at depth `depth + n`, given more fuel than `n`. */
  lemma {:induction false} OrderComplete(pl: Plan, id: string, depth: nat, fuel: nat, x: string, n: nat)
    requires Up(pl, x, n) == Some(id) && n < fuel && InReach(pl, depth + n)
    ensures (x, depth + n) in Order(pl, id, depth, fuel)
    decreases n
  {
    OrderUnfold(pl, id, depth, fuel);
    if n > 0 {
      UpLast(pl, x, n, id);
      var y := Up(pl, x, n - 1).value;
      OrderComplete(pl, y, depth + 1, fuel - 1, x, n - 1);
      assert depth + 1 + (n - 1) == depth + n;
      OrderKidsHas(pl, KidsOf(pl, id), depth + 1, fuel - 1, y, (x, depth + n));
    }
  }

  lemma OrderUnfold(pl: Plan, id: string, depth: nat, fuel: nat)
    requires InReach(pl, depth) && fuel > 0
    ensures Order(pl, id, depth, fuel) == [(id, depth)] + OrderKids(pl, KidsOf(pl, id), depth + 1, fuel - 1)
  {
  }

  lemma {:induction false} IdsHas(o: seq<(string, nat)>, x: string) returns (e: nat)
    requires x in Ids(o)
    ensures (x, e) in o
    decreases |o|
  {
    if o[0].0 != x {
      e := IdsHas(o[1..], x);
      assert o == [o[0]] + o[1..];
    } else {
      e := o[0].1;
    }
  }

  lemma UniqueAppend(a: seq<string>, b: seq<string>)
    requires Unique(a) && Unique(b) && forall x :: x in a ==> x !in b
    ensures Unique(a + b)
  {
    forall i, j | 0 <= i < j < |a + b|
      ensures (a + b)[i] != (a + b)[j]
    {
      if i < |a| && j >= |a| {
        assert (a + b)[i] in a && (a + b)[j] == b[j - |a|];
      }
    }
  }

  /** A root that lies on no cycle is not among its own descendants. */
  lemma RootNotBelow(pl: Plan, id: string, depth: nat, fuel: nat)
    requires PlanOk(pl) && NoCycle(pl, id)
    ensures id !in Ids(OrderKids(pl, KidsOf(pl, id), depth + 1, fuel))
  {
    var rest := OrderKids(pl, KidsOf(pl, id), depth + 1, fuel);
    if id in Ids(rest) {
      var e := IdsHas(rest, id);
      BelowKids(pl, id, depth, fuel, id, e);
      assert false;
    }
  }

  /** The visited ids are pairwise distinct. */
  lemma {:induction false} OrderUnique(pl: Plan, id: string, depth: nat, fuel: nat)
    requires PlanOk(pl) && KidsUnique(pl) && NoCycle(pl, id)
    ensures Unique(Ids(Order(pl, id, depth, fuel)))
    decreases fuel, 0
  {
    if !(pl.maxDepth > 0 && depth > pl.maxDepth) && fuel > 0 {
      var kids := KidsOf(pl, id);
      var rest := OrderKids(pl, kids, depth + 1, fuel - 1);
      OrderKidsUnique(pl, kids, id, depth + 1, fuel - 1);
      RootNotBelow(pl, id, depth, fuel - 1);
      IdsAppend([(id, depth)], rest);
      assert Ids([(id, depth)]) == [id];
      UniqueAppend([id], Ids(rest));
    }
  }

  /** An id in a subtree's pre-order lies some listed steps below its root. */
  lemma InSubtree(pl: Plan, k: string, depth: nat, fuel: nat, x: string) returns (a: nat)
    requires PlanOk(pl) && x in Ids(Order(pl, k, depth, fuel))
    ensures Up(pl, x, a) == Some(k)
  {
    var o := Order(pl, k, depth, fuel);
    var e := IdsHas(o, x);
    OrderSound(pl, k, depth, fuel, x, e);
    a := e - depth;
    assert Up(pl, x, a) == Some(k);
  }

  lemma InSubtrees(pl: Plan, kids: seq<string>, depth: nat, fuel: nat, x: string) returns (b: nat)
    requires PlanOk(pl) && x in Ids(OrderKids(pl, kids, depth, fuel))
    ensures Up(pl, x, b).Some? && Up(pl, x, b).value in kids
  {
    var e := IdsHas(OrderKids(pl, kids, depth, fuel), x);
    OrderKidsSound(pl, kids, depth, fuel, x, e);
    b := e - depth;
  }

  /** A node below the first child and below a later sibling makes the first
      child one of the later siblings. */
  lemma KidsBranch(pl: Plan, parent: string, kids: seq<string>, x: string, a: nat, b: nat)
    requires PlanOk(pl) && NoCycle(pl, parent) && kids != [] && forall k :: k in kids ==> k in KidsOf(pl, parent)
    requires Up(pl, x, a) == Some(kids[0]) && Up(pl, x, b).Some? && Up(pl, x, b).value in kids[1..]
    ensures kids[0] in kids[1..]
  {
    var k2 := Up(pl, x, b).value;
    assert kids[0] in kids && k2 in kids;
    Fork(pl, parent, kids[0], k2, x, a, b);
  }

  /** The first child's subtree and its siblings' subtrees share no id. */
  lemma KidsApart(pl: Plan, kids: seq<string>, parent: string, depth: nat, fuel: nat, x: string)
    requires PlanOk(pl) && NoCycle(pl, parent) && kids != []
    requires kids[0] !in kids[1..] && forall k :: k in kids ==> k in KidsOf(pl, parent)
    requires x in Ids(Order(pl, kids[0], depth, fuel))
    ensures x !in Ids(OrderKids(pl, kids[1..], depth, fuel))
  {
    var a := InSubtree(pl, kids[0], depth, fuel, x);
    if x in Ids(OrderKids(pl, kids[1..], depth, fuel)) {
      var b := InSubtrees(pl, kids[1..], depth, fuel, x);
      KidsBranch(pl, parent, kids, x, a, b);
      assert false;
    }
  }

  lemma {:induction false} OrderKidsUnique(pl: Plan, kids: seq<string>, parent: string, depth: nat, fuel: nat)
    requires PlanOk(pl) && KidsUnique(pl) && NoCycle(pl, parent)
    requires Unique(kids) && forall k :: k in kids ==> k in KidsOf(pl, parent)
    ensures Unique(Ids(OrderKids(pl, kids, depth, fuel)))
    decreases fuel, 1, |kids|
  {
    if kids != [] {
      var first := Order(pl, kids[0], depth, fuel);
      var rest := OrderKids(pl, kids[1..], depth, fuel);
      assert kids[0] in kids;
      KidNoCycle(pl, parent, kids[0]);
      OrderUnique(pl, kids[0], depth, fuel);
      assert forall k :: k in kids[1..] ==> k in kids;
      assert forall j :: 0 <= j < |kids[1..]| ==> kids[1..][j] != kids[0];
      assert kids[0] !in kids[1..];
      assert Unique(kids[1..]);
      OrderKidsUnique(pl, kids[1..], parent, depth, fuel);
      forall x | x in Ids(first)
        ensures x !in Ids(rest)
      {
        KidsApart(pl, kids, parent, depth, fuel, x);
      }
      IdsAppend(first, rest);
      UniqueAppend(Ids(first), Ids(rest));
    }
  }

  /** With no node `fuel` steps below `id`, more fuel changes neither the
      pre-order nor the walk. */
  lemma {:induction false} OrderFuel(pl: Plan, id: string, depth: nat, fuel: nat, m: nat)
    requires PlanOk(pl) && Shallow(pl, id, fuel)
    ensures Order(pl, id, depth, fuel + m) == Order(pl, id, depth, fuel)
    decreases fuel, 0
  {
    assert fuel != 0 by {
      assert Up(pl, id, 0) == Some(id);
    }
    if !(pl.maxDepth > 0 && depth > pl.maxDepth) {
      forall k | k in KidsOf(pl, id)
        ensures Shallow(pl, k, fuel - 1)
      {
        ShallowKid(pl, id, k, fuel);
      }
      OrderKidsFuel(pl, KidsOf(pl, id), depth + 1, fuel - 1, m);
      assert fuel + m - 1 == fuel - 1 + m;
    }
  }

  lemma {:induction false} OrderKidsFuel(pl: Plan, kids: seq<string>, depth: nat, fuel: nat, m: nat)
    requires PlanOk(pl) && forall k :: k in kids ==> Shallow(pl, k, fuel)
    ensures OrderKids(pl, kids, depth, fuel + m) == OrderKids(pl, kids, depth, fuel)
    decreases fuel, 1, |kids|
  {
    if kids != [] {
      assert kids[0] in kids;
      OrderFuel(pl, kids[0], depth, fuel, m);
      assert forall k :: k in kids[1..] ==> k in kids;
      OrderKidsFuel(pl, kids[1..], depth, fuel, m);
    }
  }

  lemma {:induction false} VisitFuel(pl: Plan, create: Creator, id: string, depth: nat, fuel: nat, m: nat, st: WalkState)
    requires PlanOk(pl) && Shallow(pl, id, fuel)
    ensures Visit(pl, create, id, depth, fuel + m, st) == Visit(pl, create, id, depth, fuel, st)
    decreases fuel, 0
  {
    assert fuel != 0 by {
      assert Up(pl, id, 0) == Some(id);
    }
    if !(pl.maxDepth > 0 && depth > pl.maxDepth) {
      var one := VisitNode(pl, create, id, depth, st);
      VisitStep(pl, create, id, depth, fuel, st);
      VisitStep(pl, create, id, depth, fuel + m, st);
      if one.Done? {
        forall k | k in KidsOf(pl, id)
          ensures Shallow(pl, k, fuel - 1)
        {
          ShallowKid(pl, id, k, fuel);
        }
        VisitKidsFuel(pl, create, KidsOf(pl, id), depth + 1, fuel - 1, m, one.st);
        assert fuel + m - 1 == fuel - 1 + m;
      }
    }
  }

  lemma {:induction false} VisitKidsFuel(pl: Plan, create: Creator, kids: seq<string>, depth: nat, fuel: nat, m: nat,
                                         st: WalkState)
    requires PlanOk(pl) && forall k :: k in kids ==> Shallow(pl, k, fuel)
    ensures VisitKids(pl, create, kids, depth, fuel + m, st) == VisitKids(pl, create, kids, depth, fuel, st)
    decreases fuel, 1, |kids|
  {
    if kids != [] {
      assert kids[0] in kids;
      VisitFuel(pl, create, kids[0], depth, fuel, m, st);
      var first := Visit(pl, create, kids[0], depth, fuel, st);
      if first.Done? {
        assert forall k :: k in kids[1..] ==> k in kids;
        VisitKidsFuel(pl, create, kids[1..], depth, fuel, m, first.st);
      }
    }
  }

  /** The ids met on the way up from `x`, the first `k` steps. */
  function Chain(pl: Plan, x: string, k: nat): set<string>
  {
    if k == 0 then {} else Chain(pl, x, k - 1) + (if Up(pl, x, k - 1).Some? then {Up(pl, x, k - 1).value} else {})
  }

  lemma {:induction false} ChainSize(pl: Plan, x: string, k: nat)
    requires forall i :: 0 <= i < k ==> Up(pl, x, i).Some?
    requires forall i, j :: 0 <= i < j < k ==> Up(pl, x, i) != Up(pl, x, j)
    ensures |Chain(pl, x, k)| == k
    decreases k
  {
    if k > 0 {
      ChainSize(pl, x, k - 1);
      ChainFresh(pl, x, k - 1, Up(pl, x, k - 1).value);
    }
  }

  lemma {:induction false} ChainFresh(pl: Plan, x: string, k: nat, y: string)
    requires forall i :: 0 <= i < k ==> Up(pl, x, i) != Some(y)
    ensures y !in Chain(pl, x, k)
    decreases k
  {
    if k > 0 {
      ChainFresh(pl, x, k - 1, y);
    }
  }

  lemma {:induction false} ChainSub(pl: Plan, x: string, k: nat)
    requires forall i :: 0 <= i < k ==> Up(pl, x, i).Some? && Up(pl, x, i).value in pl.nodes
    ensures Chain(pl, x, k) <= pl.nodes.Keys
    decreases k
  {
    if k > 0 {
      ChainSub(pl, x, k - 1);
    }
  }

  /** A node `n` listed steps below a parentless root is at most
      `|nodes| - 1` steps down: the ids on the way are distinct nodes. */
  lemma UpBounded(pl: Plan, root: string, x: string, n: nat)
    requires PlanOk(pl) && root in pl.nodes && pl.nodes[root].parentId.None? && Up(pl, x, n) == Some(root)
    ensures n < |pl.nodes|
  {
    ChainNodes(pl, root, x, n);
    ChainAllDistinct(pl, root, x, n);
    ChainSize(pl, x, n + 1);
    ChainInside(pl, x, n + 1);
  }

  lemma ChainNodes(pl: Plan, root: string, x: string, n: nat)
    requires root in pl.nodes && Up(pl, x, n) == Some(root)
    ensures forall i :: 0 <= i < n + 1 ==> Up(pl, x, i).Some? && Up(pl, x, i).value in pl.nodes
  {
    forall i | 0 <= i < n + 1
      ensures Up(pl, x, i).Some? && Up(pl, x, i).value in pl.nodes
    {
      ChainNode(pl, root, x, n, i);
    }
  }

  lemma ChainAllDistinct(pl: Plan, root: string, x: string, n: nat)
    requires root in pl.nodes && pl.nodes[root].parentId.None? && Up(pl, x, n) == Some(root)
    ensures forall i, j :: 0 <= i < j < n + 1 ==> Up(pl, x, i) != Up(pl, x, j)
  {
    RootNoCycle(pl, root);
    forall i, j | 0 <= i < j < n + 1
      ensures Up(pl, x, i) != Up(pl, x, j)
    {
      ChainNode(pl, root, x, n, i);
      ChainDistinct(pl, root, x, n, i, j);
    }
  }

  lemma ChainNode(pl: Plan, root: string, x: string, n: nat, i: nat)
    requires root in pl.nodes && Up(pl, x, n) == Some(root) && i <= n
    ensures Up(pl, x, i).Some? && Up(pl, x, i).value in pl.nodes
  {
    UpAdd(pl, x, i, n - i);
    assert i + (n - i) == n;
    if i < n {
      var y := Up(pl, x, i).value;
      UpAdd(pl, y, 1, n - i - 1);
      assert 1 + (n - i - 1) == n - i;
    }
  }

  lemma ChainInside(pl: Plan, x: string, k: nat)
    requires forall i :: 0 <= i < k ==> Up(pl, x, i).Some? && Up(pl, x, i).value in pl.nodes
    requires |Chain(pl, x, k)| == k
    ensures k <= |pl.nodes|
  {
    var c := Chain(pl, x, k);
    ChainSub(pl, x, k);
    assert pl.nodes.Keys == c + (pl.nodes.Keys - c);
  }

  lemma ChainDistinct(pl: Plan, root: string, x: string, n: nat, i: nat, j: nat)
    requires NoCycle(pl, root) && Up(pl, x, n) == Some(root) && i < j <= n
    requires Up(pl, x, i).Some?
    ensures Up(pl, x, i) != Up(pl, x, j)
  {
    var y := Up(pl, x, i).value;
    assert i + (j - i) == j;
    UpAdd(pl, x, i, j - i);
    assert j + (n - j) == n;
    UpAdd(pl, x, j, n - j);
    assert (n - j) + (j - i) == (j - i) + (n - j);
    UpAdd(pl, y, n - j, j - i);
    UpAdd(pl, y, j - i, n - j);
  }

  lemma RootShallow(pl: Plan, root: string)
    requires PlanOk(pl) && root in pl.nodes && pl.nodes[root].parentId.None?
    ensures Shallow(pl, root, |pl.nodes| + 1)
  {
    var f := |pl.nodes| + 1;
    forall x
      ensures Up(pl, x, f) != Some(root)
    {
      if Up(pl, x, f) == Some(root) {
        UpBounded(pl, root, x, f);
      }
    }
  }

  /** The pre-order from a parentless root with fuel `|nodes| + 1`: exactly
      the nodes hanging below the root by listed steps, each at its own depth,
      within the depth limit, once each. */
  ghost predicate Covers(pl: Plan, root: string, o: seq<(string, nat)>) {
    (forall x, e: nat :: (x, e) in o ==> Up(pl, x, e) == Some(root) && InReach(pl, e))
    && (forall x, e: nat :: Up(pl, x, e) == Some(root) && InReach(pl, e) ==> (x, e) in o)
    && Unique(Ids(o))
  }

  /** The walk from a parentless root covers the tree below it, and the fuel
      bound `|nodes| + 1` never cuts it short: more fuel changes nothing. */
  lemma WalkCovers(pl: Plan, create: Creator, root: string)
    requires PlanOk(pl) && KidsUnique(pl) && root in pl.nodes && pl.nodes[root].parentId.None?
    ensures Covers(pl, root, Order(pl, root, 0, |pl.nodes| + 1))
    ensures forall f: nat :: f > |pl.nodes| ==> Order(pl, root, 0, f) == Order(pl, root, 0, |pl.nodes| + 1)
    ensures forall f: nat, st :: f > |pl.nodes| ==> Visit(pl, create, root, 0, f, st) == Visit(pl, create, root, 0, |pl.nodes| + 1, st)
  {
    CoversSound(pl, root);
    CoversComplete(pl, root);
    RootNoCycle(pl, root);
    OrderUnique(pl, root, 0, |pl.nodes| + 1);
    RootShallow(pl, root);
    FuelEnough(pl, create, root);
  }

  lemma CoversSound(pl: Plan, root: string)
    requires PlanOk(pl)
    ensures forall x, e: nat :: (x, e) in Order(pl, root, 0, |pl.nodes| + 1) ==> Up(pl, x, e) == Some(root) && InReach(pl, e)
  {
    forall x, e: nat | (x, e) in Order(pl, root, 0, |pl.nodes| + 1)
      ensures Up(pl, x, e) == Some(root) && InReach(pl, e)
    {
      OrderSound(pl, root, 0, |pl.nodes| + 1, x, e);
    }
  }

  lemma CoversComplete(pl: Plan, root: string)
    requires PlanOk(pl) && root in pl.nodes && pl.nodes[root].parentId.None?
    ensures forall x, e: nat :: Up(pl, x, e) == Some(root) && InReach(pl, e) ==> (x, e) in Order(pl, root, 0, |pl.nodes| + 1)
  {
    forall x, e: nat | Up(pl, x, e) == Some(root) && InReach(pl, e)
      ensures (x, e) in Order(pl, root, 0, |pl.nodes| + 1)
    {
      UpBounded(pl, root, x, e);
      OrderComplete(pl, root, 0, |pl.nodes| + 1, x, e);
    }
  }

  lemma FuelEnough(pl: Plan, create: Creator, root: string)
    requires PlanOk(pl) && Shallow(pl, root, |pl.nodes| + 1)
    ensures forall f: nat :: f > |pl.nodes| ==> Order(pl, root, 0, f) == Order(pl, root, 0, |pl.nodes| + 1)
    ensures forall f: nat, st :: f > |pl.nodes| ==> Visit(pl, create, root, 0, f, st) == Visit(pl, create, root, 0, |pl.nodes| + 1, st)
  {
    var f := |pl.nodes| + 1;
    forall g: nat | g > |pl.nodes|
      ensures Order(pl, root, 0, g) == Order(pl, root, 0, f)
    {
      OrderFuel(pl, root, 0, f, g - f);
      assert f + (g - f) == g;
    }
    forall g: nat, st | g > |pl.nodes|
      ensures Visit(pl, create, root, 0, g, st) == Visit(pl, create, root, 0, f, st)
    {
      VisitFuel(pl, create, root, 0, f, g - f, st);
      assert f + (g - f) == g;
    }
  }

  /** The id `n` parent links above `x` in a node map. */
  function Ancestor(nodes: map<string, Node>, x: string, n: nat): Option<string>
    decreases n
  {
    if n == 0 then Some(x)
    else if x in nodes && nodes[x].parentId.Some? then Ancestor(nodes, nodes[x].parentId.value, n - 1)
    else None
  }

  /** `nodes'` has the ids, parents and titles of `nodes`. */
  ghost predicate SameTree(nodes: map<string, Node>, nodes': map<string, Node>) {
    nodes'.Keys == nodes.Keys
    && forall k :: k in nodes ==> nodes'[k].parentId == nodes[k].parentId && nodes'[k].title == nodes[k].title
  }

  /** From an unblocked node the listed steps are exactly the parent links. */
  lemma {:induction false} UpIsAncestor(pl: Plan, nodes: map<string, Node>, blocked: set<string>, x: string, n: nat)
    requires SameTree(nodes, pl.nodes) && ChildrenOk(nodes, blocked, pl.children) && Closed(nodes, blocked)
    requires x !in blocked
    ensures Up(pl, x, n) == Ancestor(pl.nodes, x, n)
    decreases n
  {
    if n > 0 && x in pl.nodes && pl.nodes[x].parentId.Some? {
      var p := pl.nodes[x].parentId.value;
      assert x in ChildSet(nodes, blocked, p);
      ChildrenMembers(nodes, blocked, pl.children, p, x);
      assert !ParentIn(nodes, x, blocked);
      UpIsAncestor(pl, nodes, blocked, p, n - 1);
    }
  }

  /** A blocked node is in no child list, so no listed step leaves it. */
  lemma UpFromBlocked(pl: Plan, nodes: map<string, Node>, blocked: set<string>, x: string, n: nat)
    requires ChildrenOk(nodes, blocked, pl.children) && x in blocked && n > 0
    ensures Up(pl, x, n) == None
  {
    if x in pl.nodes && pl.nodes[x].parentId.Some? && pl.nodes[x].parentId.value in pl.children {
      ChildrenMembers(nodes, blocked, pl.children, pl.nodes[x].parentId.value, x);
    }
  }

  /** A list with the elements of a set names each of them once. */
  lemma SetListUnique(s: seq<string>, t: set<string>)
    requires multiset(s) == multiset(t)
    ensures Unique(s)
  {
    forall i, j | 0 <= i < j < |s|
      ensures s[i] != s[j]
    {
      assert s == s[..j] + s[j..];
      assert multiset(s) == multiset(s[..j]) + multiset(s[j..]);
      assert s[..j][i] == s[i] && s[j..][0] == s[j];
      assert s[i] in multiset(s[..j]) && s[j] in multiset(s[j..]);
      assert multiset(t)[s[j]] <= 1;
    }
  }

  lemma ChildrenUnique(pl: Plan, nodes: map<string, Node>, blocked: set<string>)
    requires ChildrenOk(nodes, blocked, pl.children)
    ensures KidsUnique(pl)
  {
    forall p | p in pl.children
      ensures Unique(pl.children[p])
    {
      SetListUnique(pl.children[p], ChildSet(nodes, blocked, p));
    }
  }

  /** The walk visits exactly the unblocked nodes `e` parent links below a
      parentless root within the depth limit, each at depth `e`. */
  ghost predicate Reaches(pl: Plan, blocked: set<string>, root: string) {
    forall x, e: nat :: (x, e) in Order(pl, root, 0, |pl.nodes| + 1)
      <==> x !in blocked && Ancestor(pl.nodes, x, e) == Some(root) && InReach(pl, e)
  }

  lemma WalkReaches(pl: Plan, nodes: map<string, Node>, blocked: set<string>, root: string)
    requires PlanOk(pl) && SameTree(nodes, pl.nodes) && ChildrenOk(nodes, blocked, pl.children) && Closed(nodes, blocked)
    requires root in pl.nodes && pl.nodes[root].parentId.None? && root !in blocked
    ensures Reaches(pl, blocked, root) && Unique(Ids(Order(pl, root, 0, |pl.nodes| + 1)))
  {
    ChildrenUnique(pl, nodes, blocked);
    WalkCovers(pl, (k: nat, j: Json) => Err(""), root);
    forall x, e: nat
      ensures Up(pl, x, e) == Some(root) <==> x !in blocked && Ancestor(pl.nodes, x, e) == Some(root)
    {
      if x !in blocked {
        UpIsAncestor(pl, nodes, blocked, x, e);
      } else if e > 0 {
        UpFromBlocked(pl, nodes, blocked, x, e);
      }
    }
  }

  // --------------------------------------------------------------- pipeline

  /** `id` is in some child list. */
  predicate Listed(pl: Plan, x: string) {
    exists p :: p in pl.children && x in pl.children[p]
  }

  lemma {:induction false} OrderMembers(pl: Plan, id: string, depth: nat, fuel: nat, x: string)
    requires x in Ids(Order(pl, id, depth, fuel))
    ensures x == id || Listed(pl, x)
    decreases fuel, 0
  {
    if !(pl.maxDepth > 0 && depth > pl.maxDepth) && fuel > 0 {
      var kids := KidsOf(pl, id);
      IdsAppend([(id, depth)], OrderKids(pl, kids, depth + 1, fuel - 1));
      assert Ids([(id, depth)]) == [id];
      if x != id {
        OrderKidsMembers(pl, kids, depth + 1, fuel - 1, x);
      }
    }
  }

  lemma {:induction false} OrderKidsMembers(pl: Plan, kids: seq<string>, depth: nat, fuel: nat, x: string)
    requires forall k :: k in kids ==> Listed(pl, k)
    requires x in Ids(OrderKids(pl, kids, depth, fuel))
    ensures Listed(pl, x)
    decreases fuel, 1, |kids|
  {
    if kids != [] {
      IdsAppend(Order(pl, kids[0], depth, fuel), OrderKids(pl, kids[1..], depth, fuel));
      assert kids[0] in kids;
      if x in Ids(Order(pl, kids[0], depth, fuel)) {
        OrderMembers(pl, kids[0], depth, fuel, x);
      } else {
        assert forall k :: k in kids[1..] ==> k in kids;
        OrderKidsMembers(pl, kids[1..], depth, fuel, x);
      }
    }
  }

  lemma {:induction false} IdsLength(o: seq<(string, nat)>)
    ensures |Ids(o)| == |o|
    decreases |o|
  {
    if o != [] {
      IdsLength(o[1..]);
    }
  }

  /** What a successful walk from the root leaves: the root copied first, only
      the root and listed children visited, and one printed line (dry run) or
      one post and one created page (real run) per visited node. */
  ghost predicate WalkDone(pl: Plan, root: string, st: WalkState) {
    st.visited != [] && st.visited[0] == root
    && (forall x :: x in st.visited ==> x in pl.nodes && (x == root || Listed(pl, x)))
    && (pl.dryRun ==> st.created == [] && st.posts == [] && |st.lines| == |st.visited|)
    && (!pl.dryRun ==> st.lines == [] && |st.created| == |st.visited| && |st.posts| == |st.visited|)
  }

  /** The pre-order from the root starts at the root and lists only the root
      and listed children, all of them nodes. */
  lemma RootOrder(pl: Plan, root: string, fuel: nat)
    requires PlanOk(pl) && root in pl.nodes && fuel > 0
    ensures var ids := Ids(Order(pl, root, 0, fuel));
      |ids| == |Order(pl, root, 0, fuel)| && ids != [] && ids[0] == root
      && forall x :: x in ids ==> x in pl.nodes && (x == root || Listed(pl, x))
  {
    var o := Order(pl, root, 0, fuel);
    var rest := OrderKids(pl, KidsOf(pl, root), 1, fuel - 1);
    assert o == [(root, 0)] + rest;
    IdsAppend([(root, 0)], rest);
    assert Ids([(root, 0)]) == [root];
    IdsLength(o);
    forall x | x in Ids(o)
      ensures x in pl.nodes && (x == root || Listed(pl, x))
    {
      OrderMembers(pl, root, 0, fuel, x);
    }
  }

  /** The walk from the root at depth 0 fails only at a create call, and a
      successful one satisfies `WalkDone`. */
  lemma WalkOutcome(pl: Plan, create: Creator, root: string, fuel: nat)
    requires PlanOk(pl) && root in pl.nodes && fuel > 0
    ensures var r := Visit(pl, create, root, 0, fuel, WalkState(map[], [], [], [], []));
      (r.Failed? ==> !pl.dryRun && (r.error.CreateFailed? || r.error.MissingCreatedId?))
      && (r.Done? ==> WalkDone(pl, root, r.st))
  {
    var st := WalkState(map[], [], [], [], []);
    VisitSafe(pl, create, root, 0, fuel, st);
    VisitEffects(pl, create, root, 0, fuel, st);
    VisitOrder(pl, create, root, 0, fuel, st);
    RootOrder(pl, root, fuel);
  }

  /** The plan handed to `walk` is well formed: the body fetches keep every
      id, title and parent of the node map. */
  lemma PlanReady(pl: Plan, nodes: map<string, Node>, blocked: set<string>, source: string, re: Option<Regex>,
                  fetch: string -> Result<string>)
    requires Prepared(nodes, blocked, pl.children, source, re)
    requires BodiesFilled(nodes, source, blocked, fetch, nodes.Keys, pl.nodes)
    ensures PlanOk(pl) && source in pl.nodes
    ensures forall k :: k in pl.nodes ==> k in nodes && pl.nodes[k].title == nodes[k].title
    ensures SameTree(nodes, pl.nodes)
  {
    forall k | k in pl.nodes
      ensures k in nodes && pl.nodes[k].id == k && pl.nodes[k].title == nodes[k].title
              && pl.nodes[k].parentId == nodes[k].parentId
    {
      assert k in nodes.Keys;
    }
  }

  /** The child lists name unblocked nodes under their own parent. */
  lemma ChildrenListed(nodes: map<string, Node>, blocked: set<string>, children: map<string, seq<string>>)
    requires ChildrenOk(nodes, blocked, children)
    ensures forall p, x :: p in children && x in children[p] ==> x in nodes && nodes[x].parentId == Some(p) && x !in blocked
  {
    forall p, x | p in children && x in children[p]
      ensures x in nodes && nodes[x].parentId == Some(p) && x !in blocked
    {
      ChildrenMembers(nodes, blocked, children, p, x);
    }
  }

  /** A visited page other than the root has no title the exclusion glob matches. */
  lemma ExclusionHolds(pl: Plan, nodes: map<string, Node>, root: string, glob: string, blocked: set<string>, st: WalkState)
    requires Prepared(nodes, blocked, pl.children, root, Some(Regex(Translate(glob))))
    requires forall k :: k in pl.nodes ==> k in nodes && pl.nodes[k].title == nodes[k].title
    requires forall x :: x in st.visited ==> x in pl.nodes && (x == root || Listed(pl, x))
    ensures forall x :: x in st.visited && x != root ==> !Matches(glob, pl.nodes[x].title)
  {
    forall x | x in st.visited && x != root
      ensures !Matches(glob, pl.nodes[x].title)
    {
      var p :| p in pl.children && x in pl.children[p];
      IsMatchGlob(glob, nodes[x].title);
    }
  }

  datatype CopyError = GlobError(msg: string) | NoSpaceId | FetchFailed(msg: string) | WalkFailed(walk: WalkError)

  function CopyErrorText(e: CopyError): string {
    match e
    case GlobError(msg) => msg
    case NoSpaceId => "Target parent missing spaceId"
    case FetchFailed(msg) => msg
    case WalkFailed(w) => ErrorText(w)
  }

  /** The plan that was walked and the walk's final state, or the first error. */
  datatype CopyResult = Copied(pl: Plan, blocked: set<string>, st: WalkState) | CopyFailed(error: CopyError)

  /** What a successful copy leaves: the plan keeps the arguments, the walk
      satisfies `WalkDone`, and no visited page but the root has a title the
      exclusion glob matches. */
  ghost predicate CopyDone(r: CopyResult, source: string, target: string, exclude: Option<string>, space: string,
                           maxDepth: nat, dryRun: bool) {
    r.Copied? ==> (
      r.pl.target == target && r.pl.dryRun == dryRun && r.pl.maxDepth == maxDepth && r.pl.space == space
      && WalkDone(r.pl, source, r.st)
      && (exclude.Some? ==> forall x :: x in r.st.visited && x != source ==> !Matches(exclude.value, r.pl.nodes[x].title))
      && r.st.visited == Ids(Order(r.pl, source, 0, |r.pl.nodes| + 1))
      && (forall x :: x in r.blocked <==> x in Matching(r.pl.nodes, source, CompiledGlob(exclude)) || ParentIn(r.pl.nodes, x, r.blocked))
      && (source in r.pl.nodes && r.pl.nodes[source].parentId.None? ==>
            Unique(r.st.visited) && Reaches(r.pl, r.blocked, source)))
  }

  /** The exclusion glob as `copy_tree` compiles it. */
  function CompiledGlob(exclude: Option<string>): Option<Regex> {
    if exclude.Some? then Some(Regex(Translate(exclude.value))) else None
  }

  /** A walk that finished on a prepared plan meets `CopyDone`. */
  lemma CopyFinished(r: CopyResult, nodes: map<string, Node>, source: string, target: string, exclude: Option<string>,
                     space: string, maxDepth: nat, dryRun: bool)
    requires r.Copied? && r.pl.target == target && r.pl.dryRun == dryRun && r.pl.maxDepth == maxDepth && r.pl.space == space
    requires Prepared(nodes, r.blocked, r.pl.children, source, CompiledGlob(exclude))
    requires Blocking(nodes, r.blocked, r.pl.children, source, CompiledGlob(exclude))
    requires PlanOk(r.pl) && source in r.pl.nodes && SameTree(nodes, r.pl.nodes)
    requires forall k :: k in r.pl.nodes ==> k in nodes && r.pl.nodes[k].title == nodes[k].title
    requires WalkDone(r.pl, source, r.st) && r.st.visited == Ids(Order(r.pl, source, 0, |r.pl.nodes| + 1))
    ensures CopyDone(r, source, target, exclude, space, maxDepth, dryRun)
  {
    if exclude.Some? {
      ExclusionHolds(r.pl, nodes, source, exclude.value, r.blocked, r.st);
    }
    CopyCoverage(r.pl, nodes, r.blocked, source, CompiledGlob(exclude), r.st);
  }

  /** The copy's exclusion rule and coverage, read on the plan's node map. */
  lemma CopyCoverage(pl: Plan, nodes: map<string, Node>, blocked: set<string>, source: string, re: Option<Regex>,
                     st: WalkState)
    requires Blocking(nodes, blocked, pl.children, source, re)
    requires PlanOk(pl) && SameTree(nodes, pl.nodes) && source in pl.nodes
    requires st.visited == Ids(Order(pl, source, 0, |pl.nodes| + 1))
    ensures forall x :: x in blocked <==> x in Matching(pl.nodes, source, re) || ParentIn(pl.nodes, x, blocked)
    ensures pl.nodes[source].parentId.None? ==> Unique(st.visited) && Reaches(pl, blocked, source)
  {
    SameTreeBlocked(nodes, pl.nodes, source, re, blocked);
    if pl.nodes[source].parentId.None? {
      assert source !in Matching(nodes, source, re) && !ParentIn(nodes, source, blocked);
      WalkReaches(pl, nodes, blocked, source);
    }
  }

  /** Matching and the parent relation only read ids, parents and titles. */
  lemma SameTreeBlocked(nodes: map<string, Node>, nodes': map<string, Node>, source: string, re: Option<Regex>,
                        blocked: set<string>)
    requires SameTree(nodes, nodes')
    ensures Matching(nodes', source, re) == Matching(nodes, source, re)
    ensures forall x :: ParentIn(nodes', x, blocked) == ParentIn(nodes, x, blocked)
  {
  }

  /** The node map, the blocked set and the child lists as the walk needs them. */
  ghost predicate Prepared(nodes: map<string, Node>, blocked: set<string>, children: map<string, seq<string>>,
                           source: string, re: Option<Regex>) {
    source in nodes
    && (forall k :: k in nodes ==> nodes[k].id == k)
    && Matching(nodes, source, re) <= blocked
    && (forall p, x :: p in children && x in children[p] ==> x in nodes && nodes[x].parentId == Some(p) && x !in blocked)
  }

  /** The blocked set is closed under children and follows the exclusion
      rule, and the child lists are exactly the unblocked children. */
  ghost predicate Blocking(nodes: map<string, Node>, blocked: set<string>, children: map<string, seq<string>>,
                           source: string, re: Option<Regex>) {
    Closed(nodes, blocked) && ChildrenOk(nodes, blocked, children)
    && (forall id :: id in blocked <==> id in Matching(nodes, source, re) || ParentIn(nodes, id, blocked))
  }

  /** The node map, the excluded pages grown to their subtrees, and the sorted
      child lists. */
  method Prepare(source: string, re: Option<Regex>, items: seq<Json>, rootTitle: string, rootBody: string)
    returns (nodes: map<string, Node>, blocked: set<string>, children: map<string, seq<string>>)
    ensures Prepared(nodes, blocked, children, source, re)
    ensures Blocking(nodes, blocked, children, source, re)
  {
    nodes := CollectNodes(source, rootTitle, rootBody, items);
    var b0 := MarkMatching(nodes, source, re);
    ghost var rank;
    blocked, rank := Propagate(nodes, b0);
    children := BuildChildren(nodes, blocked);
    ghost var start := map[source := Node(source, None, rootTitle, 0, Some(rootBody))];
    NodesFromIds(start, items);
    NodesFromKeys(start, items, source);
    ChildrenListed(nodes, blocked, children);
    forall id
      ensures id in blocked <==> id in b0 || ParentIn(nodes, id, blocked)
    {
      BlockedRule(nodes, b0, blocked, rank, id);
    }
  }

  /** The top-level `walk` call: the root at depth 0 with an empty mapping. */
  method WalkRoot(pl: Plan, create: Creator, root: string) returns (w: WalkResult)
    requires PlanOk(pl) && root in pl.nodes
    ensures w.Failed? ==> !pl.dryRun && (w.error.CreateFailed? || w.error.MissingCreatedId?)
    ensures w.Done? ==> WalkDone(pl, root, w.st) && w.st.visited == Ids(Order(pl, root, 0, |pl.nodes| + 1))
  {
    WalkOutcome(pl, create, root, |pl.nodes| + 1);
    VisitOrder(pl, create, root, 0, |pl.nodes| + 1, WalkState(map[], [], [], [], []));
    assert [] + Ids(Order(pl, root, 0, |pl.nodes| + 1)) == Ids(Order(pl, root, 0, |pl.nodes| + 1));
    w := Walk(pl, create, root, 0, |pl.nodes| + 1, WalkState(map[], [], [], [], []));
  }

  /** `copy_tree` from the node map on: `re` is the compiled exclusion glob,
      `items` the discovered descendants and the root's title and storage body
      as fetched. */
  method CopyPages(source: string, target: string, exclude: Option<string>, re: Option<Regex>, space: string,
                   items: seq<Json>, rootTitle: string, rootBody: string,
                   fetch: string -> Result<string>, create: Creator,
                   newTitle: Option<string>, suffix: string, maxDepth: nat, dryRun: bool)
    returns (r: CopyResult)
    requires re == if exclude.Some? then Some(Regex(Translate(exclude.value))) else None
    ensures r.CopyFailed? ==> (r.error.WalkFailed? && !dryRun && (r.error.walk.CreateFailed? || r.error.walk.MissingCreatedId?))
                              || (r.error.FetchFailed? && exists id :: fetch(id) == Err(r.error.msg))
    ensures CopyDone(r, source, target, exclude, space, maxDepth, dryRun)
  {
    var nodes, blocked, children := Prepare(source, re, items, rootTitle, rootBody);
    var bodies := FetchBodies(nodes, source, blocked, fetch);
    if bodies.Err? {
      return CopyFailed(FetchFailed(bodies.error));
    }
    var pl := Plan(bodies.value, children, target, space, newTitle, suffix, maxDepth, dryRun);
    PlanReady(pl, nodes, blocked, source, re, fetch);
    var w := WalkRoot(pl, create, source);
    if w.Failed? {
      return CopyFailed(WalkFailed(w.error));
    }
    r := Copied(pl, blocked, w.st);
    CopyFinished(r, nodes, source, target, exclude, space, maxDepth, dryRun);
  }

  /** `copy_tree` after the two page ids are resolved: `targetPage` is the
      target parent's JSON as fetched, or the fetch error, `descendants` the direct-children discovery,
      `root` the source page with its storage body, `fetch` the storage body of
      a descendant and `create` the page-create call. The walk starts at the
      root at depth 0; a `maxDepth` of 0 means no limit. */
  method CopyTreeRun(source: string, target: string, exclude: Option<string>, compile: string -> Option<string>,
                     targetPage: Result<Json>, descendants: Result<seq<Json>>, root: Result<(Json, string)>,
                     fetch: string -> Result<string>, create: Creator,
                     newTitle: Option<string>, suffix: string, maxDepth: nat, dryRun: bool)
    returns (r: CopyResult)
    ensures exclude.Some? && compile(Translate(exclude.value)).Some? ==>
      r == CopyFailed(GlobError("Invalid glob pattern: " + compile(Translate(exclude.value)).value))
    ensures (exclude.None? || compile(Translate(exclude.value)).None?) && targetPage.Err? ==>
      r == CopyFailed(FetchFailed(targetPage.error))
    ensures (exclude.None? || compile(Translate(exclude.value)).None?) && targetPage.Ok? && GetStr(targetPage.value, "spaceId").None? ==>
      r == CopyFailed(NoSpaceId)
    ensures (exclude.None? || compile(Translate(exclude.value)).None?) && targetPage.Ok? && GetStr(targetPage.value, "spaceId").Some? ==> (
      (descendants.Err? ==> r == CopyFailed(FetchFailed(descendants.error)))
      && (descendants.Ok? && root.Err? ==> r == CopyFailed(FetchFailed(root.error))))
    ensures r.CopyFailed? && r.error.WalkFailed? ==> !dryRun && (r.error.walk.CreateFailed? || r.error.walk.MissingCreatedId?)
    ensures r.CopyFailed? && r.error.FetchFailed? ==>
      (targetPage.Err? && r.error.msg == targetPage.error)
      || (descendants.Err? && r.error.msg == descendants.error) || (root.Err? && r.error.msg == root.error)
      || exists id :: fetch(id) == Err(r.error.msg)
    ensures r.Copied? ==> targetPage.Ok? && GetStr(targetPage.value, "spaceId").Some?
                          && CopyDone(r, source, target, exclude, GetStr(targetPage.value, "spaceId").value, maxDepth, dryRun)
  {
    var re: Option<Regex> := None;
    if exclude.Some? {
      var g := GlobToRegexCi(exclude.value, compile);
      if g.Err? {
        return CopyFailed(GlobError(g.error));
      }
      re := Some(g.value);
    }
    if targetPage.Err? {
      return CopyFailed(FetchFailed(targetPage.error));
    }
    var space := GetStr(targetPage.value, "spaceId");
    if space.None? {
      return CopyFailed(NoSpaceId);
    }
    if descendants.Err? {
      return CopyFailed(FetchFailed(descendants.error));
    }
    if root.Err? {
      return CopyFailed(FetchFailed(root.error));
    }
    var (rootJson, rootBody) := root.value;
    r := CopyPages(source, target, exclude, re, space.value, descendants.value, JsonStr(rootJson, "title"), rootBody,
                   fetch, create, newTitle, suffix, maxDepth, dryRun);
  }
}
