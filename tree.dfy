/**
 * Descendant discovery of src/tree.rs: a breadth-first walk over the
 * `direct-children` listing of each page, with a seen-set, an optional depth
 * bound and, when not fetching everything, a cap on the number of results.
 *
 * The listing is an oracle `list(parentId, pageSize)` standing for building
 * the `/pages/{id}/direct-children?limit=…` URL and `get_paginated_results`
 * on it; an `Err` from it is either failure. The server is finite: every
 * non-empty child id it can list lies in a finite `universe`, which is what
 * makes the walk end.
 */
module Tree {
  import opened Wrappers
  import opened Json

  /** One listing call: the page expanded, its depth, and the page size asked for. */
  datatype Request = Request(parentId: string, depth: nat, pageSize: nat)

  type Lister = (string, nat) -> Result<seq<Json>>

  /** `child.get("id").and_then(|v| v.as_str()).unwrap_or("")` */
  function IdOf(c: Json): string {
    GetStr(c, "id").GetOr("")
  }

  /** The child augmented with `parentId` and `depth`; a non-object is left alone. */
  function Tag(c: Json, p: string, d: nat): (t: Json)
    ensures c.JObj? ==> Get(t, "parentId") == Some(JStr(p)) && Get(t, "depth") == Some(JNum(d))
    ensures !c.JObj? ==> t == c
  {
    match c
    case JObj(m) => JObj(m["parentId" := JStr(p)]["depth" := JNum(d)])
    case _ => c
  }

  /** Tagging leaves every other field alone, the id included. */
  lemma TagKeeps(c: Json, p: string, d: nat)
    requires c.JObj?
    ensures forall k :: k != "parentId" && k != "depth" ==> Get(Tag(c, p, d), k) == Get(c, k)
    ensures IdOf(Tag(c, p, d)) == IdOf(c)
  {
    assert Get(Tag(c, p, d), "id") == Get(c, "id");
  }

  /** The children with a non-empty id, tagged with their parent and depth, in order. */
  function Kept(cs: seq<Json>, p: string, d: nat): (r: seq<Json>)
    ensures |r| <= |cs|
  {
    if cs == [] then []
    else Kept(cs[..|cs| - 1], p, d) + (if IdOf(cs[|cs| - 1]) == "" then [] else [Tag(cs[|cs| - 1], p, d)])
  }

  /** What one request contributes to the output. */
  function Expansion(list: Lister, r: Request): seq<Json> {
    match list(r.parentId, r.pageSize)
    case Ok(cs) => Kept(cs, r.parentId, r.depth + 1)
    case Err(_) => []
  }

  /** The expansions of the requests, concatenated in request order. */
  function Flatten(list: Lister, reqs: seq<Request>): seq<Json> {
    if reqs == [] then []
    else Flatten(list, reqs[..|reqs| - 1]) + Expansion(list, reqs[|reqs| - 1])
  }

  function Max1(n: int): nat {
    if n < 1 then 1 else n
  }

  /** `limit.max(1)` when fetching everything, else `(limit - collected).max(1)`
      with a saturating subtraction. */
  function PageSize(limit: nat, all: bool, collected: nat): (n: nat)
    ensures n >= 1
    ensures all ==> n == Max1(limit)
    ensures !all && collected < limit ==> n == limit - collected
  {
    if all then Max1(limit) else Max1(if collected <= limit then limit - collected else 0)
  }

  /** The number of results held when request `k` was made. */
  function Collected(list: Lister, reqs: seq<Request>, k: nat): nat
    requires k <= |reqs|
  {
    |Flatten(list, reqs[..k])|
  }


  /** The ids in a queue. */
  function QIds(q: seq<(string, nat)>): set<string> {
    if q == [] then {} else {q[0].0} + QIds(q[1..])
  }

  /** The pages the requests expanded. */
  function ReqIds(reqs: seq<Request>): set<string> {
    if reqs == [] then {} else ReqIds(reqs[..|reqs| - 1]) + {reqs[|reqs| - 1].parentId}
  }

  /** The ids of the results. */
  function OutIds(out: seq<Json>): set<string> {
    if out == [] then {} else OutIds(out[..|out| - 1]) + {IdOf(out[|out| - 1])}
  }

  /** Every non-empty id the oracle lists lies in `universe`. */
  ghost predicate Finite(list: Lister, universe: set<string>) {
    forall p: string, n: nat :: list(p, n).Ok? ==> Listed(list(p, n).value, universe)
  }

  predicate Listed(cs: seq<Json>, universe: set<string>) {
    forall i :: 0 <= i < |cs| && IdOf(cs[i]) != "" ==> IdOf(cs[i]) in universe
  }

  lemma {:induction false} KeptPrefix(cs: seq<Json>, p: string, d: nat, i: nat)
    requires i <= |cs|
    ensures Kept(cs[..i], p, d) <= Kept(cs, p, d)
    decreases |cs|
  {
    if i < |cs| {
      assert cs[..|cs| - 1][..i] == cs[..i];
      KeptPrefix(cs[..|cs| - 1], p, d, i);
    } else {
      assert cs[..i] == cs;
    }
  }

  /** The kept children carry a non-empty id, the parent's id and the depth. */
  lemma {:induction false} KeptTagged(cs: seq<Json>, p: string, d: nat)
    ensures forall x :: x in Kept(cs, p, d) ==>
      IdOf(x) != "" && Get(x, "parentId") == Some(JStr(p)) && Get(x, "depth") == Some(JNum(d))
    decreases |cs|
  {
    if cs != [] {
      KeptTagged(cs[..|cs| - 1], p, d);
      var c := cs[|cs| - 1];
      if IdOf(c) != "" {
        TagKeeps(c, p, d);
      }
    }
  }

  /** `x` names the request's page as its parent and sits one level below it. */
  predicate TaggedBy(x: Json, r: Request) {
    Get(x, "parentId") == Some(JStr(r.parentId)) && Get(x, "depth") == Some(JNum(r.depth + 1))
  }

  /** Every output item comes from some request: it names that request's page as
      its parent and sits one level below it. */
  lemma {:induction false} FlattenTagged(list: Lister, reqs: seq<Request>)
    ensures forall x :: x in Flatten(list, reqs) ==> IdOf(x) != "" && exists k :: 0 <= k < |reqs| && TaggedBy(x, reqs[k])
    decreases |reqs|
  {
    if reqs != [] {
      var init := reqs[..|reqs| - 1];
      var last := reqs[|reqs| - 1];
      FlattenTagged(list, init);
      ExpansionTagged(list, last);
      assert Flatten(list, reqs) == Flatten(list, init) + Expansion(list, last);
      forall x | x in Flatten(list, reqs) ensures IdOf(x) != "" && exists k :: 0 <= k < |reqs| && TaggedBy(x, reqs[k]) {
        if x in Flatten(list, init) {
          var k :| 0 <= k < |init| && TaggedBy(x, init[k]);
          assert init[k] == reqs[k];
        } else {
          assert x in Expansion(list, last) && reqs[|reqs| - 1] == last;
        }
      }
    }
  }

  /** Every item one request expands to is tagged by it. */
  lemma ExpansionTagged(list: Lister, r: Request)
    ensures forall x :: x in Expansion(list, r) ==> IdOf(x) != "" && TaggedBy(x, r)
  {
    match list(r.parentId, r.pageSize)
    case Ok(cs) =>
      KeptTagged(cs, r.parentId, r.depth + 1);
      assert Expansion(list, r) == Kept(cs, r.parentId, r.depth + 1);
    case Err(_) =>
      assert Expansion(list, r) == [];
  }

  lemma FlattenSnoc(list: Lister, reqs: seq<Request>, r: Request)
    ensures Flatten(list, reqs + [r]) == Flatten(list, reqs) + Expansion(list, r)
  {
    assert (reqs + [r])[..|reqs|] == reqs;
  }

  lemma {:induction false} QIdsAppend(a: seq<(string, nat)>, b: seq<(string, nat)>)
    ensures QIds(a + b) == QIds(a) + QIds(b)
    decreases |a|
  {
    if a == [] {
      assert a + b == b;
    } else {
      assert (a + b)[1..] == a[1..] + b;
      QIdsAppend(a[1..], b);
    }
  }

  lemma ReqIdsSnoc(reqs: seq<Request>, r: Request)
    ensures ReqIds(reqs + [r]) == ReqIds(reqs) + {r.parentId}
  {
    assert (reqs + [r])[..|reqs|] == reqs;
  }

  lemma {:induction false} ReqIdsMember(reqs: seq<Request>, i: nat)
    requires i < |reqs|
    ensures reqs[i].parentId in ReqIds(reqs)
    decreases |reqs|
  {
    if i < |reqs| - 1 {
      ReqIdsMember(reqs[..|reqs| - 1], i);
    }
  }

  lemma {:induction false} OutIdsAppend(a: seq<Json>, b: seq<Json>)
    ensures OutIds(a + b) == OutIds(a) + OutIds(b)
    decreases |b|
  {
    if b == [] {
      assert a + b == a;
    } else {
      assert (a + b)[..|a + b| - 1] == a + b[..|b| - 1];
      OutIdsAppend(a, b[..|b| - 1]);
    }
  }

  /** A strictly larger seen-set inside a finite universe leaves fewer unseen ids. */
  lemma UnseenShrinks(u: set<string>, seen: set<string>, seen': set<string>, x: string)
    requires seen <= seen' && x in seen' && x !in seen && x in u
    ensures |u - seen'| < |u - seen|
  {
    var a := u - seen';
    var b := u - seen;
    assert a <= b - {x};
    SubsetCard(a, b - {x});
  }

  lemma {:induction false} SubsetCard(a: set<string>, b: set<string>)
    requires a <= b
    ensures |a| <= |b|
    decreases |a|
  {
    if a != {} {
      var y :| y in a;
      SubsetCard(a - {y}, b - {y});
    }
  }

  /** A queue whose depths rise from at least `lo` to at most `hi`, with distinct ids. */
  predicate QueueOk(q: seq<(string, nat)>, lo: nat, hi: nat)
    decreases |q|
  {
    q == [] || (lo <= q[0].1 <= hi && q[0].0 !in QIds(q[1..]) && QueueOk(q[1..], q[0].1, hi))
  }

  lemma {:induction false} QueueOkSnoc(q: seq<(string, nat)>, x: (string, nat), lo: nat, hi: nat)
    requires QueueOk(q, lo, hi) && x.0 !in QIds(q) && x.1 == hi && lo <= hi
    ensures QueueOk(q + [x], lo, hi)
    decreases |q|
  {
    if q == [] {
      assert [x][1..] == [];
      assert q + [x] == [x];
    } else {
      assert (q + [x])[1..] == q[1..] + [x];
      QueueOkSnoc(q[1..], x, q[0].1, hi);
      QIdsAppend(q[1..], [x]);
      assert QIds([x]) == {x.0} by {
        assert [x][1..] == [];
      }
    }
  }

  lemma {:induction false} QueueOkAppend(q: seq<(string, nat)>, a: seq<(string, nat)>, lo: nat, hi: nat)
    requires QueueOk(q, lo, hi) && QueueOk(a, hi, hi) && QIds(q) !! QIds(a) && lo <= hi
    ensures QueueOk(q + a, lo, hi)
    decreases |q|
  {
    if q == [] {
      assert q + a == a;
    } else {
      assert (q + a)[1..] == q[1..] + a;
      QueueOkAppend(q[1..], a, q[0].1, hi);
      QIdsAppend(q[1..], a);
    }
  }

  lemma {:induction false} QueueOkRaise(q: seq<(string, nat)>, lo: nat, hi: nat, hi': nat)
    requires QueueOk(q, lo, hi) && hi <= hi'
    ensures QueueOk(q, lo, hi')
    decreases |q|
  {
    if q != [] {
      QueueOkRaise(q[1..], q[0].1, hi, hi');
    }
  }

  /** Keeping one child with a non-empty id preserves the state of the loop
      over a listing. */
  lemma ChildStep(child: Json, p: string, d: nat, kept: seq<Json>, added: seq<(string, nat)>,
                  seen: set<string>, seen0: set<string>, universe: set<string>)
    requires IdOf(child) != "" && IdOf(child) in universe
    requires QueueOk(added, d, d) && QIds(added) !! seen0
    requires seen == seen0 + QIds(added) && seen - seen0 <= universe
    requires OutIds(kept) <= seen
    ensures var id := IdOf(child);
      var added' := if id in seen then added else added + [(id, d)];
      QueueOk(added', d, d) && QIds(added') !! seen0
      && seen + {id} == seen0 + QIds(added') && seen + {id} - seen0 <= universe
      && OutIds(kept + [Tag(child, p, d)]) <= seen + {id}
  {
    var id := IdOf(child);
    TagKeeps(child, p, d);
    assert (kept + [Tag(child, p, d)])[..|kept|] == kept;
    if id !in seen {
      QueueOkSnoc(added, (id, d), d, d);
      QIdsAppend(added, [(id, d)]);
      assert QIds([(id, d)]) == {id} by {
        assert [(id, d)][1..] == [];
      }
    }
  }

  /** What the loop over one listing has gathered: the tagged children kept,
      the ids it queued, and the seen-set. */
  datatype Grown = Grown(kept: seq<Json>, added: seq<(string, nat)>, seen: set<string>)

  /** The room left under `limit` when not fetching everything; `None` when
      fetching everything. */
  function Cap(limit: nat, all: bool, held: nat): Option<nat> {
    if all then None else Some(if held <= limit then limit - held else 0)
  }

  predicate Full(g: Grown, cap: Option<nat>) {
    cap.Some? && |g.kept| >= cap.value
  }

  /** One child: skipped when its id is empty, else tagged and kept, and queued
      at depth `d` when its id is new. */
  function GrowChild(g: Grown, c: Json, p: string, d: nat): Grown {
    var id := IdOf(c);
    if id == "" then g
    else Grown(g.kept + [Tag(c, p, d)], if id in g.seen then g.added else g.added + [(id, d)], g.seen + {id})
  }

  /** The loop over the listing `cs` of page `p`, stopping once the cap is reached. */
  function Grow(cs: seq<Json>, p: string, d: nat, cap: Option<nat>, seen0: set<string>): Grown {
    if cs == [] then Grown([], [], seen0)
    else
      var g := Grow(cs[..|cs| - 1], p, d, cap, seen0);
      if Full(g, cap) then g else GrowChild(g, cs[|cs| - 1], p, d)
  }

  lemma SnocAssoc<T>(a: seq<T>, b: seq<T>, x: T)
    ensures (a + b) + [x] == a + (b + [x])
  {
  }

  lemma GrowSnoc(cs: seq<Json>, i: nat, p: string, d: nat, cap: Option<nat>, seen0: set<string>)
    requires i < |cs|
    ensures Grow(cs[..i + 1], p, d, cap, seen0)
         == (var g := Grow(cs[..i], p, d, cap, seen0); if Full(g, cap) then g else GrowChild(g, cs[i], p, d))
  {
    assert cs[..i + 1][..i] == cs[..i];
  }

  /** Once the cap is reached the rest of the listing is ignored. */
  lemma {:induction false} GrowStops(cs: seq<Json>, i: nat, p: string, d: nat, cap: Option<nat>, seen0: set<string>)
    requires i <= |cs| && Full(Grow(cs[..i], p, d, cap, seen0), cap)
    ensures Grow(cs, p, d, cap, seen0) == Grow(cs[..i], p, d, cap, seen0)
    decreases |cs|
  {
    if i < |cs| {
      assert cs[..|cs| - 1][..i] == cs[..i];
      GrowStops(cs[..|cs| - 1], i, p, d, cap, seen0);
    } else {
      assert cs[..i] == cs;
    }
  }

  /** The children kept are the tagged children with a non-empty id, in order,
      cut at the cap. */
  lemma {:induction false} GrowKept(cs: seq<Json>, p: string, d: nat, cap: Option<nat>, seen0: set<string>)
    ensures Grow(cs, p, d, cap, seen0).kept <= Kept(cs, p, d)
    ensures cap.None? ==> Grow(cs, p, d, cap, seen0).kept == Kept(cs, p, d)
    ensures cap.Some? ==> |Grow(cs, p, d, cap, seen0).kept| <= cap.value
    ensures cap.Some? && |Grow(cs, p, d, cap, seen0).kept| < cap.value ==> Grow(cs, p, d, cap, seen0).kept == Kept(cs, p, d)
    decreases |cs|
  {
    if cs != [] {
      GrowKept(cs[..|cs| - 1], p, d, cap, seen0);
    }
  }

  /** `GrowKept` with the cap written out: at most `limit - held` children are
      kept, and fewer only when the listing ran out. */
  lemma GrowKeptUnder(cs: seq<Json>, p: string, d: nat, limit: nat, all: bool, held: nat, seen0: set<string>)
    requires all || held < limit
    ensures var kept := Grow(cs, p, d, Cap(limit, all, held), seen0).kept;
      kept <= Kept(cs, p, d)
      && (all ==> kept == Kept(cs, p, d))
      && (!all ==> |kept| <= limit - held && (|kept| < limit - held ==> kept == Kept(cs, p, d)))
  {
    GrowKept(cs, p, d, Cap(limit, all, held), seen0);
  }

  /** The ids queued are new, distinct and at depth `d`; the seen-set grows by
      exactly them, inside the universe; every kept child's id is seen. */
  lemma {:induction false} GrowQueue(cs: seq<Json>, p: string, d: nat, cap: Option<nat>, seen0: set<string>,
                                     universe: set<string>)
    requires Listed(cs, universe)
    ensures var g := Grow(cs, p, d, cap, seen0);
      QueueOk(g.added, d, d) && QIds(g.added) !! seen0
      && g.seen == seen0 + QIds(g.added) && g.seen - seen0 <= universe
      && OutIds(g.kept) <= g.seen
    decreases |cs|
  {
    if cs == [] {
      assert QIds([]) == {};
    } else {
      var init := cs[..|cs| - 1];
      assert Listed(init, universe) by {
        forall i | 0 <= i < |init| && IdOf(init[i]) != "" ensures IdOf(init[i]) in universe {
          assert init[i] == cs[i];
        }
      }
      GrowQueue(init, p, d, cap, seen0, universe);
      var g := Grow(init, p, d, cap, seen0);
      var c := cs[|cs| - 1];
      if !Full(g, cap) && IdOf(c) != "" {
        ChildStep(c, p, d, g.kept, g.added, g.seen, seen0, universe);
      }
    }
  }

  /** Every id the loop queued is the id of a child it kept. */
  lemma {:induction false} GrowAddedKept(cs: seq<Json>, p: string, d: nat, cap: Option<nat>, seen0: set<string>)
    ensures var g := Grow(cs, p, d, cap, seen0); QIds(g.added) <= OutIds(g.kept)
    decreases |cs|
  {
    if cs == [] {
      assert QIds([]) == {};
    } else {
      var g := Grow(cs[..|cs| - 1], p, d, cap, seen0);
      GrowAddedKept(cs[..|cs| - 1], p, d, cap, seen0);
      if !Full(g, cap) {
        GrowChildAddedKept(g, cs[|cs| - 1], p, d);
      }
    }
  }

  /** One child keeps every queued id among the kept ones. */
  lemma GrowChildAddedKept(g: Grown, c: Json, p: string, d: nat)
    requires QIds(g.added) <= OutIds(g.kept)
    ensures var g' := GrowChild(g, c, p, d); QIds(g'.added) <= OutIds(g'.kept)
  {
    var id := IdOf(c);
    if id != "" {
      TagKeeps(c, p, d);
      OutIdsAppend(g.kept, [Tag(c, p, d)]);
      assert OutIds([Tag(c, p, d)]) == {id};
      QIdsAppend(g.added, [(id, d)]);
      assert QIds([(id, d)]) == {id} by {
        assert [(id, d)][1..] == [];
      }
    }
  }

  /** The loop over one listing: tag and keep the children with a non-empty id,
      queue those not seen yet at depth `d`, and stop once `limit` results are
      held when not fetching everything. `kept` and `added` are what it
      appended to `out0` and `q0`. */
  method ExpandChildren(cs: seq<Json>, p: string, d: nat, limit: nat, all: bool,
                        out0: seq<Json>, q0: seq<(string, nat)>, seen0: set<string>, ghost universe: set<string>)
    returns (out: seq<Json>, q: seq<(string, nat)>, seen: set<string>,
             ghost kept: seq<Json>, ghost added: seq<(string, nat)>)
    requires !all ==> |out0| < limit
    requires Listed(cs, universe)
    ensures out == out0 + kept && q == q0 + added
    // the children with an id, tagged, in order; cut at `limit` when not fetching everything
    ensures kept <= Kept(cs, p, d)
    ensures all ==> kept == Kept(cs, p, d)
    ensures !all ==> |kept| <= limit - |out0| && (|kept| < limit - |out0| ==> kept == Kept(cs, p, d))
    // the new ids, each once, at depth `d`; the seen-set grows by exactly them
    ensures QueueOk(added, d, d) && QIds(added) !! seen0
    ensures seen == seen0 + QIds(added) && seen - seen0 <= universe
    ensures OutIds(kept) <= seen
    // every id queued is that of a child kept
    ensures QIds(added) <= OutIds(kept)
  {
    out, q, seen := out0, q0, seen0;
    ghost var cap := Cap(limit, all, |out0|);
    ghost var g := Grown([], [], seen0);
    var i := 0;
    while i < |cs|
      invariant 0 <= i <= |cs| && g == Grow(cs[..i], p, d, cap, seen0)
      invariant out == out0 + g.kept && q == q0 + g.added && seen == g.seen && !Full(g, cap)
    {
      GrowSnoc(cs, i, p, d, cap, seen0);
      var child := cs[i];
      GrowStep(g, child, p, d, out0, q0, out, q);
      g := GrowChild(g, child, p, d);
      i := i + 1;
      var id := IdOf(child);
      if id == "" {
        continue;
      }
      out := out + [Tag(child, p, d)];
      if id !in seen {
        q := q + [(id, d)];
      }
      seen := seen + {id};
      if !all && |out| >= limit {
        GrowStops(cs, i, p, d, cap, seen0);
        break;
      }
    }
    if i == |cs| {
      assert cs[..i] == cs;
    }
    GrowKeptUnder(cs, p, d, limit, all, |out0|, seen0);
    GrowQueue(cs, p, d, cap, seen0, universe);
    GrowAddedKept(cs, p, d, cap, seen0);
    kept, added := g.kept, g.added;
  }

  /** One step of the loop in `ExpandChildren`, stated on the values it appends. */
  lemma GrowStep(g: Grown, c: Json, p: string, d: nat, out0: seq<Json>, q0: seq<(string, nat)>,
                 out: seq<Json>, q: seq<(string, nat)>)
    requires out == out0 + g.kept && q == q0 + g.added
    ensures var h := GrowChild(g, c, p, d); var id := IdOf(c);
      (id == "" ==> h == g)
      && (id != "" ==> out0 + h.kept == out + [Tag(c, p, d)] && h.seen == g.seen + {id}
                       && q0 + h.added == (if id in g.seen then q else q + [(id, d)]))
  {
    var id := IdOf(c);
    if id != "" {
      SnocAssoc(out0, g.kept, Tag(c, p, d));
      SnocAssoc(q0, g.added, (id, d));
    }
  }

  predicate DistinctReqs(reqs: seq<Request>) {
    reqs == [] || (DistinctReqs(reqs[..|reqs| - 1]) && reqs[|reqs| - 1].parentId !in ReqIds(reqs[..|reqs| - 1]))
  }

  /** Request depths never decrease, and none exceeds `level`. */
  predicate LevelOrder(reqs: seq<Request>, level: nat) {
    reqs == [] || (reqs[|reqs| - 1].depth <= level && LevelOrder(reqs[..|reqs| - 1], reqs[|reqs| - 1].depth))
  }

  predicate AllOk(list: Lister, reqs: seq<Request>) {
    reqs == [] || (AllOk(list, reqs[..|reqs| - 1]) && list(reqs[|reqs| - 1].parentId, reqs[|reqs| - 1].pageSize).Ok?)
  }

  predicate SizesOk(list: Lister, limit: nat, all: bool, reqs: seq<Request>) {
    reqs == [] || (SizesOk(list, limit, all, reqs[..|reqs| - 1])
      && reqs[|reqs| - 1].pageSize == PageSize(limit, all, |Flatten(list, reqs[..|reqs| - 1])|))
  }

  predicate Above(reqs: seq<Request>, m: nat) {
    reqs == [] || (Above(reqs[..|reqs| - 1], m) && reqs[|reqs| - 1].depth < m)
  }

  /** The queue and the seen-set: every page seen has been expanded, is queued,
      or was skipped for its depth, each exactly once; pages are expanded root
      first and level by level. */
  ghost predicate QueueInv(root: string, q: seq<(string, nat)>, seen: set<string>, requests: seq<Request>,
                           skipped: set<string>, unlimited: bool, level: nat) {
    QueueOk(q, level, level + 1)
    && DistinctReqs(requests)
    && LevelOrder(requests, level)
    && seen == ReqIds(requests) + QIds(q) + skipped
    && ReqIds(requests) !! QIds(q) && skipped !! QIds(q)
    && (unlimited ==> skipped == {})
    && (requests == [] ==> q == [(root, 0)] || q == [])
    && (requests != [] ==> requests[0].parentId == root && requests[0].depth == 0)
  }

  /** `out` is `full`, or a prefix of it cut at `limit` when not fetching everything. */
  predicate Cut(out: seq<Json>, full: seq<Json>, limit: nat, all: bool) {
    out <= full
    && (all ==> out == full)
    && (!all ==> |out| <= limit && (|out| < limit ==> out == full))
  }

  /** The results so far are the requests' expansions, cut at `limit`. */
  ghost predicate OutInv(list: Lister, limit: nat, all: bool, out: seq<Json>, seen: set<string>, requests: seq<Request>) {
    OutIds(out) <= seen
    && AllOk(list, requests)
    && Cut(out, Flatten(list, requests), limit, all)
  }

  /** Each request asked for the page size due at that point and stayed above the depth bound. */
  ghost predicate ReqInv(list: Lister, limit: nat, all: bool, maxDepth: Option<nat>, requests: seq<Request>) {
    SizesOk(list, limit, all, requests) && (maxDepth.GetOr(0) != 0 ==> Above(requests, maxDepth.value))
  }

  /** The whole loop state of `FetchDescendants`. */
  ghost predicate Walk(root: string, limit: nat, all: bool, maxDepth: Option<nat>, list: Lister, u: set<string>,
                       out: seq<Json>, q: seq<(string, nat)>, seen: set<string>, requests: seq<Request>,
                       skipped: set<string>, level: nat) {
    seen <= u
    && QueueInv(root, q, seen, requests, skipped, maxDepth.GetOr(0) == 0, level)
    && OutInv(list, limit, all, out, seen, requests)
    && ReqInv(list, limit, all, maxDepth, requests)
  }

  /** The walk stopped at a failed listing call: the last request failed with
      `e`, every earlier one succeeded, and the queue and request invariants
      still hold. */
  ghost predicate Failed(root: string, limit: nat, all: bool, maxDepth: Option<nat>, list: Lister,
                         q: seq<(string, nat)>, seen: set<string>, requests: seq<Request>,
                         skipped: set<string>, level: nat, e: string) {
    requests != []
    && list(requests[|requests| - 1].parentId, requests[|requests| - 1].pageSize) == Err(e)
    && AllOk(list, requests[..|requests| - 1])
    && QueueInv(root, q, seen, requests, skipped, maxDepth.GetOr(0) == 0, level)
    && ReqInv(list, limit, all, maxDepth, requests)
  }

  lemma QueueStart(root: string, unlimited: bool)
    ensures QueueInv(root, [(root, 0)], {root}, [], {}, unlimited, 0)
  {
    assert [(root, 0)][1..] == [];
  }

  lemma QueueSkip(root: string, q: seq<(string, nat)>, seen: set<string>, requests: seq<Request>,
                  skipped: set<string>, level: nat)
    requires QueueInv(root, q, seen, requests, skipped, false, level) && q != []
    ensures QueueInv(root, q[1..], seen, requests, skipped + {q[0].0}, false, q[0].1)
  {
    QueueOkRaise(q[1..], q[0].1, level + 1, q[0].1 + 1);
    if q == [(root, 0)] {
      assert q[1..] == [];
    }
  }

  /** Expanding the head keeps the queue ordered and the requests distinct,
      level by level and root first. */
  lemma QueueExpandOrder(root: string, q: seq<(string, nat)>, seen: set<string>, requests: seq<Request>,
                         skipped: set<string>, unlimited: bool, level: nat, req: Request,
                         added: seq<(string, nat)>)
    requires QueueInv(root, q, seen, requests, skipped, unlimited, level) && q != []
    requires req.parentId == q[0].0 && req.depth == q[0].1
    requires QueueOk(added, q[0].1 + 1, q[0].1 + 1) && QIds(added) !! seen
    ensures QueueOk(q[1..] + added, q[0].1, q[0].1 + 1)
    ensures DistinctReqs(requests + [req]) && LevelOrder(requests + [req], q[0].1)
    ensures (requests + [req])[0].parentId == root && (requests + [req])[0].depth == 0
  {
    QueueOkRaise(q[1..], q[0].1, level + 1, q[0].1 + 1);
    QueueOkAppend(q[1..], added, q[0].1, q[0].1 + 1);
    assert (requests + [req])[..|requests|] == requests;
  }

  /** Expanding the head moves its id from the queue to the requests and adds
      the new ids to both the queue and the seen-set. */
  lemma QueueExpandSets(q: seq<(string, nat)>, seen: set<string>, requests: seq<Request>,
                        skipped: set<string>, req: Request, added: seq<(string, nat)>, seen': set<string>)
    requires q != [] && q[0].0 !in QIds(q[1..])
    requires seen == ReqIds(requests) + QIds(q) + skipped
    requires ReqIds(requests) !! QIds(q) && skipped !! QIds(q)
    requires req.parentId == q[0].0
    requires QIds(added) !! seen && seen' == seen + QIds(added)
    ensures seen' == ReqIds(requests + [req]) + QIds(q[1..] + added) + skipped
    ensures ReqIds(requests + [req]) !! QIds(q[1..] + added) && skipped !! QIds(q[1..] + added)
  {
    QIdsAppend(q[1..], added);
    ReqIdsSnoc(requests, req);
  }

  lemma QueueExpand(root: string, q: seq<(string, nat)>, seen: set<string>, requests: seq<Request>,
                    skipped: set<string>, unlimited: bool, level: nat, p: string, d: nat, size: nat,
                    added: seq<(string, nat)>, seen': set<string>)
    requires QueueInv(root, q, seen, requests, skipped, unlimited, level) && q != [] && p == q[0].0 && d == q[0].1
    requires QueueOk(added, d + 1, d + 1) && QIds(added) !! seen && seen' == seen + QIds(added)
    ensures QueueInv(root, q[1..] + added, seen', requests + [Request(p, d, size)], skipped, unlimited, d)
  {
    var req := Request(p, d, size);
    QueueExpandOrder(root, q, seen, requests, skipped, unlimited, level, req, added);
    QueueExpandSets(q, seen, requests, skipped, req, added, seen');
  }

  lemma AllOkSnoc(list: Lister, reqs: seq<Request>, r: Request)
    requires AllOk(list, reqs) && list(r.parentId, r.pageSize).Ok?
    ensures AllOk(list, reqs + [r])
  {
    assert (reqs + [r])[..|reqs|] == reqs;
  }

  /** Appending what one listing kept to an uncut output keeps it a cut of the
      extended expansion. */
  lemma CutAppend(out: seq<Json>, full: seq<Json>, limit: nat, all: bool, kept: seq<Json>, k: seq<Json>)
    requires Cut(out, full, limit, all) && (all || |out| < limit)
    requires kept <= k
    requires all ==> kept == k
    requires !all ==> |kept| <= limit - |out| && (|kept| < limit - |out| ==> kept == k)
    ensures Cut(out + kept, full + k, limit, all)
  {
    assert out == full;
  }

  lemma OutExpand(list: Lister, limit: nat, all: bool, out: seq<Json>, seen: set<string>, requests: seq<Request>,
                  p: string, d: nat, size: nat, cs: seq<Json>, kept: seq<Json>, seen': set<string>)
    requires OutInv(list, limit, all, out, seen, requests)
    requires all || |out| < limit
    requires list(p, size) == Ok(cs)
    requires kept <= Kept(cs, p, d + 1)
    requires all ==> kept == Kept(cs, p, d + 1)
    requires !all ==> |kept| <= limit - |out| && (|kept| < limit - |out| ==> kept == Kept(cs, p, d + 1))
    requires seen <= seen' && OutIds(kept) <= seen'
    ensures OutInv(list, limit, all, out + kept, seen', requests + [Request(p, d, size)])
  {
    var req := Request(p, d, size);
    var full, k := Flatten(list, requests), Kept(cs, p, d + 1);
    FlattenSnoc(list, requests, req);
    ExpansionOk(list, p, d, size, cs);
    CutAppend(out, full, limit, all, kept, k);
    CutRewrite(out + kept, full + k, Flatten(list, requests + [req]), limit, all);
    OutIdsAppend(out, kept);
    AllOkSnoc(list, requests, req);
  }

  lemma ExpansionOk(list: Lister, p: string, d: nat, size: nat, cs: seq<Json>)
    requires list(p, size) == Ok(cs)
    ensures Expansion(list, Request(p, d, size)) == Kept(cs, p, d + 1)
  {
  }

  lemma CutRewrite(out: seq<Json>, full: seq<Json>, full': seq<Json>, limit: nat, all: bool)
    requires Cut(out, full, limit, all) && full == full'
    ensures Cut(out, full', limit, all)
  {
  }

  lemma ReqExpand(list: Lister, limit: nat, all: bool, maxDepth: Option<nat>, requests: seq<Request>, req: Request)
    requires ReqInv(list, limit, all, maxDepth, requests)
    requires req.pageSize == PageSize(limit, all, |Flatten(list, requests)|)
    requires maxDepth.GetOr(0) != 0 ==> req.depth < maxDepth.value
    ensures ReqInv(list, limit, all, maxDepth, requests + [req])
  {
    assert (requests + [req])[..|requests|] == requests;
  }

  lemma {:induction false} DistinctReqsAll(reqs: seq<Request>)
    requires DistinctReqs(reqs)
    ensures forall i, j :: 0 <= i < j < |reqs| ==> reqs[i].parentId != reqs[j].parentId
    decreases |reqs|
  {
    if reqs != [] {
      var init := reqs[..|reqs| - 1];
      DistinctReqsAll(init);
      forall i | 0 <= i < |init| ensures reqs[i].parentId != reqs[|reqs| - 1].parentId {
        ReqIdsMember(init, i);
      }
    }
  }

  lemma {:induction false} LevelOrderAll(reqs: seq<Request>, level: nat)
    requires LevelOrder(reqs, level)
    ensures forall i, j :: 0 <= i < j < |reqs| ==> reqs[i].depth <= reqs[j].depth
    ensures forall k :: 0 <= k < |reqs| ==> reqs[k].depth <= level
    decreases |reqs|
  {
    if reqs != [] {
      LevelOrderAll(reqs[..|reqs| - 1], reqs[|reqs| - 1].depth);
    }
  }

  lemma {:induction false} AllOkAll(list: Lister, reqs: seq<Request>)
    requires AllOk(list, reqs)
    ensures forall k :: 0 <= k < |reqs| ==> list(reqs[k].parentId, reqs[k].pageSize).Ok?
    decreases |reqs|
  {
    if reqs != [] {
      AllOkAll(list, reqs[..|reqs| - 1]);
    }
  }

  lemma {:induction false} SizesOkAll(list: Lister, limit: nat, all: bool, reqs: seq<Request>)
    requires SizesOk(list, limit, all, reqs)
    ensures forall k :: 0 <= k < |reqs| ==> reqs[k].pageSize == PageSize(limit, all, Collected(list, reqs, k))
    decreases |reqs|
  {
    if reqs != [] {
      var init := reqs[..|reqs| - 1];
      SizesOkAll(list, limit, all, init);
      forall k | 0 <= k < |reqs| ensures reqs[k].pageSize == PageSize(limit, all, Collected(list, reqs, k)) {
        if k < |init| {
          assert init[..k] == reqs[..k];
          assert Collected(list, init, k) == Collected(list, reqs, k);
        }
      }
    }
  }

  lemma {:induction false} AboveAll(reqs: seq<Request>, m: nat)
    requires Above(reqs, m)
    ensures forall k :: 0 <= k < |reqs| ==> reqs[k].depth < m
    decreases |reqs|
  {
    if reqs != [] {
      AboveAll(reqs[..|reqs| - 1], m);
    }
  }

  lemma RequestFacts(root: string, limit: nat, all: bool, maxDepth: Option<nat>, list: Lister,
                     q: seq<(string, nat)>, seen: set<string>, requests: seq<Request>, skipped: set<string>, level: nat)
    requires QueueInv(root, q, seen, requests, skipped, maxDepth.GetOr(0) == 0, level)
    requires ReqInv(list, limit, all, maxDepth, requests)
    ensures requests != [] ==> requests[0].parentId == root && requests[0].depth == 0
    ensures forall i, j :: 0 <= i < j < |requests| ==> requests[i].parentId != requests[j].parentId
    ensures forall i, j :: 0 <= i < j < |requests| ==> requests[i].depth <= requests[j].depth
    ensures forall k :: 0 <= k < |requests| ==> requests[k].pageSize == PageSize(limit, all, Collected(list, requests, k))
    ensures maxDepth.GetOr(0) != 0 ==> forall k :: 0 <= k < |requests| ==> requests[k].depth < maxDepth.value
  {
    DistinctReqsAll(requests);
    LevelOrderAll(requests, level);
    SizesOkAll(list, limit, all, requests);
    if maxDepth.GetOr(0) != 0 {
      AboveAll(requests, maxDepth.value);
    }
  }

  /** At the end of the walk: the queue is empty, or the cap was reached. */
  lemma WalkDone(root: string, limit: nat, all: bool, maxDepth: Option<nat>, list: Lister, u: set<string>,
                 out: seq<Json>, q: seq<(string, nat)>, seen: set<string>, requests: seq<Request>,
                 skipped: set<string>, level: nat)
    requires Walk(root, limit, all, maxDepth, list, u, out, q, seen, requests, skipped, level)
    requires q == [] || !all
    ensures forall k :: 0 <= k < |requests| ==> list(requests[k].parentId, requests[k].pageSize).Ok?
    ensures out <= Flatten(list, requests)
    ensures all ==> out == Flatten(list, requests)
    ensures !all ==> |out| <= limit && (|out| < limit ==> out == Flatten(list, requests))
    ensures all && maxDepth.GetOr(0) == 0 ==> OutIds(out) <= ReqIds(requests)
  {
    AllOkAll(list, requests);
  }

  /** A failed listing ends the walk: the failed request is the last one. */
  lemma ErrStep(root: string, limit: nat, all: bool, maxDepth: Option<nat>, list: Lister, u: set<string>,
                out: seq<Json>, q: seq<(string, nat)>, seen: set<string>, requests: seq<Request>,
                skipped: set<string>, level: nat, p: string, d: nat, size: nat)
    requires Walk(root, limit, all, maxDepth, list, u, out, q, seen, requests, skipped, level)
    requires q != [] && p == q[0].0 && d == q[0].1
    requires maxDepth.GetOr(0) == 0 || d < maxDepth.GetOr(0)
    requires size == PageSize(limit, all, |out|)
    ensures QueueInv(root, q[1..], seen, requests + [Request(p, d, size)], skipped, maxDepth.GetOr(0) == 0, d)
    ensures ReqInv(list, limit, all, maxDepth, requests + [Request(p, d, size)])
    ensures AllOk(list, (requests + [Request(p, d, size)])[..|requests|])
  {
    var req := Request(p, d, size);
    CutPageSize(out, Flatten(list, requests), limit, all);
    ReqExpand(list, limit, all, maxDepth, requests, req);
    assert QIds([]) == {};
    QueueExpand(root, q, seen, requests, skipped, maxDepth.GetOr(0) == 0, level, p, d, size, [], seen);
    assert q[1..] + [] == q[1..];
    assert (requests + [req])[..|requests|] == requests;
  }

  /** The state after one successful expansion satisfies the loop invariant again,
      and either the unseen part of the universe or the queue has shrunk. */
  lemma ExpandStep(root: string, limit: nat, all: bool, maxDepth: Option<nat>, list: Lister,
                   universe: set<string>, u: set<string>,
                   out: seq<Json>, q: seq<(string, nat)>, seen: set<string>, requests: seq<Request>,
                   skipped: set<string>, level: nat, p: string, d: nat, size: nat, cs: seq<Json>,
                   kept: seq<Json>, added: seq<(string, nat)>, seen': set<string>)
    requires u == universe + {root}
    requires Walk(root, limit, all, maxDepth, list, u, out, q, seen, requests, skipped, level)
    requires q != [] && p == q[0].0 && d == q[0].1
    requires (maxDepth.GetOr(0) == 0 || d < maxDepth.GetOr(0)) && (all || |out| < limit)
    requires size == PageSize(limit, all, |out|) && list(p, size) == Ok(cs)
    requires kept <= Kept(cs, p, d + 1)
    requires all ==> kept == Kept(cs, p, d + 1)
    requires !all ==> |kept| <= limit - |out| && (|kept| < limit - |out| ==> kept == Kept(cs, p, d + 1))
    requires QueueOk(added, d + 1, d + 1) && QIds(added) !! seen
    requires seen' == seen + QIds(added) && seen' - seen <= universe
    requires OutIds(kept) <= seen'
    ensures Walk(root, limit, all, maxDepth, list, u, out + kept, q[1..] + added, seen', requests + [Request(p, d, size)], skipped, d)
    ensures |u - seen'| < |u - seen| || (seen' == seen && |q[1..] + added| < |q|)
  {
    CutPageSize(out, Flatten(list, requests), limit, all);
    ReqExpand(list, limit, all, maxDepth, requests, Request(p, d, size));
    QueueExpand(root, q, seen, requests, skipped, maxDepth.GetOr(0) == 0, level, p, d, size, added, seen');
    OutExpand(list, limit, all, out, seen, requests, p, d, size, cs, kept, seen');
    ExpandMeasure(u, seen, seen', q, added);
  }

  /** The page size computed from the results held is the one computed from
      the results listed. */
  lemma CutPageSize(out: seq<Json>, full: seq<Json>, limit: nat, all: bool)
    requires Cut(out, full, limit, all)
    ensures PageSize(limit, all, |out|) == PageSize(limit, all, |full|)
  {
  }

  /** Queuing a new id takes it out of the unseen part of the universe;
      queuing nothing shortens the queue by its popped head. */
  lemma ExpandMeasure(u: set<string>, seen: set<string>, seen': set<string>, q: seq<(string, nat)>,
                      added: seq<(string, nat)>)
    requires q != [] && seen' == seen + QIds(added) && QIds(added) !! seen && seen' - seen <= u
    ensures |u - seen'| < |u - seen| || (seen' == seen && |q[1..] + added| < |q|)
  {
    if added != [] {
      assert added[0].0 in QIds(added);
      UnseenShrinks(u, seen, seen', added[0].0);
    }
  }

  /** What a walk that ended on a failed listing has done. */
  lemma ErrFacts(root: string, limit: nat, all: bool, maxDepth: Option<nat>, list: Lister,
                 q: seq<(string, nat)>, seen: set<string>, requests: seq<Request>, skipped: set<string>, level: nat,
                 error: string)
    requires requests != [] && list(requests[|requests| - 1].parentId, requests[|requests| - 1].pageSize) == Err(error)
    requires AllOk(list, requests[..|requests| - 1])
    requires QueueInv(root, q, seen, requests, skipped, maxDepth.GetOr(0) == 0, level)
    requires ReqInv(list, limit, all, maxDepth, requests)
    ensures forall k :: 0 <= k < |requests| - 1 ==> list(requests[k].parentId, requests[k].pageSize).Ok?
    ensures requests[0].parentId == root && requests[0].depth == 0
    ensures forall i, j :: 0 <= i < j < |requests| ==> requests[i].parentId != requests[j].parentId
    ensures forall i, j :: 0 <= i < j < |requests| ==> requests[i].depth <= requests[j].depth
    ensures forall k :: 0 <= k < |requests| ==> requests[k].pageSize == PageSize(limit, all, Collected(list, requests, k))
    ensures maxDepth.GetOr(0) != 0 ==> forall k :: 0 <= k < |requests| ==> requests[k].depth < maxDepth.value
  {
    var init := requests[..|requests| - 1];
    AllOkAll(list, init);
    forall k | 0 <= k < |requests| - 1 ensures list(requests[k].parentId, requests[k].pageSize).Ok? {
      assert init[k] == requests[k];
    }
    RequestFacts(root, limit, all, maxDepth, list, q, seen, requests, skipped, level);
  }

  /** What a walk that ended on an empty queue or at the cap has done. */
  lemma OkFacts(root: string, limit: nat, all: bool, maxDepth: Option<nat>, list: Lister, u: set<string>,
                out: seq<Json>, q: seq<(string, nat)>, seen: set<string>, requests: seq<Request>,
                skipped: set<string>, level: nat)
    requires Walk(root, limit, all, maxDepth, list, u, out, q, seen, requests, skipped, level)
    requires q == [] || !all
    ensures forall k :: 0 <= k < |requests| ==> list(requests[k].parentId, requests[k].pageSize).Ok?
    ensures out <= Flatten(list, requests)
    ensures all ==> out == Flatten(list, requests)
    ensures !all ==> |out| <= limit && (|out| < limit ==> out == Flatten(list, requests))
    ensures requests != [] ==> requests[0].parentId == root && requests[0].depth == 0
    ensures forall i, j :: 0 <= i < j < |requests| ==> requests[i].parentId != requests[j].parentId
    ensures forall i, j :: 0 <= i < j < |requests| ==> requests[i].depth <= requests[j].depth
    ensures forall k :: 0 <= k < |requests| ==> requests[k].pageSize == PageSize(limit, all, Collected(list, requests, k))
    ensures maxDepth.GetOr(0) != 0 ==> forall k :: 0 <= k < |requests| ==> requests[k].depth < maxDepth.value
    ensures all && maxDepth.GetOr(0) == 0 ==> OutIds(out) <= ReqIds(requests)
  {
    WalkDone(root, limit, all, maxDepth, list, u, out, q, seen, requests, skipped, level);
    RequestFacts(root, limit, all, maxDepth, list, q, seen, requests, skipped, level);
  }

  // ------------------------------------------------------------- discovery

  /** One of `reqs` found page `id` at depth `dep`: `id` is the id of a child
      that request listed, and `dep` is one level below the request's page. */
  predicate FoundBy(list: Lister, reqs: seq<Request>, id: string, dep: nat) {
    reqs != []
    && (FoundBy(list, reqs[..|reqs| - 1], id, dep)
        || (id in OutIds(Expansion(list, reqs[|reqs| - 1])) && dep == reqs[|reqs| - 1].depth + 1))
  }

  /** Every request after the first expands a page that an earlier request found. */
  predicate ReqsFound(list: Lister, reqs: seq<Request>) {
    forall k :: 0 < k < |reqs| ==> ReqFoundAt(list, reqs, k)
  }

  /** Request `k` expands a page that one of the requests before it found. */
  predicate ReqFoundAt(list: Lister, reqs: seq<Request>, k: nat)
    requires k < |reqs|
  {
    FoundBy(list, reqs[..k], reqs[k].parentId, reqs[k].depth)
  }

  /** Every queued page is the root before any request, or was found by a request. */
  predicate QueueFound(list: Lister, root: string, reqs: seq<Request>, q: seq<(string, nat)>) {
    (reqs == [] ==> q == [(root, 0)])
    && forall i :: 0 <= i < |q| ==> reqs == [] || FoundBy(list, reqs, QAt(q, i).0, QAt(q, i).1)
  }

  /** Queue entry `i`, named so that facts about every entry are used only
      where a proof names an entry. */
  function QAt(q: seq<(string, nat)>, i: nat): (string, nat)
    requires i < |q|
  {
    q[i]
  }

  lemma FoundBySnoc(list: Lister, reqs: seq<Request>, r: Request, id: string, dep: nat)
    requires FoundBy(list, reqs, id, dep) || (id in OutIds(Expansion(list, r)) && dep == r.depth + 1)
    ensures FoundBy(list, reqs + [r], id, dep)
  {
    assert (reqs + [r])[..|reqs|] == reqs;
  }

  /** The request that found `id`. */
  lemma {:induction false} FoundByWitness(list: Lister, reqs: seq<Request>, id: string, dep: nat) returns (j: nat)
    requires FoundBy(list, reqs, id, dep)
    ensures j < |reqs| && id in OutIds(Expansion(list, reqs[j])) && dep == reqs[j].depth + 1
    decreases |reqs|
  {
    var init := reqs[..|reqs| - 1];
    if FoundBy(list, init, id, dep) {
      j := FoundByWitness(list, init, id, dep);
      assert init[j] == reqs[j];
    } else {
      j := |reqs| - 1;
    }
  }

  /** Request `r` expands a page that request `earlier` listed, one level below it. */
  predicate ExpandsFound(list: Lister, r: Request, earlier: Request) {
    r.parentId in OutIds(Expansion(list, earlier)) && r.depth == earlier.depth + 1
  }

  /** Request `k` expands a page that some request before it listed. */
  predicate ExpandsEarlier(list: Lister, reqs: seq<Request>, k: nat)
    requires k < |reqs|
  {
    exists j :: 0 <= j < k && ExpandsFound(list, reqs[k], reqs[j])
  }

  /** The earlier request whose listing request `k > 0` expands. */
  lemma ReqsFoundAt(list: Lister, reqs: seq<Request>, k: nat) returns (j: nat)
    requires ReqsFound(list, reqs) && 0 < k < |reqs|
    ensures j < k && ExpandsFound(list, reqs[k], reqs[j])
  {
    assert ReqFoundAt(list, reqs, k);
    j := FoundByWitness(list, reqs[..k], reqs[k].parentId, reqs[k].depth);
    assert reqs[..k][j] == reqs[j];
  }

  /** `ReqsFound` written out: request `k > 0` expands a page found by an
      earlier request `j`, one level below it. */
  lemma ReqsFoundAll(list: Lister, reqs: seq<Request>)
    requires ReqsFound(list, reqs)
    ensures forall k :: 0 < k < |reqs| ==> ExpandsEarlier(list, reqs, k)
  {
    forall k | 0 < k < |reqs| ensures ExpandsEarlier(list, reqs, k) {
      var j := ReqsFoundAt(list, reqs, k);
    }
  }

  lemma DiscoverSkip(list: Lister, root: string, reqs: seq<Request>, q: seq<(string, nat)>)
    requires QueueFound(list, root, reqs, q) && q != [] && q[0].1 > 0
    ensures QueueFound(list, root, reqs, q[1..])
  {
    forall i | 0 <= i < |q| - 1
      ensures reqs == [] || FoundBy(list, reqs, QAt(q[1..], i).0, QAt(q[1..], i).1)
    {
      assert QAt(q[1..], i) == QAt(q, i + 1);
    }
  }

  lemma {:induction false} QIdsMember(q: seq<(string, nat)>, i: nat)
    requires i < |q|
    ensures q[i].0 in QIds(q)
    decreases i
  {
    if i > 0 {
      QIdsMember(q[1..], i - 1);
    }
  }

  lemma {:induction false} QueueOkDepths(q: seq<(string, nat)>, lo: nat, hi: nat, i: nat)
    requires QueueOk(q, lo, hi) && i < |q|
    ensures lo <= q[i].1 <= hi
    decreases i
  {
    if i > 0 {
      QueueOkDepths(q[1..], q[0].1, hi, i - 1);
    }
  }

  lemma OutIdsPrefix(a: seq<Json>, b: seq<Json>)
    requires a <= b
    ensures OutIds(a) <= OutIds(b)
  {
    assert b == a + b[|a|..];
    OutIdsAppend(a, b[|a|..]);
  }

  /** The ids one expansion queued were found by its request, one level below. */
  lemma AddedFound(list: Lister, p: string, d: nat, size: nat, cs: seq<Json>, kept: seq<Json>,
                    added: seq<(string, nat)>, i: nat)
    requires list(p, size) == Ok(cs)
    requires kept <= Kept(cs, p, d + 1) && QIds(added) <= OutIds(kept)
    requires QueueOk(added, d + 1, d + 1) && i < |added|
    ensures added[i].0 in OutIds(Expansion(list, Request(p, d, size))) && added[i].1 == d + 1
  {
    var k := Kept(cs, p, d + 1);
    assert Expansion(list, Request(p, d, size)) == k;
    QIdsMember(added, i);
    QueueOkDepths(added, d + 1, d + 1, i);
    OutIdsPrefix(kept, k);
  }

  /** Expanding the queue head: the new request expands a found page (or the
      root), and the queue stays made of found pages. */
  lemma DiscoverExpand(list: Lister, root: string, reqs: seq<Request>, q: seq<(string, nat)>, r: Request,
                       added: seq<(string, nat)>)
    requires QueueFound(list, root, reqs, q) && ReqsFound(list, reqs) && q != []
    requires r.parentId == q[0].0 && r.depth == q[0].1
    requires forall j :: 0 <= j < |added| ==> FoundBy(list, reqs + [r], QAt(added, j).0, QAt(added, j).1)
    ensures ReqsFound(list, reqs + [r])
    ensures QueueFound(list, root, reqs + [r], q[1..] + added)
  {
    DiscoverRequest(list, root, reqs, q, r);
    forall i | 0 <= i < |q| - 1 + |added|
      ensures FoundBy(list, reqs + [r], QAt(q[1..] + added, i).0, QAt(q[1..] + added, i).1)
    {
      if i < |q| - 1 {
        assert QAt(q[1..] + added, i) == QAt(q, i + 1);
        DiscoverQueued(list, root, reqs, q, r, i + 1);
      } else {
        assert QAt(q[1..] + added, i) == QAt(added, i - (|q| - 1));
      }
    }
  }

  /** Every page queued from the children of `p` is found by the request for `p`. */
  lemma AddedAllFound(list: Lister, reqs: seq<Request>, p: string, d: nat, size: nat, cs: seq<Json>,
                      kept: seq<Json>, added: seq<(string, nat)>)
    requires list(p, size) == Ok(cs)
    requires kept <= Kept(cs, p, d + 1) && QIds(added) <= OutIds(kept)
    requires QueueOk(added, d + 1, d + 1)
    ensures forall j :: 0 <= j < |added| ==> FoundBy(list, reqs + [Request(p, d, size)], QAt(added, j).0, QAt(added, j).1)
  {
    forall j | 0 <= j < |added|
      ensures FoundBy(list, reqs + [Request(p, d, size)], QAt(added, j).0, QAt(added, j).1)
    {
      DiscoverAdded(list, reqs, p, d, size, cs, kept, added, j);
    }
  }

  /** A page still queued stays found after one more request. */
  lemma DiscoverQueued(list: Lister, root: string, reqs: seq<Request>, q: seq<(string, nat)>, r: Request, i: nat)
    requires QueueFound(list, root, reqs, q) && 0 < i < |q|
    ensures FoundBy(list, reqs + [r], QAt(q, i).0, QAt(q, i).1)
  {
    FoundBySnoc(list, reqs, r, QAt(q, i).0, QAt(q, i).1);
  }

  /** A page queued from the children of `p` is found by the request for `p`. */
  lemma DiscoverAdded(list: Lister, reqs: seq<Request>, p: string, d: nat, size: nat, cs: seq<Json>,
                      kept: seq<Json>, added: seq<(string, nat)>, j: nat)
    requires list(p, size) == Ok(cs)
    requires kept <= Kept(cs, p, d + 1) && QIds(added) <= OutIds(kept)
    requires QueueOk(added, d + 1, d + 1) && j < |added|
    ensures FoundBy(list, reqs + [Request(p, d, size)], added[j].0, added[j].1)
  {
    AddedFound(list, p, d, size, cs, kept, added, j);
    FoundBySnoc(list, reqs, Request(p, d, size), added[j].0, added[j].1);
  }

  /** A request for the queue head keeps every request expanding a found page. */
  lemma DiscoverRequest(list: Lister, root: string, reqs: seq<Request>, q: seq<(string, nat)>, req: Request)
    requires QueueFound(list, root, reqs, q) && ReqsFound(list, reqs) && q != []
    requires req.parentId == q[0].0 && req.depth == q[0].1
    ensures ReqsFound(list, reqs + [req])
  {
    forall k | 0 < k < |reqs| + 1 ensures ReqFoundAt(list, reqs + [req], k) {
      if k < |reqs| {
        assert ReqFoundAt(list, reqs, k);
        assert (reqs + [req])[..k] == reqs[..k];
      } else {
        assert QAt(q, 0) == q[0];
        assert (reqs + [req])[..k] == reqs;
      }
    }
  }

  /** The body of the queue loop for a head that is expanded: list its
      children and keep, tag and queue them. `err` is the listing's error. */
  method ExpandHead(root: string, limit: nat, all: bool, maxDepth: Option<nat>, list: Lister,
                    ghost universe: set<string>, ghost u: set<string>, parent: string, depth: nat,
                    out: seq<Json>, rest: seq<(string, nat)>, seen: set<string>, ghost q: seq<(string, nat)>,
                    ghost requests: seq<Request>, ghost skipped: set<string>, ghost level: nat)
    returns (err: Option<string>, out': seq<Json>, q': seq<(string, nat)>, seen': set<string>, size: nat)
    requires Finite(list, universe) && u == universe + {root}
    requires Walk(root, limit, all, maxDepth, list, u, out, q, seen, requests, skipped, level)
    requires q != [] && parent == q[0].0 && depth == q[0].1 && rest == q[1..]
    requires (maxDepth.GetOr(0) == 0 || depth < maxDepth.GetOr(0)) && (all || |out| < limit)
    requires QueueFound(list, root, requests, q) && ReqsFound(list, requests)
    ensures size == PageSize(limit, all, |out|)
    ensures err.None? ==> list(parent, size).Ok?
    ensures err.None? ==> Walk(root, limit, all, maxDepth, list, u, out', q', seen', requests + [Request(parent, depth, size)], skipped, depth)
    ensures err.None? ==> |u - seen'| < |u - seen| || (seen' == seen && |q'| < |q|)
    ensures err.Some? ==> list(parent, size) == Err(err.value) && q' == rest && seen' == seen
    ensures err.Some? ==> QueueInv(root, rest, seen, requests + [Request(parent, depth, size)], skipped, maxDepth.GetOr(0) == 0, depth)
    ensures err.Some? ==> ReqInv(list, limit, all, maxDepth, requests + [Request(parent, depth, size)])
    ensures err.Some? ==> AllOk(list, (requests + [Request(parent, depth, size)])[..|requests|])
    ensures ReqsFound(list, requests + [Request(parent, depth, size)])
    ensures err.None? ==> QueueFound(list, root, requests + [Request(parent, depth, size)], q')
  {
    size := PageSize(limit, all, |out|);
    var listed := list(parent, size);
    if listed.Err? {
      ErrStep(root, limit, all, maxDepth, list, u, out, q, seen, requests, skipped, level, parent, depth, size);
      DiscoverRequest(list, root, requests, q, Request(parent, depth, size));
      return Some(listed.error), out, rest, seen, size;
    }
    var cs := listed.value;
    ghost var kept, added;
    assert Listed(cs, universe);
    out', q', seen', kept, added := ExpandChildren(cs, parent, depth + 1, limit, all, out, rest, seen, universe);
    AddedAllFound(list, requests, parent, depth, size, cs, kept, added);
    DiscoverExpand(list, root, requests, q, Request(parent, depth, size), added);
    ExpandStep(root, limit, all, maxDepth, list, universe, u, out, q, seen, requests, skipped, level,
               parent, depth, size, cs, kept, added, seen');
    err := None;
  }


  /** Before the loop: only the root is queued and seen. */
  lemma WalkStart(root: string, limit: nat, all: bool, maxDepth: Option<nat>, list: Lister, u: set<string>)
    requires root in u
    ensures Walk(root, limit, all, maxDepth, list, u, [], [(root, 0)], {root}, [], {}, 0)
  {
    QueueStart(root, maxDepth.GetOr(0) == 0);
  }

  /** One turn of the queue loop: pop the head and skip it, stop at the cap,
      or list and expand it. `done` says the loop ends here. */
  method WalkTurn(root: string, limit: nat, all: bool, maxDepth: Option<nat>, list: Lister,
                  ghost universe: set<string>, ghost u: set<string>, out: seq<Json>, q: seq<(string, nat)>,
                  seen: set<string>, requests: seq<Request>, ghost skipped: set<string>, ghost level: nat)
    returns (done: bool, err: Option<string>, out': seq<Json>, q': seq<(string, nat)>, seen': set<string>,
             requests': seq<Request>, ghost skipped': set<string>, ghost level': nat)
    requires Finite(list, universe) && u == universe + {root}
    requires Walk(root, limit, all, maxDepth, list, u, out, q, seen, requests, skipped, level)
    requires q != []
    requires QueueFound(list, root, requests, q) && ReqsFound(list, requests)
    ensures err.None? ==> Walk(root, limit, all, maxDepth, list, u, out', q', seen', requests', skipped', level')
    ensures ReqsFound(list, requests') && (err.None? ==> QueueFound(list, root, requests', q'))
    ensures !done ==> err.None? && (|u - seen'| < |u - seen| || (seen' == seen && |q'| < |q|))
    ensures done && err.None? ==> !all
    ensures err.Some? ==> done && Failed(root, limit, all, maxDepth, list, q', seen', requests', skipped', level', err.value)
  {
    var parent, depth := q[0].0, q[0].1;
    var rest := q[1..];
    if maxDepth.GetOr(0) != 0 && depth >= maxDepth.GetOr(0) {
      QueueSkip(root, q, seen, requests, skipped, level);
      DiscoverSkip(list, root, requests, q);
      return false, None, out, rest, seen, requests, skipped + {parent}, depth;
    }
    if !all && |out| >= limit {
      return true, None, out, q, seen, requests, skipped, level;
    }
    var size;
    err, out', q', seen', size := ExpandHead(root, limit, all, maxDepth, list, universe, u, parent, depth,
                                             out, rest, seen, q, requests, skipped, level);
    requests' := requests + [Request(parent, depth, size)];
    done, skipped', level' := err.Some?, skipped, depth;
  }

  /** The queue loop of `fetch_descendants_via_direct_children`. It ends with
      `err` set when a listing failed, and otherwise with the queue empty or the
      cap reached; `rest`, `seen`, `skipped` and `level` describe the state it
      ended in (`rest` is the queue before the head that met the cap was popped). */
  method WalkQueue(root: string, limit: nat, all: bool, maxDepth: Option<nat>, list: Lister, ghost universe: set<string>)
    returns (err: Option<string>, out: seq<Json>, requests: seq<Request>, ghost rest: seq<(string, nat)>,
             ghost seen: set<string>, ghost skipped: set<string>, ghost level: nat)
    requires Finite(list, universe)
    ensures err.None? ==> Walk(root, limit, all, maxDepth, list, universe + {root}, out, rest, seen, requests, skipped, level)
    ensures err.None? ==> rest == [] || !all
    ensures err.Some? ==> Failed(root, limit, all, maxDepth, list, rest, seen, requests, skipped, level, err.value)
    ensures ReqsFound(list, requests)
  {
    out := [];
    var q: seq<(string, nat)> := [(root, 0)];
    var seenSet: set<string> := {root};
    requests := [];
    skipped, level := {}, 0;
    ghost var u := universe + {root};
    WalkStart(root, limit, all, maxDepth, list, u);
    err := None;
    while q != []
      invariant err.None? && Walk(root, limit, all, maxDepth, list, u, out, q, seenSet, requests, skipped, level)
      invariant QueueFound(list, root, requests, q) && ReqsFound(list, requests)
      decreases |u - seenSet|, |q|
    {
      var done;
      done, err, out, q, seenSet, requests, skipped, level :=
        WalkTurn(root, limit, all, maxDepth, list, universe, u, out, q, seenSet, requests, skipped, level);
      if done {
        rest, seen := q, seenSet;
        return;
      }
    }
    rest, seen := q, seenSet;
  }

  /** `fetch_descendants_via_direct_children`. `requests` lists the listing calls
      in the order they were made; on `Err` the last one is the call that failed. */
  method FetchDescendants(root: string, limit: nat, all: bool, maxDepth: Option<nat>,
                          list: Lister, ghost universe: set<string>)
    returns (r: Result<seq<Json>>, requests: seq<Request>)
    requires Finite(list, universe)
    ensures r.Err? ==> requests != [] && list(requests[|requests| - 1].parentId, requests[|requests| - 1].pageSize) == Err(r.error)
    ensures forall k :: 0 <= k < |requests| - 1 ==> list(requests[k].parentId, requests[k].pageSize).Ok?
    ensures r.Ok? ==> forall k :: 0 <= k < |requests| ==> list(requests[k].parentId, requests[k].pageSize).Ok?
    // the output: the requests' expansions in order, cut at `limit` when not fetching everything
    ensures r.Ok? ==> r.value <= Flatten(list, requests)
    ensures r.Ok? && all ==> r.value == Flatten(list, requests)
    ensures r.Ok? && !all ==> |r.value| <= limit && (|r.value| < limit ==> r.value == Flatten(list, requests))
    // the root is expanded first, at depth 0, and every page at most once
    ensures requests != [] ==> requests[0].parentId == root && requests[0].depth == 0
    ensures forall i, j :: 0 <= i < j < |requests| ==> requests[i].parentId != requests[j].parentId
    // breadth-first: pages are expanded level by level
    ensures forall i, j :: 0 <= i < j < |requests| ==> requests[i].depth <= requests[j].depth
    // every request after the first expands a page an earlier request listed, one level below it
    ensures forall k :: 0 < k < |requests| ==> ExpandsEarlier(list, requests, k)
    ensures forall k :: 0 <= k < |requests| ==> requests[k].pageSize == PageSize(limit, all, Collected(list, requests, k))
    // a depth bound stops expansion at that depth
    ensures maxDepth.GetOr(0) != 0 ==> forall k :: 0 <= k < |requests| ==> requests[k].depth < maxDepth.value
    // without a cap or a depth bound, every page found is expanded
    ensures r.Ok? && all && maxDepth.GetOr(0) == 0 ==> OutIds(r.value) <= ReqIds(requests)
  {
    var err, out;
    ghost var rest, seen, skipped, level;
    err, out, requests, rest, seen, skipped, level := WalkQueue(root, limit, all, maxDepth, list, universe);
    ReqsFoundAll(list, requests);
    if err.Some? {
      ErrFacts(root, limit, all, maxDepth, list, rest, seen, requests, skipped, level, err.value);
      return Err(err.value), requests;
    }
    OkFacts(root, limit, all, maxDepth, list, universe + {root}, out, rest, seen, requests, skipped, level);
    r := Ok(out);
  }
}
