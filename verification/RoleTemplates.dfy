/** Gathering the rules of a role template and of all templates it references:
    a depth-first walk with a shared map of names seen, over a graph that may
    have cycles and dangling references. */
module RoleTemplates {
  import opened Options
  import opened Text

  datatype PolicyRule = PolicyRule(
    verbs: seq<string>,
    apiGroups: seq<string>,
    resources: seq<string>,
    resourceNames: seq<string>)

  datatype Context = ClusterContext | ProjectContext | NoContext

  datatype RoleTemplate = RoleTemplate(
    name: string,
    rules: seq<PolicyRule>,
    references: seq<string>,
    external: bool,
    context: Context)

  /** The template asked about and the two caches it is resolved against. The
      template itself is handed in, so a cached one of the same name is never looked at. */
  datatype Graph = Graph(
    root: RoleTemplate,
    templates: map<string, RoleTemplate>,
    clusterRoles: map<string, seq<PolicyRule>>)

  /** A cache finds a template under its own name. */
  predicate Keyed(g: Graph) {
    forall n :: n in g.templates ==> g.templates[n].name == n
  }

  function Find(g: Graph, name: string): Option<RoleTemplate> {
    if name == g.root.name then Some(g.root)
    else if name in g.templates then Some(g.templates[name])
    else None
  }

  predicate UsesClusterRole(rt: RoleTemplate) {
    rt.external && rt.context.ClusterContext?
  }

  /** Looking up this name, or the cluster role behind it, fails. */
  predicate Fails(g: Graph, name: string) {
    Find(g, name).None? || (UsesClusterRole(Find(g, name).value) && name !in g.clusterRoles)
  }

  /** The rules a template contributes by itself. */
  function OwnRules(g: Graph, name: string): seq<PolicyRule>
    requires !Fails(g, name)
  {
    var rt := Find(g, name).value;
    (if UsesClusterRole(rt) then g.clusterRoles[name] else []) + rt.rules
  }

  predicate Edge(g: Graph, from: string, to: string) {
    Find(g, from).Some? && to in Find(g, from).value.references
  }

  predicate IsPath(g: Graph, p: seq<string>) {
    && p != [] && p[0] == g.root.name
    && forall i :: 0 < i < |p| ==> Edge(g, p[i - 1], p[i])
  }

  ghost predicate Reachable(g: Graph, name: string) {
    exists p :: IsPath(g, p) && p[|p| - 1] == name
  }

  ghost predicate SomethingFails(g: Graph) {
    exists n :: Reachable(g, n) && Fails(g, n)
  }

  /** The reachable templates that exist. */
  ghost function Reached(g: Graph): set<string> {
    set n | n in g.templates.Keys + {g.root.name} && Reachable(g, n)
  }

  lemma RootReachable(g: Graph)
    ensures Reachable(g, g.root.name)
  {
    assert IsPath(g, [g.root.name]);
  }

  lemma EdgeReaches(g: Graph, from: string, to: string)
    requires Reachable(g, from) && Edge(g, from, to)
    ensures Reachable(g, to)
  {
    var p :| IsPath(g, p) && p[|p| - 1] == from;
    assert IsPath(g, p + [to]);
  }

  /** A set that holds the root and is closed under references holds all that is reachable. */
  lemma {:induction false} ClosedHoldsPath(g: Graph, names: set<string>, p: seq<string>)
    requires g.root.name in names
    requires forall n, m :: n in names && Edge(g, n, m) ==> m in names
    requires IsPath(g, p)
    ensures p[|p| - 1] in names
    decreases |p|
  {
    if |p| > 1 {
      var q := p[..|p| - 1];
      assert IsPath(g, q);
      ClosedHoldsPath(g, names, q);
      assert Edge(g, p[|p| - 2], p[|p| - 1]);
    }
  }

  lemma DistinctJoins(a: seq<string>, b: seq<string>)
    requires Distinct(a) && Distinct(b) && Elements(a) !! Elements(b)
    ensures Distinct(a + b) && Elements(a + b) == Elements(a) + Elements(b)
  {
    forall i, j | 0 <= i < j < |a + b| ensures (a + b)[i] != (a + b)[j] {
      if i < |a| <= j {
        assert a[i] in Elements(a) && b[j - |a|] in Elements(b);
      }
    }
  }

  predicate AllFound(g: Graph, names: seq<string>) {
    forall n :: n in names ==> !Fails(g, n)
  }

  /** The own rules of the templates of `order`, one after another. */
  function Concatenated(g: Graph, order: seq<string>): seq<PolicyRule>
    requires AllFound(g, order)
  {
    if order == [] then []
    else Concatenated(g, order[..|order| - 1]) + OwnRules(g, order[|order| - 1])
  }

  lemma {:induction false} ConcatenatedSplits(g: Graph, a: seq<string>, b: seq<string>)
    requires AllFound(g, a) && AllFound(g, b)
    ensures AllFound(g, a + b)
    ensures Concatenated(g, a + b) == Concatenated(g, a) + Concatenated(g, b)
    decreases |b|
  {
    if b == [] {
      assert a + b == a;
    } else {
      assert (a + b)[..|a + b| - 1] == a + b[..|b| - 1];
      ConcatenatedSplits(g, a, b[..|b| - 1]);
    }
  }

  /** The sum of the own rules over a set of templates, as a multiset. */
  ghost function RuleSum(g: Graph, names: set<string>): multiset<PolicyRule>
    requires forall n :: n in names ==> !Fails(g, n)
  {
    if names == {} then multiset{}
    else
      var n :| n in names;
      multiset(OwnRules(g, n)) + RuleSum(g, names - {n})
  }

  lemma {:induction false} RuleSumPick(g: Graph, names: set<string>, m: string)
    requires forall n :: n in names ==> !Fails(g, n)
    requires m in names
    ensures RuleSum(g, names) == multiset(OwnRules(g, m)) + RuleSum(g, names - {m})
    decreases |names|
  {
    var n :| n in names && RuleSum(g, names) == multiset(OwnRules(g, n)) + RuleSum(g, names - {n});
    if n != m {
      RuleSumPick(g, names - {n}, m);
      RuleSumPick(g, names - {m}, n);
      assert names - {n} - {m} == names - {m} - {n};
    }
  }

  lemma ElementsButLast(order: seq<string>)
    requires Distinct(order) && order != []
    ensures Distinct(order[..|order| - 1])
    ensures order[|order| - 1] in Elements(order)
    ensures Elements(order) - {order[|order| - 1]} == Elements(order[..|order| - 1])
  {
    var rest, last := order[..|order| - 1], order[|order| - 1];
    assert order == rest + [last];
    assert last !in rest;
  }

  /** Whatever the order of the visit, the rules are the sum over the templates visited. */
  lemma {:induction false} ConcatenatedIsSum(g: Graph, order: seq<string>)
    requires AllFound(g, order) && Distinct(order)
    ensures multiset(Concatenated(g, order)) == RuleSum(g, Elements(order))
    decreases |order|
  {
    if order != [] {
      ElementsButLast(order);
      RuleSumPick(g, Elements(order), order[|order| - 1]);
      ConcatenatedIsSum(g, order[..|order| - 1]);
    }
  }

  /** A name the walk is done with: reachable, found, and all it references seen. */
  ghost predicate Settled(g: Graph, name: string, seen: set<string>) {
    && Reachable(g, name) && !Fails(g, name)
    && forall m :: Edge(g, name, m) ==> m in seen
  }

  /** From `start` to `seen` the walk visited the templates of `order`, each once, and
      is done with all of them but `open`. */
  ghost predicate Trail(g: Graph, start: set<string>, seen: set<string>, order: seq<string>, open: set<string>) {
    && start <= seen
    && Distinct(order) && Elements(order) == seen - start && AllFound(g, order)
    && forall n :: n in seen - start - open ==> Settled(g, n, seen)
  }

  lemma TrailStarts(g: Graph, start: set<string>, name: string)
    requires name !in start && !Fails(g, name)
    ensures Trail(g, start, start + {name}, [name], {name})
    ensures Concatenated(g, [name]) == OwnRules(g, name)
  {
  }

  lemma TrailJoins(g: Graph, start: set<string>, mid: set<string>, seen: set<string>,
                   a: seq<string>, b: seq<string>, open: set<string>)
    requires Trail(g, start, mid, a, open) && Trail(g, mid, seen, b, {})
    ensures Trail(g, start, seen, a + b, open)
    ensures Concatenated(g, a + b) == Concatenated(g, a) + Concatenated(g, b)
  {
    ConcatenatedSplits(g, a, b);
    DistinctJoins(a, b);
    forall n | n in seen - start - open ensures Settled(g, n, seen) {
      if n in mid {
        assert Settled(g, n, mid);
      }
    }
  }

  predicate AllSeen(references: seq<string>, seen: set<string>) {
    forall i :: 0 <= i < |references| ==> references[i] in seen
  }

  function References(g: Graph, name: string): seq<string> {
    if Find(g, name).Some? then Find(g, name).value.references else []
  }

  predicate Exhausted(g: Graph, name: string, seen: set<string>) {
    AllSeen(References(g, name), seen)
  }

  /** `to` is the first reference of `from` that is not seen. */
  ghost predicate FirstUnseen(g: Graph, from: string, to: string, seen: set<string>) {
    to !in seen &&
    exists k :: 0 <= k < |References(g, from)| && References(g, from)[k] == to && AllSeen(References(g, from)[..k], seen)
  }

  /** The `i`-th template visited is the first one not yet seen that the `j`-th references, and
      those visited in between reference nothing unseen. */
  ghost predicate ComesFrom(g: Graph, start: set<string>, order: seq<string>, i: nat, j: nat)
    requires j < i < |order|
  {
    var seen := start + Elements(order[..i]);
    FirstUnseen(g, order[j], order[i], seen) && forall l :: j < l < i ==> Exhausted(g, order[l], seen)
  }

  ghost predicate Follows(g: Graph, start: set<string>, order: seq<string>, i: nat)
    requires i < |order|
  {
    exists j: nat :: j < i && ComesFrom(g, start, order, i, j)
  }

  /** Depth first: from the template visited last that still references something unseen, the
      walk goes on to the first such reference. */
  ghost predicate DepthFirst(g: Graph, start: set<string>, order: seq<string>) {
    forall i: nat :: 0 < i < |order| ==> Follows(g, start, order, i)
  }

  lemma ElementsJoin(a: seq<string>, b: seq<string>)
    ensures Elements(a + b) == Elements(a) + Elements(b)
  {
  }

  lemma ComesFromWithin(g: Graph, start: set<string>, a: seq<string>, b: seq<string>, i: nat, j: nat)
    requires j < i < |b| && ComesFrom(g, start + Elements(a), b, i, j)
    ensures ComesFrom(g, start, a + b, |a| + i, |a| + j)
  {
    assert (a + b)[..|a| + i] == a + b[..i];
    ElementsJoin(a, b[..i]);
    assert start + Elements(a) + Elements(b[..i]) == start + Elements((a + b)[..|a| + i]);
    forall l | |a| + j < l < |a| + i ensures Exhausted(g, (a + b)[l], start + Elements((a + b)[..|a| + i])) {
      assert (a + b)[l] == b[l - |a|];
    }
  }

  lemma ComesFromBefore(g: Graph, start: set<string>, a: seq<string>, b: seq<string>, i: nat, j: nat)
    requires j < i < |a| && ComesFrom(g, start, a, i, j)
    ensures ComesFrom(g, start, a + b, i, j)
  {
    assert (a + b)[..i] == a[..i];
  }

  /** One more reference of the first template of `a`, once all after it are done with. */
  lemma DepthFirstJoins(g: Graph, start: set<string>, a: seq<string>, b: seq<string>)
    requires a != [] && b != []
    requires DepthFirst(g, start, a) && DepthFirst(g, start + Elements(a), b)
    requires FirstUnseen(g, a[0], b[0], start + Elements(a))
    requires forall l :: 0 < l < |a| ==> Exhausted(g, a[l], start + Elements(a))
    ensures DepthFirst(g, start, a + b)
  {
    forall i: nat | 0 < i < |a + b| ensures Follows(g, start, a + b, i) {
      if i < |a| {
        assert Follows(g, start, a, i);
        var j: nat :| j < i && ComesFrom(g, start, a, i, j);
        ComesFromBefore(g, start, a, b, i, j);
      } else if i == |a| {
        assert (a + b)[..i] == a;
        assert ComesFrom(g, start, a + b, i, 0);
      } else {
        assert Follows(g, start + Elements(a), b, i - |a|);
        var j: nat :| j < i - |a| && ComesFrom(g, start + Elements(a), b, i - |a|, j);
        ComesFromWithin(g, start, a, b, i - |a|, j);
      }
    }
  }

  /** The templates visited since `mid` come after the first unseen reference of `rt`. */
  lemma NextReference(g: Graph, rt: RoleTemplate, start: set<string>, mid: set<string>, order: seq<string>,
                      inner: seq<string>, i: nat)
    requires Find(g, rt.name) == Some(rt) && rt.name in start && i < |rt.references|
    requires Trail(g, start, mid, order, {}) && AllSeen(rt.references[..i], mid)
    requires DepthFirst(g, start - {rt.name}, [rt.name] + order)
    requires if rt.references[i] in mid then inner == []
             else inner != [] && inner[0] == rt.references[i] && DepthFirst(g, mid, inner)
    ensures DepthFirst(g, start - {rt.name}, [rt.name] + (order + inner))
  {
    var a := [rt.name] + order;
    assert a + inner == [rt.name] + (order + inner);
    if inner == [] {
      assert a + inner == a;
    } else {
      ElementsJoin([rt.name], order);
      assert start - {rt.name} + Elements(a) == mid;
      forall l | 0 < l < |a| ensures Exhausted(g, a[l], mid) {
        assert a[l] == order[l - 1] && a[l] in Elements(order);
        assert Settled(g, a[l], mid);
        assert forall k :: 0 <= k < |References(g, a[l])| ==> Edge(g, a[l], References(g, a[l])[k]);
      }
      assert References(g, rt.name)[i] == inner[0];
      DepthFirstJoins(g, start - {rt.name}, a, inner);
    }
  }

  /** Where the walk over the references of `rt` stands before the `i`-th of them. */
  ghost predicate Following(g: Graph, rt: RoleTemplate, start: set<string>, seen: set<string>, order: seq<string>, i: nat,
                            rules: seq<PolicyRule>, gathered: seq<PolicyRule>)
    requires i <= |rt.references|
  {
    && Trail(g, start, seen, order, {}) && AllSeen(rt.references[..i], seen) && gathered == rules + Concatenated(g, order)
    && DepthFirst(g, start - {rt.name}, [rt.name] + order)
  }

  /** What one reference `r` adds. */
  ghost predicate Added(g: Graph, r: string, mid: set<string>, seen: set<string>, inner: seq<string>,
                        rules: seq<PolicyRule>, gathered: seq<PolicyRule>)
  {
    && r in seen && Trail(g, mid, seen, inner, {}) && gathered == rules + Concatenated(g, inner)
    && if r in mid then inner == [] else inner != [] && inner[0] == r && DepthFirst(g, mid, inner)
  }

  lemma OneMoreSeen(references: seq<string>, i: nat, mid: set<string>, seen: set<string>)
    requires i < |references| && AllSeen(references[..i], mid) && mid <= seen && references[i] in seen
    ensures AllSeen(references[..i + 1], seen)
  {
    assert references[..i + 1] == references[..i] + [references[i]];
  }

  lemma FollowsOneMore(g: Graph, rt: RoleTemplate, start: set<string>, mid: set<string>, seen: set<string>,
                       order: seq<string>, inner: seq<string>, i: nat,
                       rules: seq<PolicyRule>, gathered: seq<PolicyRule>, next: seq<PolicyRule>)
    requires Find(g, rt.name) == Some(rt) && rt.name in start && i < |rt.references|
    requires Following(g, rt, start, mid, order, i, rules, gathered)
    requires Added(g, rt.references[i], mid, seen, inner, gathered, next)
    ensures Following(g, rt, start, seen, order + inner, i + 1, rules, next)
  {
    NextReference(g, rt, start, mid, order, inner, i);
    TrailJoins(g, start, mid, seen, order, inner, {});
    OneMoreSeen(rt.references, i, mid, seen);
  }

  lemma FirstUnseenIsOne(g: Graph, from: string, to: string, to': string, seen: set<string>)
    requires FirstUnseen(g, from, to, seen) && FirstUnseen(g, from, to', seen)
    ensures to == to'
  {
    var refs := References(g, from);
    var k :| 0 <= k < |refs| && refs[k] == to && AllSeen(refs[..k], seen);
    var k' :| 0 <= k' < |refs| && refs[k'] == to' && AllSeen(refs[..k'], seen);
  }

  lemma FirstUnseenIsLeft(g: Graph, from: string, to: string, seen: set<string>)
    requires FirstUnseen(g, from, to, seen)
    ensures !Exhausted(g, from, seen)
  {
  }

  /** There is only one next template in a depth-first walk. */
  lemma NextIsOne(g: Graph, start: set<string>, a: seq<string>, b: seq<string>, i: nat)
    requires DepthFirst(g, start, a) && DepthFirst(g, start, b)
    requires 0 < i < |a| && i < |b| && a[..i] == b[..i]
    ensures a[i] == b[i]
  {
    var seen := start + Elements(a[..i]);
    assert Follows(g, start, a, i) && Follows(g, start, b, i);
    var j: nat :| j < i && ComesFrom(g, start, a, i, j);
    var j': nat :| j' < i && ComesFrom(g, start, b, i, j');
    assert a[j] == a[..i][j] == b[j] && a[j'] == a[..i][j'] == b[j'];
    FirstUnseenIsLeft(g, a[j], a[i], seen);
    FirstUnseenIsLeft(g, b[j'], b[i], seen);
    assert j == j';
    FirstUnseenIsOne(g, a[j], a[i], b[i], seen);
  }

  /** So there is only one depth-first order. */
  lemma {:induction false} DepthFirstIsOne(g: Graph, start: set<string>, a: seq<string>, b: seq<string>, i: nat)
    requires DepthFirst(g, start, a) && DepthFirst(g, start, b)
    requires i <= |a| && i <= |b| && (a != [] && b != [] ==> a[0] == b[0])
    ensures a[..i] == b[..i]
  {
    if i > 1 {
      DepthFirstIsOne(g, start, a, b, i - 1);
      NextIsOne(g, start, a, b, i - 1);
      assert a[..i] == a[..i - 1] + [a[i - 1]] && b[..i] == b[..i - 1] + [b[i - 1]];
    }
  }

  lemma {:induction false} SizeOfElements(order: seq<string>)
    requires Distinct(order)
    ensures |Elements(order)| == |order|
  {
    if order != [] {
      ElementsButLast(order);
      SizeOfElements(order[..|order| - 1]);
    }
  }

  /** The order of a visit of everything reachable, from the root, depth first. */
  ghost predicate VisitOrder(g: Graph, order: seq<string>) {
    && order != [] && order[0] == g.root.name && DepthFirst(g, {}, order)
    && Distinct(order) && Elements(order) == Reached(g)
  }

  /** The order of the visit, and with it the rules gathered, is determined by the templates. */
  lemma VisitOrderIsOne(g: Graph, order: seq<string>, order': seq<string>)
    requires VisitOrder(g, order) && VisitOrder(g, order')
    ensures order == order'
  {
    SizeOfElements(order);
    SizeOfElements(order');
    DepthFirstIsOne(g, {}, order, order', |order|);
    assert order[..|order|] == order && order'[..|order|] == order';
  }

  /** Rule `x` is one of the template's own, or of the cluster role of an external cluster template. */
  predicate Contributes(g: Graph, name: string, x: PolicyRule) {
    (name == g.root.name || name in g.templates) &&
    var rt := if name == g.root.name then g.root else g.templates[name];
    x in rt.rules || (rt.external && rt.context == ClusterContext && name in g.clusterRoles && x in g.clusterRoles[name])
  }

  lemma ContributesExactly(g: Graph, name: string, x: PolicyRule)
    requires !Fails(g, name)
    ensures x in OwnRules(g, name) <==> Contributes(g, name, x)
  {
    var rt := Find(g, name).value;
    var fromRole := if UsesClusterRole(rt) then g.clusterRoles[name] else [];
    assert x in fromRole + rt.rules <==> x in fromRole || x in rt.rules;
  }

  lemma {:induction false} ConcatenatedExactly(g: Graph, order: seq<string>, x: PolicyRule)
    requires AllFound(g, order)
    ensures x in Concatenated(g, order) <==> exists n :: n in order && Contributes(g, n, x)
    decreases |order|
  {
    if order != [] {
      var rest, last := order[..|order| - 1], order[|order| - 1];
      ConcatenatedExactly(g, rest, x);
      assert order == rest + [last];
      ContributesExactly(g, last, x);
      assert (exists n :: n in order && Contributes(g, n, x))
        <==> (exists n :: n in rest && Contributes(g, n, x)) || Contributes(g, last, x);
    }
  }

  /** Which rules a successful walk gathers: those of the reachable templates and their cluster roles. */
  lemma RulesExactly(g: Graph, order: seq<string>, x: PolicyRule)
    requires VisitOrder(g, order) && AllFound(g, order)
    ensures x in Concatenated(g, order) <==> exists n :: Reachable(g, n) && Contributes(g, n, x)
  {
    ConcatenatedExactly(g, order, x);
    assert forall n :: n in order <==> n in Elements(order);
  }

  /** When it fails: a reachable template is not there, or it is an external cluster template and
      its cluster role is not. */
  lemma FailsExactlyWhen(g: Graph)
    ensures SomethingFails(g) <==>
              exists n :: Reachable(g, n) &&
                (|| (n != g.root.name && n !in g.templates)
                 || (&& (if n == g.root.name then g.root else g.templates[n]).external
                     && (if n == g.root.name then g.root else g.templates[n]).context == ClusterContext
                     && n !in g.clusterRoles))
  {
  }

  /** A template and then all it references. */
  lemma TrailOfTemplate(g: Graph, start: set<string>, seen: set<string>, inner: seq<string>, rt: RoleTemplate,
                        rules: seq<PolicyRule>)
    requires Find(g, rt.name) == Some(rt) && Reachable(g, rt.name) && !Fails(g, rt.name) && rt.name !in start
    requires Trail(g, start + {rt.name}, seen, inner, {}) && AllSeen(rt.references, seen)
    ensures Trail(g, start, seen, [rt.name] + inner, {})
    ensures rules + OwnRules(g, rt.name) + Concatenated(g, inner) == rules + Concatenated(g, [rt.name] + inner)
  {
    TrailStarts(g, start, rt.name);
    TrailJoins(g, start, start + {rt.name}, seen, [rt.name], inner, {rt.name});
    assert Settled(g, rt.name, seen);
  }

  /** A walk from the root that is done with everything has seen exactly the reachable. */
  lemma TrailIsReach(g: Graph, seen: set<string>, order: seq<string>)
    requires Trail(g, {}, seen, order, {}) && g.root.name in seen
    ensures Elements(order) == Reached(g)
    ensures !SomethingFails(g)
  {
    forall n, m | n in seen && Edge(g, n, m) ensures m in seen {
      assert Settled(g, n, seen);
    }
    forall n | Reachable(g, n) ensures n in seen && Settled(g, n, seen) {
      var p :| IsPath(g, p) && p[|p| - 1] == n;
      ClosedHoldsPath(g, seen, p);
    }
    forall n | n in seen ensures n in Reached(g) {
      assert Settled(g, n, seen);
    }
  }

  /** What bounds the walk: once `name` is seen, fewer templates are left. */
  lemma FewerLeft(g: Graph, start: set<string>, seen: set<string>, name: string)
    requires start <= seen && name in seen && name !in start
    ensures g.templates.Keys - seen < (g.templates.Keys + {name}) - start
  {
    assert name in (g.templates.Keys + {name}) - start;
  }

  /** The rules of the template's cluster role, when it has one, and its own. */
  method TakeOwnRules(g: Graph, rt: RoleTemplate, rules: seq<PolicyRule>) returns (r: Option<seq<PolicyRule>>)
    requires Find(g, rt.name) == Some(rt)
    ensures r.None? <==> Fails(g, rt.name)
    ensures r.Some? ==> r.value == rules + OwnRules(g, rt.name)
  {
    var gathered := rules;
    if rt.external && rt.context.ClusterContext? {
      if rt.name !in g.clusterRoles {
        return None;
      }
      gathered := gathered + g.clusterRoles[rt.name];
    }
    return Some(gathered + rt.rules);
  }

  /** The walk and the map of names it has seen. */
  class Walk {
    const g: Graph
    var seen: set<string>

    constructor (g: Graph)
      ensures this.g == g && seen == {}
    {
      this.g := g;
      seen := {};
    }

    /** Append the rules of `rt` and of everything it leads to that is not seen yet.
        `order` lists the templates visited by this call. */
    method GatherRules(rt: RoleTemplate, rules: seq<PolicyRule>)
      returns (result: Option<seq<PolicyRule>>, ghost order: seq<string>)
      requires Keyed(g)
      requires Reachable(g, rt.name) && Find(g, rt.name) == Some(rt) && rt.name !in seen
      requires rt == g.root || g.root.name in seen
      modifies this
      ensures old(seen) <= seen && rt.name in seen
      ensures result.Some? ==>
                Trail(g, old(seen), seen, order, {}) && result.value == rules + Concatenated(g, order)
      ensures result.Some? ==> order != [] && order[0] == rt.name && DepthFirst(g, old(seen), order)
      ensures result.None? ==> SomethingFails(g)
      decreases (g.templates.Keys + {rt.name}) - seen, 0
    {
      seen := seen + {rt.name};
      order := [rt.name];
      var own := TakeOwnRules(g, rt, rules);
      if own.None? {
        return None, order;
      }
      FewerLeft(g, old(seen), seen, rt.name);
      ghost var inner;
      result, inner := FollowReferences(rt, own.value);
      if result.Some? {
        assert rt.references[..|rt.references|] == rt.references;
        assert old(seen) + {rt.name} - {rt.name} == old(seen);
        TrailOfTemplate(g, old(seen), seen, inner, rt, rules);
        order := [rt.name] + inner;
      }
    }

    /** The references of `rt` in turn. */
    method FollowReferences(rt: RoleTemplate, rules: seq<PolicyRule>)
      returns (result: Option<seq<PolicyRule>>, ghost order: seq<string>)
      requires Keyed(g)
      requires Reachable(g, rt.name) && Find(g, rt.name) == Some(rt)
      requires rt.name in seen && g.root.name in seen
      modifies this
      ensures old(seen) <= seen
      ensures result.Some? ==>
                Following(g, rt, old(seen), seen, order, |rt.references|, rules, result.value)
      ensures result.None? ==> SomethingFails(g)
      decreases g.templates.Keys - seen, 2
    {
      order := [];
      var gathered := rules;
      var i := 0;
      while i < |rt.references|
        invariant 0 <= i <= |rt.references|
        invariant old(seen) <= seen
        invariant Following(g, rt, old(seen), seen, order, i, rules, gathered)
      {
        ghost var mid := seen;
        var next;
        ghost var inner;
        next, inner := FollowReference(rt, rt.references[i], gathered);
        if next.None? {
          return None, order;
        }
        FollowsOneMore(g, rt, old(seen), mid, seen, order, inner, i, rules, gathered, next.value);
        gathered := next.value;
        order := order + inner;
        i := i + 1;
      }
      result := Some(gathered);
    }

    /** One reference of `rt`: passed over when it is seen, gathered otherwise. */
    method FollowReference(rt: RoleTemplate, r: string, rules: seq<PolicyRule>)
      returns (result: Option<seq<PolicyRule>>, ghost order: seq<string>)
      requires Keyed(g)
      requires Reachable(g, rt.name) && Find(g, rt.name) == Some(rt) && r in rt.references
      requires rt.name in seen && g.root.name in seen
      modifies this
      ensures old(seen) <= seen
      ensures result.Some? ==>
                Added(g, r, old(seen), seen, order, rules, result.value)
      ensures result.None? ==> SomethingFails(g)
      decreases g.templates.Keys - seen, 1
    {
      order := [];
      if r in seen {
        return Some(rules), order;
      }
      EdgeReaches(g, rt.name, r);
      if r !in g.templates {
        assert Fails(g, r);
        return None, order;
      }
      assert g.templates.Keys + {r} == g.templates.Keys;
      result, order := GatherRules(g.templates[r], rules);
    }
  }

  /** The rules of the template and of every template reachable from it, each taken exactly
      once; an error exactly when a lookup for something reachable fails. */
  method RulesFromTemplate(g: Graph) returns (result: Option<seq<PolicyRule>>)
    requires Keyed(g)
    ensures result.None? <==> SomethingFails(g)
    ensures result.Some? ==>
              && (forall n :: n in Reached(g) ==> !Fails(g, n))
              && multiset(result.value) == RuleSum(g, Reached(g))
    ensures result.Some? ==>
              exists order :: VisitOrder(g, order) && AllFound(g, order) && result.value == Concatenated(g, order)
  {
    var walk := new Walk(g);
    RootReachable(g);
    ghost var order;
    result, order := walk.GatherRules(g.root, []);
    if result.Some? {
      TrailIsReach(g, walk.seen, order);
      ConcatenatedIsSum(g, order);
      assert [] + Concatenated(g, order) == Concatenated(g, order);
    }
  }
}
