/** Ways through the Tempo cluster: runs in which only some nodes move, and one node moving alone. */
module TempoPaths {
  import opened TempoBookkeeping
  import opened TempoNode
  import opened TempoCluster

  // ----- runs of some of the nodes -----

  /** `c'` can be reached from `c` while only the nodes in `awake` move. */
  ghost predicate Leads(cfg: Config, awake: set<NodeId>, c: Cluster, c': Cluster) {
    exists run :: Runs(cfg, c, run) && (forall l: Label :: l in run ==> l.node in awake) && Exec(cfg, c, run) == c'
  }

  lemma LeadsNowhere(cfg: Config, awake: set<NodeId>, c: Cluster)
    ensures Leads(cfg, awake, c, c)
  {
    assert Runs(cfg, c, []) && Exec(cfg, c, []) == c;
  }

  lemma LeadsOn(cfg: Config, awake: set<NodeId>, c: Cluster, c': Cluster, l: Label)
    requires Leads(cfg, awake, c, c') && CanStep(c', l) && l.node in awake
    ensures Leads(cfg, awake, c, Step(cfg, c', l))
  {
    var run :| Runs(cfg, c, run) && (forall l: Label :: l in run ==> l.node in awake) && Exec(cfg, c, run) == c';
    var longer := run + [l];
    assert longer[..|longer| - 1] == run;
    assert Runs(cfg, c, longer) && Exec(cfg, c, longer) == Step(cfg, c', l);
  }

  lemma LeadsMore(cfg: Config, few: set<NodeId>, many: set<NodeId>, c: Cluster, c': Cluster)
    requires Leads(cfg, few, c, c') && few <= many
    ensures Leads(cfg, many, c, c')
  {
    var run :| Runs(cfg, c, run) && (forall l: Label :: l in run ==> l.node in few) && Exec(cfg, c, run) == c';
    assert forall l: Label :: l in run ==> l.node in many;
  }

  lemma {:induction false} LeadsAppend(cfg: Config, awake: set<NodeId>, a: Cluster, b: Cluster, run: seq<Label>)
    requires Leads(cfg, awake, a, b) && Runs(cfg, b, run) && forall l: Label :: l in run ==> l.node in awake
    ensures Leads(cfg, awake, a, Exec(cfg, b, run))
    decreases |run|
  {
    if run != [] {
      LeadsAppend(cfg, awake, a, b, run[..|run| - 1]);
      LeadsOn(cfg, awake, a, Exec(cfg, b, run[..|run| - 1]), run[|run| - 1]);
    }
  }

  lemma ReachableOn(cfg: Config, awake: set<NodeId>, c: Cluster, c': Cluster)
    requires Reachable(cfg, c) && Leads(cfg, awake, c, c') && awake <= cfg.members
    ensures Reachable(cfg, c')
  {
    var c0, first :| Init(cfg, c0) && Runs(cfg, c0, first) && Exec(cfg, c0, first) == c;
    var run :| Runs(cfg, c, run) && (forall l: Label :: l in run ==> l.node in awake) && Exec(cfg, c, run) == c';
    var everyone := set l: Label | l in first + run :: l.node;
    assert forall l: Label :: l in first ==> l in first + run;
    assert forall l: Label :: l in run ==> l in first + run;
    assert Leads(cfg, everyone, c0, c);
    LeadsAppend(cfg, everyone, c0, c, run);
  }

  lemma {:induction false} LeadsThen(cfg: Config, awake: set<NodeId>, a: Cluster, b: Cluster, c: Cluster)
    requires Leads(cfg, awake, a, b) && Leads(cfg, awake, b, c)
    ensures Leads(cfg, awake, a, c)
  {
    var run :| Runs(cfg, b, run) && (forall l: Label :: l in run ==> l.node in awake) && Exec(cfg, b, run) == c;
    LeadsAppend(cfg, awake, a, b, run);
  }

  // ----- one node moving alone -----

  /** The node and everything it sent after a list of its own events, while the network brings nothing new. */
  predicate BurstOk(cfg: Config, me: NodeId, n: Node, net: set<Envelope>, evs: seq<Event>)
    decreases |evs|, 0
  {
    evs == [] || (
      && BurstOk(cfg, me, n, net, evs[..|evs| - 1])
      && Enabled(me, Burst(cfg, me, n, net, evs[..|evs| - 1]).0, net, evs[|evs| - 1]))
  }

  function Burst(cfg: Config, me: NodeId, n: Node, net: set<Envelope>, evs: seq<Event>): (Node, set<Envelope>)
    requires BurstOk(cfg, me, n, net, evs)
    decreases |evs|, 1
  {
    if evs == [] then (n, {})
    else
      var before := Burst(cfg, me, n, net, evs[..|evs| - 1]);
      var out := NodeStep(cfg, me, before.0, net, evs[|evs| - 1]);
      (out.0, before.1 + out.1)
  }

  ghost predicate Becomes(cfg: Config, me: NodeId, n: Node, net: set<Envelope>, n': Node, sent: set<Envelope>) {
    exists evs :: BurstOk(cfg, me, n, net, evs) && Burst(cfg, me, n, net, evs) == (n', sent)
  }

  lemma BecomesItself(cfg: Config, me: NodeId, n: Node, net: set<Envelope>)
    ensures Becomes(cfg, me, n, net, n, {})
  {
    assert BurstOk(cfg, me, n, net, []) && Burst(cfg, me, n, net, []) == (n, {});
  }

  lemma BecomesOn(cfg: Config, me: NodeId, n: Node, net: set<Envelope>, m: Node, sent: set<Envelope>, ev: Event)
    requires Becomes(cfg, me, n, net, m, sent) && Enabled(me, m, net, ev)
    ensures var out := NodeStep(cfg, me, m, net, ev); Becomes(cfg, me, n, net, out.0, sent + out.1)
  {
    var evs :| BurstOk(cfg, me, n, net, evs) && Burst(cfg, me, n, net, evs) == (m, sent);
    var longer := evs + [ev];
    assert longer[..|longer| - 1] == evs;
    assert BurstOk(cfg, me, n, net, longer);
  }

  /** The cluster after node `me` alone has become `n` and sent `sent`. */
  function With(c: Cluster, me: NodeId, n: Node, sent: set<Envelope>): Cluster {
    Cluster(c.nodes[me := n], c.net + sent)
  }

  lemma EventLeads(cfg: Config, awake: set<NodeId>, c0: Cluster, c: Cluster, me: NodeId, n: Node, sent: set<Envelope>, ev: Event)
    requires Leads(cfg, awake, c0, With(c, me, n, sent)) && me in awake && me in c.nodes
    requires Enabled(me, n, c.net, ev)
    ensures var out := NodeStep(cfg, me, n, c.net, ev); Leads(cfg, awake, c0, With(c, me, out.0, sent + out.1))
  {
    var mid := With(c, me, n, sent);
    LaterEnabled(me, n, c.net, mid.net, ev);
    LeadsOn(cfg, awake, c0, mid, Label(me, ev));
    var out := NodeStep(cfg, me, n, c.net, ev);
    NetIrrelevant(cfg, me, n, c.net, mid.net, ev);
    assert Step(cfg, mid, Label(me, ev)).nodes == c.nodes[me := out.0];
    assert Step(cfg, mid, Label(me, ev)).net == c.net + (sent + out.1);
  }

  lemma {:induction false} BurstLeads(cfg: Config, awake: set<NodeId>, c0: Cluster, c: Cluster, me: NodeId, evs: seq<Event>)
    requires Leads(cfg, awake, c0, c) && me in awake && me in c.nodes
    requires BurstOk(cfg, me, c.nodes[me], c.net, evs)
    ensures var out := Burst(cfg, me, c.nodes[me], c.net, evs); Leads(cfg, awake, c0, With(c, me, out.0, out.1))
    decreases |evs|
  {
    if evs == [] {
      assert With(c, me, c.nodes[me], {}) == c;
    } else {
      var front, ev := evs[..|evs| - 1], evs[|evs| - 1];
      BurstLeads(cfg, awake, c0, c, me, front);
      var before := Burst(cfg, me, c.nodes[me], c.net, front);
      EventLeads(cfg, awake, c0, c, me, before.0, before.1, ev);
    }
  }

  lemma LaterEnabled(me: NodeId, n: Node, net: set<Envelope>, net': set<Envelope>, ev: Event)
    requires Enabled(me, n, net, ev) && net <= net'
    ensures Enabled(me, n, net', ev)
  {
  }

  lemma NetIrrelevant(cfg: Config, me: NodeId, n: Node, net: set<Envelope>, net': set<Envelope>, ev: Event)
    requires Enabled(me, n, net, ev) && Enabled(me, n, net', ev)
    ensures NodeStep(cfg, me, n, net, ev) == NodeStep(cfg, me, n, net', ev)
  {
  }

  lemma Quietly(cfg: Config, me: NodeId, n: Node, net: set<Envelope>, m: Node, sent: set<Envelope>, ev: Event)
    requires Becomes(cfg, me, n, net, m, sent) && Enabled(me, m, net, ev) && NodeStep(cfg, me, m, net, ev).1 == {}
    ensures Becomes(cfg, me, n, net, NodeStep(cfg, me, m, net, ev).0, sent)
  {
    BecomesOn(cfg, me, n, net, m, sent, ev);
    assert sent + {} == sent;
  }

  lemma Becoming(cfg: Config, awake: set<NodeId>, c0: Cluster, c: Cluster, i: NodeId, n': Node, sent: set<Envelope>)
    returns (c': Cluster)
    requires Leads(cfg, awake, c0, c) && i in awake && i in c.nodes && Becomes(cfg, i, c.nodes[i], c.net, n', sent)
    ensures Leads(cfg, awake, c0, c') && c' == With(c, i, n', sent)
  {
    var evs :| BurstOk(cfg, i, c.nodes[i], c.net, evs) && Burst(cfg, i, c.nodes[i], c.net, evs) == (n', sent);
    BurstLeads(cfg, awake, c0, c, i, evs);
    c' := With(c, i, n', sent);
  }
}
