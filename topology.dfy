/** The part of Mininet's `Topo` that the two topology scripts use: a graph that `build`
    grows by `addSwitch`, `addHost` and `addLink` calls, each link carrying the keyword
    parameters it was added with. Both scripts build the same dumbbell, defined here once
    with its link parameters left open, together with the facts about its shape. */
module Topology {
  import opened Wrappers

  /** The link parameters a script passes to `addLink`: `bw` in Mbit/s, `delay` as the bare
      number the script writes, and `max_queue_size` in packets. */
  datatype LinkOpts = LinkOpts(bw: Option<real>, delay: Option<int>, maxQueueSize: Option<real>)

  /** `addLink(a, b)` with no keyword parameters. */
  const NoOpts := LinkOpts(None, None, None)

  datatype Link = Link(node1: string, node2: string, opts: LinkOpts)

  /** The nodes and links of a topology, in the order they were added. */
  datatype Graph = Graph(switches: seq<string>, hosts: seq<string>, links: seq<Link>)

  const Empty := Graph([], [], [])

  /** `g` followed by what `more` adds. */
  function Extend(g: Graph, more: Graph): Graph {
    Graph(g.switches + more.switches, g.hosts + more.hosts, g.links + more.links)
  }

  /** Mininet's `Topo`, as far as `build` sees it. */
  class Topo {
    var switches: seq<string>
    var hosts: seq<string>
    var links: seq<Link>

    function Current(): Graph
      reads this
    {
      Graph(switches, hosts, links)
    }

    constructor ()
      ensures Current() == Empty
    {
      switches, hosts, links := [], [], [];
    }

    /** `addSwitch(name)`: the switch is added and its name returned. */
    method AddSwitch(name: string) returns (node: string)
      modifies this
      ensures node == name
      ensures switches == old(switches) + [name] && hosts == old(hosts) && links == old(links)
    {
      switches := switches + [name];
      node := name;
    }

    /** `addHost(name)`: the host is added and its name returned. */
    method AddHost(name: string) returns (node: string)
      modifies this
      ensures node == name
      ensures switches == old(switches) && hosts == old(hosts) + [name] && links == old(links)
    {
      hosts := hosts + [name];
      node := name;
    }

    /** `addLink(node1, node2, **opts)`. */
    method AddLink(node1: string, node2: string, opts: LinkOpts)
      modifies this
      ensures switches == old(switches) && hosts == old(hosts)
      ensures links == old(links) + [Link(node1, node2, opts)]
    {
      links := links + [Link(node1, node2, opts)];
    }
  }

  // ---------------------------------------------------------------------------------------
  // The dumbbell

  const BbR1 := "bbR1"
  const BbR2 := "bbR2"
  const AR1 := "aR1"
  const AR2 := "aR2"
  const SH1 := "sH1"
  const SH2 := "sH2"
  const RH1 := "rH1"
  const RH2 := "rH2"

  /** Two backbone routers, an access router on each side, and two hosts behind each access
      router: the senders `sH1`, `sH2` on the left and the receivers `rH1`, `rH2` on the
      right. `bb`, `access`, `src` and `rcv` are the parameters of the backbone link, the two
      access links, the two sender links and the two receiver links. */
  function Dumbbell(bb: LinkOpts, access: LinkOpts, src: LinkOpts, rcv: LinkOpts): Graph {
    Graph(
      [BbR1, BbR2, AR1, AR2],
      [SH1, SH2, RH1, RH2],
      [Link(BbR1, BbR2, bb), Link(AR1, BbR1, access), Link(AR2, BbR2, access),
       Link(SH1, AR1, src), Link(SH2, AR1, src), Link(RH1, AR2, rcv), Link(RH2, AR2, rcv)])
  }

  /** The eight nodes added one by one, then the seven links one by one, in the order of the
      dumbbell, leave `g` extended by the dumbbell. */
  lemma DumbbellAddedInOrder(g: Graph, switches: seq<string>, hosts: seq<string>, links: seq<Link>,
                             bb: LinkOpts, access: LinkOpts, src: LinkOpts, rcv: LinkOpts)
    requires switches == g.switches + [BbR1] + [BbR2] + [AR1] + [AR2]
    requires hosts == g.hosts + [SH1] + [SH2] + [RH1] + [RH2]
    requires links == g.links + [Link(BbR1, BbR2, bb)] + [Link(AR1, BbR1, access)]
      + [Link(AR2, BbR2, access)] + [Link(SH1, AR1, src)] + [Link(SH2, AR1, src)]
      + [Link(RH1, AR2, rcv)] + [Link(RH2, AR2, rcv)]
    ensures Graph(switches, hosts, links) == Extend(g, Dumbbell(bb, access, src, rcv))
  {
  }

  function Nodes(g: Graph): seq<string> {
    g.switches + g.hosts
  }

  /** The endpoints of each link, in order, without their parameters. */
  function Endpoints(g: Graph): (e: seq<(string, string)>)
    ensures |e| == |g.links| && forall k :: 0 <= k < |e| ==> e[k] == (g.links[k].node1, g.links[k].node2)
  {
    seq(|g.links|, k requires 0 <= k < |g.links| => (g.links[k].node1, g.links[k].node2))
  }

  predicate Distinct(s: seq<string>) {
    forall i, j :: 0 <= i < j < |s| ==> s[i] != s[j]
  }

  predicate Joins(l: Link, a: string, b: string) {
    (l.node1 == a && l.node2 == b) || (l.node1 == b && l.node2 == a)
  }

  ghost predicate Adjacent(g: Graph, a: string, b: string) {
    exists k :: 0 <= k < |g.links| && Joins(g.links[k], a, b)
  }

  /** A walk along links, from `w[0]` to its last node. */
  ghost predicate IsWalk(g: Graph, w: seq<string>) {
    |w| >= 1 && forall i :: 0 <= i < |w| - 1 ==> Adjacent(g, w[i], w[i + 1])
  }

  ghost predicate Connected(g: Graph) {
    forall a, b :: a in Nodes(g) && b in Nodes(g) ==> exists w :: IsWalk(g, w) && w[0] == a && w[|w| - 1] == b
  }

  /** The number of link ends at `n`. */
  function Degree(g: Graph, n: string): nat {
    |set k | 0 <= k < |g.links| && (g.links[k].node1 == n || g.links[k].node2 == n)|
  }

  /** The endpoints do not depend on the link parameters: every parameter choice gives the
      same shape. */
  lemma DumbbellShapeIgnoresOpts(bb: LinkOpts, access: LinkOpts, src: LinkOpts, rcv: LinkOpts,
                                 bb': LinkOpts, access': LinkOpts, src': LinkOpts, rcv': LinkOpts)
    ensures var g, g' := Dumbbell(bb, access, src, rcv), Dumbbell(bb', access', src', rcv');
      g.switches == g'.switches && g.hosts == g'.hosts && Endpoints(g) == Endpoints(g')
  {
    var g, g' := Dumbbell(bb, access, src, rcv), Dumbbell(bb', access', src', rcv');
    assert forall k :: 0 <= k < 7 ==> Endpoints(g)[k] == Endpoints(g')[k];
  }

  /** Four switches, four hosts, eight distinct names, seven links, each joining two of the
      nodes; one link fewer than nodes. */
  lemma DumbbellSize(bb: LinkOpts, access: LinkOpts, src: LinkOpts, rcv: LinkOpts)
    ensures var g := Dumbbell(bb, access, src, rcv);
      |g.switches| == 4 && |g.hosts| == 4 && |Nodes(g)| == 8 && Distinct(Nodes(g))
      && |g.links| == |Nodes(g)| - 1
      && forall k :: 0 <= k < |g.links| ==> g.links[k].node1 in Nodes(g) && g.links[k].node2 in Nodes(g)
  {
  }

  /** Each host hangs off its access router by its one link: senders off `aR1`, receivers off
      `aR2`. */
  lemma DumbbellHostsAreLeaves(bb: LinkOpts, access: LinkOpts, src: LinkOpts, rcv: LinkOpts)
    ensures var g := Dumbbell(bb, access, src, rcv);
      Degree(g, SH1) == 1 && Degree(g, SH2) == 1 && Degree(g, RH1) == 1 && Degree(g, RH2) == 1
      && Joins(g.links[3], SH1, AR1) && Joins(g.links[4], SH2, AR1)
      && Joins(g.links[5], RH1, AR2) && Joins(g.links[6], RH2, AR2)
  {
    var g := Dumbbell(bb, access, src, rcv);
    OneLinkAt(g, SH1, 3);
    OneLinkAt(g, SH2, 4);
    OneLinkAt(g, RH1, 5);
    OneLinkAt(g, RH2, 6);
  }

  /** A node that only link `k` touches has degree 1. */
  lemma OneLinkAt(g: Graph, n: string, k: nat)
    requires k < |g.links| && (g.links[k].node1 == n || g.links[k].node2 == n)
    requires forall j :: 0 <= j < |g.links| && j != k ==> g.links[j].node1 != n && g.links[j].node2 != n
    ensures Degree(g, n) == 1
  {
    assert (set j | 0 <= j < |g.links| && (g.links[j].node1 == n || g.links[j].node2 == n)) == {k};
  }

  /** A walk read backwards is a walk. */
  lemma WalkReversed(g: Graph, w: seq<string>) returns (r: seq<string>)
    requires IsWalk(g, w)
    ensures IsWalk(g, r) && |r| == |w| && r[0] == w[|w| - 1] && r[|r| - 1] == w[0]
  {
    r := seq(|w|, i requires 0 <= i < |w| => w[|w| - 1 - i]);
    forall i | 0 <= i < |r| - 1 ensures Adjacent(g, r[i], r[i + 1]) {
      var j := |w| - 2 - i;
      assert Adjacent(g, w[j], w[j + 1]);
      var k :| 0 <= k < |g.links| && Joins(g.links[k], w[j], w[j + 1]);
      assert Joins(g.links[k], r[i], r[i + 1]);
    }
  }

  /** Two walks that meet make one. */
  lemma WalksJoined(g: Graph, v: seq<string>, w: seq<string>)
    requires IsWalk(g, v) && IsWalk(g, w) && v[|v| - 1] == w[0]
    ensures IsWalk(g, v + w[1..]) && (v + w[1..])[0] == v[0] && (v + w[1..])[|v| + |w| - 2] == w[|w| - 1]
  {
    var u := v + w[1..];
    forall i | 0 <= i < |u| - 1 ensures Adjacent(g, u[i], u[i + 1]) {
      if i < |v| - 1 {
        assert u[i] == v[i] && u[i + 1] == v[i + 1];
      } else {
        assert u[i] == w[i - |v| + 1] && u[i + 1] == w[i - |v| + 2];
      }
    }
  }

  /** A walk from every node of the dumbbell to `bbR1`. */
  lemma WalkToBackbone(bb: LinkOpts, access: LinkOpts, src: LinkOpts, rcv: LinkOpts, n: string) returns (w: seq<string>)
    requires n in Nodes(Dumbbell(bb, access, src, rcv))
    ensures IsWalk(Dumbbell(bb, access, src, rcv), w) && w[0] == n && w[|w| - 1] == BbR1
  {
    var g := Dumbbell(bb, access, src, rcv);
    assert Joins(g.links[0], BbR2, BbR1) && Joins(g.links[1], AR1, BbR1) && Joins(g.links[2], AR2, BbR2);
    assert Joins(g.links[3], SH1, AR1) && Joins(g.links[4], SH2, AR1);
    assert Joins(g.links[5], RH1, AR2) && Joins(g.links[6], RH2, AR2);
    if n == BbR1 {
      w := [BbR1];
    } else if n == BbR2 {
      w := [BbR2, BbR1];
    } else if n == AR1 {
      w := [AR1, BbR1];
    } else if n == AR2 {
      w := [AR2, BbR2, BbR1];
    } else if n == SH1 || n == SH2 {
      w := [n, AR1, BbR1];
    } else {
      w := [n, AR2, BbR2, BbR1];
    }
  }

  /** Every node of the dumbbell reaches every other along its links; with one link fewer than
      nodes, the dumbbell is a tree. */
  lemma DumbbellConnected(bb: LinkOpts, access: LinkOpts, src: LinkOpts, rcv: LinkOpts)
    ensures Connected(Dumbbell(bb, access, src, rcv))
  {
    var g := Dumbbell(bb, access, src, rcv);
    forall a, b | a in Nodes(g) && b in Nodes(g)
      ensures exists w :: IsWalk(g, w) && w[0] == a && w[|w| - 1] == b
    {
      var v := WalkToBackbone(bb, access, src, rcv, a);
      var u := WalkToBackbone(bb, access, src, rcv, b);
      var w := WalkReversed(g, u);
      WalksJoined(g, v, w);
      assert (v + w[1..])[|v + w[1..]| - 1] == b;
    }
  }
}
