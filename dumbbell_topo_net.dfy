/** dumbbellTopoNet.py: the same dumbbell as the experiment's, built with bare `addLink`
    calls. Its `build` also works out four link speeds and names three delays, but hands none
    of them to a link. */
module DumbbellTopoNet {
  import opened Topology
  import CongestionControl

  // The link speeds `build` starts from (packets per millisecond).
  const BackboneSpeedPms: int := 82
  const AccessSpeedPms: int := 21
  const SourceSpeedPms: int := 80
  const ReceiverSpeedPms: int := 80

  const MsToSec: int := 1000
  /** A 1500-byte packet. */
  const BitsPerPacket: int := 12000
  const ConversionFactor: int := MsToSec * BitsPerPacket

  // The propagation delays `build` names (ms).
  const ShortDelay: int := 21
  const MediumDelay: int := 81
  const LongDelay: int := 162

  /** A speed as `build` computes it: packets per millisecond times the conversion factor,
      which is bits per second, a million times the Mbit/s that `pms_to_mbps` gives. */
  function Speed(pms: int): (bps: int)
    ensures bps as real == 1000000.0 * CongestionControl.PmsToMbps(pms as real)
    ensures bps == 12000000 * pms
  {
    pms * ConversionFactor
  }

  /** The four speeds: 984, 252, 960 and 960 million bits per second. */
  lemma SpeedsAreBitsPerSecond()
    ensures Speed(BackboneSpeedPms) == 984000000 && Speed(AccessSpeedPms) == 252000000
    ensures Speed(SourceSpeedPms) == 960000000 && Speed(ReceiverSpeedPms) == 960000000
    ensures Speed(BackboneSpeedPms) as real == 1000000.0 * CongestionControl.PmsToMbps(CongestionControl.BackboneRatePms)
  {
  }

  /** The topology `dumbbellTopo()` builds: the dumbbell with no link parameters. */
  function NetTopo(): Graph {
    Dumbbell(NoOpts, NoOpts, NoOpts, NoOpts)
  }

  /** `dumbbellTopo.build`: the routers, the hosts, then the seven links without parameters. */
  method Build(t: Topo)
    modifies t
    ensures t.Current() == Extend(old(t.Current()), NetTopo())
  {
    var backBoneRouter1 := t.AddSwitch(BbR1);
    var backBoneRouter2 := t.AddSwitch(BbR2);
    var accessRouter1 := t.AddSwitch(AR1);
    var accessRouter2 := t.AddSwitch(AR2);
    var sourceHost1 := t.AddHost(SH1);
    var sourceHost2 := t.AddHost(SH2);
    var receiverHost1 := t.AddHost(RH1);
    var receiverHost2 := t.AddHost(RH2);
    t.AddLink(backBoneRouter1, backBoneRouter2, NoOpts);
    t.AddLink(accessRouter1, backBoneRouter1, NoOpts);
    t.AddLink(accessRouter2, backBoneRouter2, NoOpts);
    t.AddLink(sourceHost1, accessRouter1, NoOpts);
    t.AddLink(sourceHost2, accessRouter1, NoOpts);
    t.AddLink(receiverHost1, accessRouter2, NoOpts);
    t.AddLink(receiverHost2, accessRouter2, NoOpts);
    DumbbellAddedInOrder(old(t.Current()), t.switches, t.hosts, t.links, NoOpts, NoOpts, NoOpts, NoOpts);
  }

  /** `dumbbellTopo()`: Mininet's `Topo` starts empty and runs `build`. */
  method NewTopo() returns (t: Topo)
    ensures fresh(t) && t.Current() == NetTopo()
  {
    t := new Topo();
    Build(t);
  }

  /** No link carries a rate, a delay or a queue limit: the speeds and delays are unused. */
  lemma NoLinkParameters()
    ensures forall k :: 0 <= k < |NetTopo().links| ==>
      NetTopo().links[k].opts.bw.None? && NetTopo().links[k].opts.delay.None?
      && NetTopo().links[k].opts.maxQueueSize.None?
  {
    var g := NetTopo();
    assert forall k :: 0 <= k < |g.links| ==> g.links[k].opts == NoOpts;
  }

  /** This script's dumbbell and the experiment's have the same switches, the same hosts and
      the same link endpoints in the same order; only the link parameters differ. */
  lemma SameShapeAsExperiment()
    ensures NetTopo().switches == CongestionControl.ExperimentTopo().switches
    ensures NetTopo().hosts == CongestionControl.ExperimentTopo().hosts
    ensures Endpoints(NetTopo()) == Endpoints(CongestionControl.ExperimentTopo())
    ensures NetTopo() != CongestionControl.ExperimentTopo()
  {
    DumbbellShapeIgnoresOpts(NoOpts, NoOpts, NoOpts, NoOpts, CongestionControl.BackboneLink(),
      CongestionControl.AccessLink(), CongestionControl.SourceLink(), CongestionControl.ReceiverLink());
    assert NetTopo().links[0].opts != CongestionControl.ExperimentTopo().links[0].opts;
  }

  /** Eight distinct nodes joined by seven links into one connected tree. */
  lemma NetTopoIsTree()
    ensures |Nodes(NetTopo())| == 8 && Distinct(Nodes(NetTopo())) && |NetTopo().links| == 7
    ensures Connected(NetTopo())
  {
    DumbbellSize(NoOpts, NoOpts, NoOpts, NoOpts);
    DumbbellConnected(NoOpts, NoOpts, NoOpts, NoOpts);
  }

  /** Every host is a leaf of the tree. */
  lemma NetHostsAreLeaves()
    ensures Degree(NetTopo(), SH1) == 1 && Degree(NetTopo(), SH2) == 1
    ensures Degree(NetTopo(), RH1) == 1 && Degree(NetTopo(), RH2) == 1
  {
    DumbbellHostsAreLeaves(NoOpts, NoOpts, NoOpts, NoOpts);
  }
}
