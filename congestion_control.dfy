/** congestion_control.py: the link parameters of the experiment's dumbbell, its `build`, and
    the schedule `execute` runs on it: one iperf3 server per receiver, a first flow started
    at once, a second flow started `delay` seconds later and cut short so that both end
    together, then the teardown.

    Every call into Mininet, the shell and the operating system is recorded as an `Event`
    instead of being performed; `sleep` only advances the experiment's clock. */
module CongestionControl {
  import opened Wrappers
  import opened Topology

  /** `pms_to_mbps`: packets per millisecond, at 12000 bits per packet, in Mbit/s. */
  function PmsToMbps(pms: real): (mbps: real)
    ensures mbps == 12.0 * pms
  {
    pms * (1000.0 * 12000.0 * 0.000001)
  }

  // The rates `build` converts (packets per millisecond).
  const BackboneRatePms: real := 82.0
  const AccessRatePms: real := 21.0
  const HostRatePms: real := 80.0

  // The propagation delays `build` chooses from; `delay = small`.
  const SmallDelay: int := 21
  const MediumDelay: int := 81
  const LargeDelay: int := 162
  const Delay: int := SmallDelay

  /** The four parameter records of `build`. */
  function AccessLink(): (o: LinkOpts)
    ensures o == LinkOpts(Some(252.0), None, Some(1058.4))
  {
    var a := PmsToMbps(AccessRatePms);
    LinkOpts(Some(a), None, Some(0.2 * a * Delay as real))
  }

  function BackboneLink(): (o: LinkOpts)
    ensures o == LinkOpts(Some(984.0), Some(21), None)
  {
    LinkOpts(Some(PmsToMbps(BackboneRatePms)), Some(Delay), None)
  }

  function SourceLink(): (o: LinkOpts)
    ensures o == LinkOpts(Some(960.0), None, None)
  {
    LinkOpts(Some(PmsToMbps(HostRatePms)), None, None)
  }

  function ReceiverLink(): (o: LinkOpts)
    ensures o == LinkOpts(Some(960.0), None, None)
  {
    LinkOpts(Some(PmsToMbps(HostRatePms)), None, None)
  }

  /** The topology `DumbbellTopo()` builds. */
  function ExperimentTopo(): Graph {
    Dumbbell(BackboneLink(), AccessLink(), SourceLink(), ReceiverLink())
  }

  /** The rates of the comments next to the conversions: 984, 252 and 960 Mbit/s. */
  lemma LinkRates()
    ensures PmsToMbps(BackboneRatePms) == 984.0
    ensures PmsToMbps(AccessRatePms) == 252.0
    ensures PmsToMbps(HostRatePms) == 960.0
  {
  }

  /** The access queue holds 0.2 × access rate × delay packets: 1058.4 with the small delay. */
  lemma AccessQueueLimit()
    ensures AccessLink().maxQueueSize == Some(0.2 * PmsToMbps(AccessRatePms) * Delay as real)
    ensures AccessLink().maxQueueSize == Some(1058.4)
  {
  }

  /** Each kind of link carries its own parameters: only the backbone link a delay, only the
      two access links a queue limit, the host links a rate alone; links of the same kind
      share one record. */
  lemma LinkParameters()
    ensures var g := ExperimentTopo();
      (forall k :: 0 <= k < |g.links| ==> g.links[k].opts.bw.Some?)
      && (forall k :: 0 <= k < |g.links| ==> (g.links[k].opts.delay.Some? <==> k == 0))
      && (forall k :: 0 <= k < |g.links| ==> (g.links[k].opts.maxQueueSize.Some? <==> k == 1 || k == 2))
      && g.links[1].opts == g.links[2].opts && g.links[3].opts == g.links[4].opts
      && g.links[5].opts == g.links[6].opts
      && g.links[0].opts == LinkOpts(Some(984.0), Some(21), None)
      && g.links[1].opts == LinkOpts(Some(252.0), None, Some(1058.4))
      && g.links[3].opts == LinkOpts(Some(960.0), None, None)
  {
    var g := ExperimentTopo();
    assert g.links[0].opts == BackboneLink();
    assert forall k :: 1 <= k < 3 ==> g.links[k].opts == AccessLink();
    assert forall k :: 3 <= k < 7 ==> g.links[k].opts == LinkOpts(Some(960.0), None, None);
  }

  /** `DumbbellTopo.build`: the routers, the hosts, then the seven links with their records. */
  method Build(t: Topo)
    modifies t
    ensures t.Current() == Extend(old(t.Current()), ExperimentTopo())
  {
    var bbR1 := t.AddSwitch(BbR1);
    var bbR2 := t.AddSwitch(BbR2);
    var aR1 := t.AddSwitch(AR1);
    var aR2 := t.AddSwitch(AR2);
    var sH1 := t.AddHost(SH1);
    var sH2 := t.AddHost(SH2);
    var rH1 := t.AddHost(RH1);
    var rH2 := t.AddHost(RH2);
    var bbSpeed := PmsToMbps(BackboneRatePms);
    var aSpeed := PmsToMbps(AccessRatePms);
    var sSpeed := PmsToMbps(HostRatePms);
    var rSpeed := sSpeed;
    var delay := Delay;
    var arLink := LinkOpts(Some(aSpeed), None, Some(0.2 * aSpeed * delay as real));
    var bbLink := LinkOpts(Some(bbSpeed), Some(delay), None);
    var sLink := LinkOpts(Some(sSpeed), None, None);
    var rLink := LinkOpts(Some(rSpeed), None, None);
    t.AddLink(bbR1, bbR2, bbLink);
    t.AddLink(aR1, bbR1, arLink);
    t.AddLink(aR2, bbR2, arLink);
    t.AddLink(sH1, aR1, sLink);
    t.AddLink(sH2, aR1, sLink);
    t.AddLink(rH1, aR2, rLink);
    t.AddLink(rH2, aR2, rLink);
    DumbbellAddedInOrder(old(t.Current()), t.switches, t.hosts, t.links, bbLink, arLink, sLink, rLink);
    assert bbLink == BackboneLink() && arLink == AccessLink();
    assert sLink == SourceLink() && rLink == ReceiverLink();
  }

  /** `DumbbellTopo()`: Mininet's `Topo` starts empty and runs `build`. */
  method NewDumbbellTopo() returns (t: Topo)
    ensures fresh(t) && t.Current() == ExperimentTopo()
  {
    t := new Topo();
    Build(t);
  }

  // ---------------------------------------------------------------------------------------
  // execute

  /** The two iperf3 command lines: a server listening on a port, and a client that sends to
      a host's server for `seconds`, writing its report to `log`. */
  datatype Command =
    | IperfServer(port: nat)
    | IperfClient(seconds: int, server: string, port: nat, log: string)

  /** What `execute` asks of the outside world, in order. A process is named by the position
      of the `Popen` that started it. */
  datatype Event =
    | SetCongestionControl(algorithm: string)
    | StartNet(topo: Graph)
    | DumpNodeConnections
    | Popen(host: string, command: Command)
    | Sleep(seconds: int)
    | Wait(process: nat)
    | Terminate(process: nat)
    | StopNet

  /** The longest `sleep`, in whole seconds, that CPython accepts either way: the length is
      converted to nanoseconds in a signed 64-bit integer before its sign is checked. */
  const MaxSleep: int := 9223372036

  /** The two errors `sleep` raises: `OverflowError` for a length whose nanoseconds do not fit,
      `ValueError` for a negative length that does fit. */
  datatype SleepError = ValueError | OverflowError

  /** What `sleep(seconds)` raises, if anything. */
  function SleepFault(seconds: int): (f: Option<SleepError>)
    ensures f.None? <==> 0 <= seconds <= MaxSleep
    ensures f == Some(OverflowError) <==> seconds < -MaxSleep || MaxSleep < seconds
    ensures f == Some(ValueError) <==> -MaxSleep <= seconds < 0
  {
    if seconds < -MaxSleep || MaxSleep < seconds then Some(OverflowError)
    else if seconds < 0 then Some(ValueError)
    else None
  }

  /** How `execute` ends: normally, or with the error a `sleep` raises. Nothing after the
      raise runs: there is no `finally`. */
  datatype Outcome = Finished | SleepRaised(seconds: int, error: SleepError)

  function SleepOf(e: Event): int {
    if e.Sleep? then e.seconds else 0
  }

  /** The seconds slept during `events`. */
  function Slept(events: seq<Event>): int {
    if events == [] then 0 else SleepOf(events[0]) + Slept(events[1..])
  }

  /** The experiment clock when event `i` happens: the seconds slept before it. */
  function ClockAt(trace: seq<Event>, i: nat): int
    requires i <= |trace|
  {
    Slept(trace[..i])
  }

  lemma {:induction false} SleptAppend(a: seq<Event>, b: seq<Event>)
    ensures Slept(a + b) == Slept(a) + Slept(b)
  {
    if a != [] {
      assert (a + b)[1..] == a[1..] + b;
      SleptAppend(a[1..], b);
    } else {
      assert a + b == b;
    }
  }

  lemma {:induction false} SleptNone(events: seq<Event>)
    requires forall k :: 0 <= k < |events| ==> !events[k].Sleep?
    ensures Slept(events) == 0
  {
    if events != [] {
      SleptNone(events[1..]);
    }
  }

  /** Event `i` starts a process on `host`. */
  predicate StartsOn(trace: seq<Event>, i: nat, host: string) {
    i < |trace| && trace[i].Popen? && trace[i].host == host
  }

  predicate IsServerStart(e: Event) { e.Popen? && e.command.IperfServer? }

  predicate IsClientStart(e: Event) { e.Popen? && e.command.IperfClient? }

  /** Both servers are up before either client starts. */
  ghost predicate ServersBeforeClients(trace: seq<Event>) {
    forall i, j :: 0 <= i < |trace| && 0 <= j < |trace| && IsServerStart(trace[i]) && IsClientStart(trace[j]) ==> i < j
  }

  /** A client started by `execute`: `sH1` sends to `rH1` on port 1111 and `sH2` to `rH2` on
      port 2222, each logging to its own file in the algorithm's directory. */
  predicate PairedClient(e: Event, algo: string)
    requires IsClientStart(e)
  {
    (e.host == SH1 && e.command == IperfClient(e.command.seconds, RH1, 1111, algo + "/s1.txt"))
    || (e.host == SH2 && e.command == IperfClient(e.command.seconds, RH2, 2222, algo + "/s2.txt"))
  }

  /** Every client sends to a server that an earlier event started on the host and port it
      names. */
  ghost predicate ClientsPaired(trace: seq<Event>, algo: string) {
    forall j :: 0 <= j < |trace| && IsClientStart(trace[j]) ==>
      PairedClient(trace[j], algo)
      && exists i :: 0 <= i < j && trace[i] == Popen(trace[j].command.server, IperfServer(trace[j].command.port))
  }

  /** Every client is told to run until `end` on the experiment clock. */
  ghost predicate ClientsEndAt(trace: seq<Event>, end: int) {
    forall j :: 0 <= j < |trace| && IsClientStart(trace[j]) ==> ClockAt(trace, j) + trace[j].command.seconds == end
  }

  /** The teardown: wait for both senders, stop both servers, wait for them, then stop the net. */
  predicate TornDown(trace: seq<Event>) {
    |trace| == 16 && StartsOn(trace, 5, SH1) && StartsOn(trace, 7, SH2)
    && StartsOn(trace, 3, RH1) && StartsOn(trace, 4, RH2)
    && trace[9..] == [Wait(5), Wait(7), Terminate(3), Terminate(4), Wait(3), Wait(4), StopNet]
  }

  /** The events of a run of `execute` that finishes; a run that raises performs a prefix. */
  ghost function Schedule(algo: string, duration: int, delay: int): (trace: seq<Event>)
    ensures |trace| == 16
  {
    [SetCongestionControl(algo), StartNet(ExperimentTopo()), DumpNodeConnections,
     Popen(RH1, IperfServer(1111)), Popen(RH2, IperfServer(2222)),
     Popen(SH1, IperfClient(duration, RH1, 1111, algo + "/s1.txt")), Sleep(delay),
     Popen(SH2, IperfClient(duration - delay, RH2, 2222, algo + "/s2.txt")), Sleep(duration - delay),
     Wait(5), Wait(7), Terminate(3), Terminate(4), Wait(3), Wait(4), StopNet]
  }

  /** Where the schedule starts its servers and its clients. */
  lemma ScheduleStarts(algo: string, duration: int, delay: int)
    ensures var s := Schedule(algo, duration, delay);
      forall j :: 0 <= j < 16 ==>
        (IsServerStart(s[j]) <==> j == 3 || j == 4) && (IsClientStart(s[j]) <==> j == 5 || j == 7)
  {
    var s := Schedule(algo, duration, delay);
    forall j | 0 <= j < 16
      ensures (IsServerStart(s[j]) <==> j == 3 || j == 4) && (IsClientStart(s[j]) <==> j == 5 || j == 7)
    {
      if j < 8 {
        assert j == 0 || j == 1 || j == 2 || j == 3 || j == 4 || j == 5 || j == 6 || j == 7;
      } else {
        assert s[j] in s[8..];
      }
    }
  }

  lemma ScheduleOrder(algo: string, duration: int, delay: int, n: nat)
    requires n <= 16
    ensures var trace := Schedule(algo, duration, delay)[..n];
      ServersBeforeClients(trace) && ClientsPaired(trace, algo)
  {
    var s := Schedule(algo, duration, delay);
    var trace := s[..n];
    ScheduleStarts(algo, duration, delay);
    forall j | 0 <= j < n && IsClientStart(trace[j])
      ensures PairedClient(trace[j], algo)
      ensures exists i :: 0 <= i < j && trace[i] == Popen(trace[j].command.server, IperfServer(trace[j].command.port))
    {
      assert trace[j] == s[j] && trace[3] == s[3] && trace[4] == s[4];
      if j == 5 {
        assert trace[3] == Popen(trace[j].command.server, IperfServer(trace[j].command.port));
      } else {
        assert trace[4] == Popen(trace[j].command.server, IperfServer(trace[j].command.port));
      }
    }
  }

  lemma SleptPair(e: Event, f: Event)
    ensures Slept([e, f]) == SleepOf(e) + SleepOf(f)
  {
    assert [e, f][1..] == [f];
    assert [f][1..] == [];
    assert Slept([f]) == SleepOf(f) + Slept([]);
  }

  lemma ScheduleClock(algo: string, duration: int, delay: int, n: nat)
    requires n <= 16
    ensures ClientsEndAt(Schedule(algo, duration, delay)[..n], duration)
    ensures ClockAt(Schedule(algo, duration, delay), 16) == duration
  {
    var s := Schedule(algo, duration, delay);
    ScheduleStarts(algo, duration, delay);
    SleptNone(s[..5]);
    SleptPair(s[5], s[6]);
    SleptPair(s[7], s[8]);
    assert s[..7] == s[..5] + [s[5], s[6]];
    SleptAppend(s[..5], [s[5], s[6]]);
    forall j | 0 <= j < n && IsClientStart(s[..n][j])
      ensures ClockAt(s[..n], j) + s[..n][j].command.seconds == duration
    {
      assert s[..n][j] == s[j] && s[..n][..j] == s[..j];
    }
    var teardown := s[9..];
    SleptNone(teardown);
    assert s[..16] == s[..7] + [s[7], s[8]] + teardown;
    SleptAppend(s[..7], [s[7], s[8]]);
    SleptAppend(s[..7] + [s[7], s[8]], teardown);
  }

  /** What a run that performs the first `n` events of the schedule has done: `n` is 6 when
      the first sleep raises, 8 when the second does, and 16 when the run finishes. */
  lemma ScheduleRun(algo: string, duration: int, delay: int, n: nat)
    requires n == 6 || n == 8 || n == 16
    ensures var trace := Schedule(algo, duration, delay)[..n];
      trace[0] == SetCongestionControl(algo) && trace[1] == StartNet(ExperimentTopo())
      && trace[2] == DumpNodeConnections
      && ServersBeforeClients(trace) && ClientsPaired(trace, algo) && ClientsEndAt(trace, duration)
      && (n >= 8 ==> trace[6] == Sleep(delay))
      && (n == 16 ==> trace[8] == Sleep(duration - delay) && ClockAt(trace, |trace|) == duration && TornDown(trace))
      && (n < 16 ==> StopNet !in trace)
  {
    var s := Schedule(algo, duration, delay);
    ScheduleOrder(algo, duration, delay, n);
    ScheduleClock(algo, duration, delay, n);
    ScheduleEnd(algo, duration, delay, n);
    assert s[..n][0] == s[0] && s[..n][1] == s[1] && s[..n][2] == s[2];
    if n >= 8 {
      assert s[..n][6] == s[6];
    }
  }

  lemma ScheduleEnd(algo: string, duration: int, delay: int, n: nat)
    requires n == 6 || n == 8 || n == 16
    ensures var s := Schedule(algo, duration, delay);
      (n == 16 ==> s[..n] == s && TornDown(s)) && (n < 16 ==> StopNet !in s[..n])
  {
    var s := Schedule(algo, duration, delay);
    if n < 16 {
      assert forall k :: 0 <= k < n ==> s[..n][k] == s[k] && s[k] != StopNet;
    } else {
      assert s[..16] == s;
    }
  }

  /** `execute(algo, duration, delay)`. */
  method Execute(algo: string := "reno", duration: int := 500, delay: int := 250) returns (trace: seq<Event>, outcome: Outcome)
    // It runs to the end exactly when both sleeps are neither negative nor too long.
    ensures outcome == Finished <==> 0 <= delay <= duration && delay <= MaxSleep && duration - delay <= MaxSleep
    ensures outcome != Finished ==>
              var seconds := if SleepFault(delay).Some? then delay else duration - delay;
              SleepFault(seconds).Some? && outcome == SleepRaised(seconds, SleepFault(seconds).value)
    ensures |trace| >= 6 && trace[0] == SetCongestionControl(algo) && trace[1] == StartNet(ExperimentTopo())
    ensures trace[2] == DumpNodeConnections
    ensures ServersBeforeClients(trace) && ClientsPaired(trace, algo) && ClientsEndAt(trace, duration)
    ensures outcome == Finished ==>
              TornDown(trace) && ClockAt(trace, |trace|) == duration
              && trace[6] == Sleep(delay) && trace[8] == Sleep(duration - delay)
    ensures outcome != Finished ==> StopNet !in trace
    // The run is the schedule, cut short after the sleep that raised.
    ensures outcome == Finished ==> trace == Schedule(algo, duration, delay)
    ensures outcome != Finished ==> trace == Schedule(algo, duration, delay)[..if SleepFault(delay).Some? then 6 else 8]
  {
    ghost var schedule := Schedule(algo, duration, delay);
    trace := [SetCongestionControl(algo)];
    var topo := NewDumbbellTopo();
    trace := trace + [StartNet(topo.Current()), DumpNodeConnections];
    var processes: map<string, nat> := map[];
    var s1, r1, s2, r2 := SH1, RH1, SH2, RH2;
    processes := processes[r1 := |trace|];
    trace := trace + [Popen(r1, IperfServer(1111))];
    processes := processes[r2 := |trace|];
    trace := trace + [Popen(r2, IperfServer(2222))];
    processes := processes[s1 := |trace|];
    trace := trace + [Popen(s1, IperfClient(duration, r1, 1111, algo + "/s1.txt"))];
    assert trace == schedule[..6];
    var fault := SleepFault(delay);
    if fault.Some? {
      ScheduleRun(algo, duration, delay, 6);
      return trace, SleepRaised(delay, fault.value);
    }
    trace := trace + [Sleep(delay)];
    var remaining := duration - delay;
    processes := processes[s2 := |trace|];
    trace := trace + [Popen(s2, IperfClient(remaining, r2, 2222, algo + "/s2.txt"))];
    assert trace == schedule[..8];
    fault := SleepFault(remaining);
    if fault.Some? {
      ScheduleRun(algo, duration, delay, 8);
      return trace, SleepRaised(remaining, fault.value);
    }
    trace := trace + [Sleep(remaining)];
    trace := trace + [Wait(processes[s1]), Wait(processes[s2])];
    trace := trace + [Terminate(processes[r1]), Terminate(processes[r2])];
    trace := trace + [Wait(processes[r1]), Wait(processes[r2])];
    trace := trace + [StopNet];
    outcome := Finished;
    assert trace == schedule[..16];
    ScheduleRun(algo, duration, delay, 16);
    ScheduleEnd(algo, duration, delay, 16);
  }

  /** The script's entry point, `execute()` with its defaults: reno, 500 seconds, the second
      flow 250 seconds in. Both sleeps are valid lengths, so the run finishes. */
  method RunExperiment() returns (trace: seq<Event>, outcome: Outcome)
    ensures outcome == Finished && trace == Schedule("reno", 500, 250)
    ensures trace[6] == Sleep(250) && trace[8] == Sleep(250)
    ensures ClockAt(trace, |trace|) == 500 && TornDown(trace)
  {
    trace, outcome := Execute();
  }
}
