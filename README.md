# Congestion-control experiment on Mininet: a Dafny model

The repository runs a TCP congestion-control experiment on Mininet. It builds a dumbbell
network with two senders and two receivers. It starts two iperf3 flows, the second one
`delay` seconds after the first, and tears everything down. Afterwards it plots the iperf3
reports. This project models three parts of it:

- **plot_output.py** (`report_scan.dfy`, `plot_output.dfy`, `report_lines.dfy`):
  - the three regular-expression searches `Row` runs on a report line, written as leftmost
    greedy scanners and proved equal to a declarative reading of each expression;
  - `float()` on the captured text, as exact reals with its error condition;
  - the `Row` class, with its `_parse_*` methods assigning attributes in place;
  - the `read_output_file` generator, as a loop over the lines;
  - the row selection `[:-1]` and the `data[0]` label lookup of `plot_congestion` and
    `plot_bandwidth`.
- **congestion_control.py** (`topology.dfy`, `congestion_control.dfy`):
  - `pms_to_mbps`;
  - the link parameter records;
  - `DumbbellTopo.build`, over a model of Mininet's `Topo` graph builder;
  - `execute`, as the sequence of events it asks of Mininet, the shell and the clock.
- **dumbbellTopoNet.py** (`dumbbell_topo_net.dfy`): the same dumbbell built without link
  parameters, and the speeds and delays its `build` computes but never uses.

`wrappers.dfy` holds the `Option` and `Result` types.

iperf3 pads short interval ends, as in `2.00-3.00   sec`. The interval expression in
plot_output.py:25 requires exactly one space between the interval end and `sec`, so such a
line yields no interval and `read_output_file` drops it, unless the rest of the line holds an
interval of its own. `ReportLines.PaddedIntervalNotRecognised` states this. The parser keeps
each number as written next to its unit; it converts no units and shifts no samples.

## Model

| member | source | states |
|---|---|---|
| ReportScan.RunEnd | plot_output.py:20 | greedy `[0-9\.]+` from a position: every character before the returned end is a number character, and the one at the end is not |
| ReportScan.UnitAt | plot_output.py:20 | a unit is found exactly when one of `[MG]Bytes` (or `[MG]bits/sec`) is spelled at the position, and the unit found is that word |
| ReportScan.IntervalTail | plot_output.py:25 | after the dash, what `\s?([0-9\.]+) sec` captures is a non-empty number text |
| ReportScan.MatchAt | plot_output.py:20-30 | a match anchored at a position captures a non-empty number text; the interval's second group is a number text; a unit group is one of the pattern's unit words |
| ReportScan.MatchAtComplete | plot_output.py:20-30 | every way the expression can match from a position (number run, separator, unit or second number) is the match the scanner returns |
| ReportScan.MatchAtSound | plot_output.py:20-30 | whatever the scanner returns at a position is a match of the expression there |
| ReportScan.Search | plot_output.py:20 | `re.search`: a result is a match of the expression at its position with its groups, and no position before it (or anywhere, when there is no result) matches |
| ReportScan.SearchFrom | plot_output.py:20-30 | the search returns a match position with its groups, and no match starts between the starting point and that position (or the end) |
| ReportScan.SearchFindsFirst | plot_output.py:20-30 | when the first match starts at `k`, the search returns that match at `k` |
| ReportScan.SearchFindsNothing | plot_output.py:20-30 | with no match anywhere, the search returns nothing |
| ReportScan.NoMatchInRun | plot_output.py:20-30 | no match starts inside a number run, or just after it, when the pattern cannot continue from the run's end |
| ReportScan.NoMatchOutsideNumbers | plot_output.py:20-30 | no match starts at a character that is not a digit or dot |
| ReportScan.SearchShift | plot_output.py:20-30 | when no match starts in a prefix, searching the whole line finds the match in the rest, shifted by the prefix length |
| ReportScan.FoundIsLeftmost | plot_output.py:20-30 | what the search returns is a match with no match further left |
| ReportScan.LeftmostIsFound | plot_output.py:20-30 | the leftmost match is what the search returns |
| ReportScan.SearchIsLeftmostMatch | plot_output.py:20-30 | `re.search` semantics: the search returns exactly the leftmost match, and nothing exactly when the expression matches nowhere |
| ReportScan.ParseFloat | plot_output.py:21 | `float()` of a digits-and-dots text succeeds exactly when it has at least one digit and at most one dot |
| ReportScan.FormatFixedRoundTrip | plot_output.py:21 | a fixed-point text of `n` with `scale` decimals is accepted by `float()` and reads back as `n / 10^scale` |
| ReportScan.NatDigitsValue | plot_output.py:21 | the decimal digits written for `n` denote `n` |
| ReportScan.DigitsValueAppend | plot_output.py:21 | the value of two digit strings written one after the other |
| PlotOutput.Float | plot_output.py:21 | `float()` succeeds exactly when the text has a digit and at most one dot; a failure carries the text |
| PlotOutput.NumbersOf | plot_output.py:20-30 | the captured numbers of one search are all number texts |
| PlotOutput.TransferField | plot_output.py:19-22 | `_parse_transfer`: raises on the first captured number `float()` rejects; otherwise `transfer` and `transfer_unit` are set together, exactly when the volume expression matches, and the unit is `MBytes` or `GBytes` |
| PlotOutput.IntervalField | plot_output.py:24-27 | `_parse_interval`: raises on the first of its two captured numbers `float()` rejects, start before end; otherwise the two ends are set together, exactly when the interval expression matches |
| PlotOutput.BandwidthField | plot_output.py:29-32 | `_parse_bandwidth`: raises on the captured number if `float()` rejects it; otherwise `bandwidth` and `bandwidth_unit` are set together, exactly when the rate expression matches, and the unit is `Mbits/sec` or `Gbits/sec` |
| PlotOutput.TransferFieldOfMatch | plot_output.py:19-22 | with no match of `([0-9\.]+) ([MG]Bytes)` anywhere, both attributes are `None`; otherwise `float()` of group 1 of the leftmost match either raises its `ValueError` or is `transfer`, and group 2 is `transfer_unit` |
| PlotOutput.IntervalFieldOfMatch | plot_output.py:24-27 | with no match of `([0-9\.]+)-\s?([0-9\.]+) sec` anywhere, both attributes are `None`; otherwise the two groups of the leftmost match go through `float()`, the start first, and either the first rejected one raises or they are `interval_start` and `interval_end` |
| PlotOutput.BandwidthFieldOfMatch | plot_output.py:29-32 | with no match of `([0-9\.]+) ([MG]bits/sec)` anywhere, both attributes are `None`; otherwise `float()` of group 1 of the leftmost match either raises its `ValueError` or is `bandwidth`, and group 2 is `bandwidth_unit` |
| PlotOutput.ParseRow | plot_output.py:15-32 | a built row is valid exactly when the interval expression matches the line; each value is set exactly when its unit (or its partner) is; the units are the expression's words |
| PlotOutput.ParseRowOfMatches | plot_output.py:6-32 | every attribute of a built row is what the leftmost match of its expression captured, through `float()` for the numbers, and a pair is `None` when its expression matches nowhere |
| PlotOutput.ParseRowRaisesOnFirstBadNumber | plot_output.py:7-10 | a row is built exactly when every captured number converts; otherwise the error is that of the first bad one, in the order volume, interval start, interval end, rate |
| PlotOutput.ParseRowOutcome | plot_output.py:7-10 | `Row(line)` is built exactly when the volume, interval and rate parsers all succeed; otherwise it raises the first failing parser's error, in that order |
| PlotOutput.ConvertsInOrderAppend | plot_output.py:7-10 | converting two groups of numbers one after the other raises on the first bad number of both |
| PlotOutput.RowValue.IsValid | plot_output.py:15-17 | `is_valid` on a row's attributes: `interval_start is not None`; by `ParseRow`'s contract, a built row has it exactly when the interval expression matches |
| PlotOutput.Row.IsValid | plot_output.py:15-17 | `is_valid` read off the object: the same predicate on its current attributes |
| PlotOutput.Row.Unset | plot_output.py:7 | the object `__init__` starts from has no attributes set |
| PlotOutput.Row.Create | plot_output.py:7-10 | `Row(line)` gives a fresh object whose attributes are `ParseRow(line)`, or raises `ParseRow`'s error |
| PlotOutput.Row.ParseTransfer | plot_output.py:19-22 | assigns `transfer` and `transfer_unit` from `TransferField`, or raises it with nothing assigned |
| PlotOutput.Row.ParseInterval | plot_output.py:24-27 | assigns the interval pair from `IntervalField`; on a raise nothing else changes, and the start is assigned exactly when it converted, so a bad end leaves the start assigned |
| PlotOutput.Row.ParseBandwidth | plot_output.py:29-32 | assigns `bandwidth` and `bandwidth_unit` from `BandwidthField`, or raises it with nothing assigned |
| PlotOutput.Values | plot_output.py:44 | the attributes of each row, in order |
| PlotOutput.ParseLines | plot_output.py:37-38 | one `Row(line)` outcome per line, in file order |
| PlotOutput.Collect | plot_output.py:36-40 | every yielded row is valid, and there are no more rows than outcomes (that each row comes from an outcome is `CollectRowsAreResults`) |
| PlotOutput.ReadOutput | plot_output.py:36-40 | every yielded row is valid and has an interval end; there are no more rows than lines |
| PlotOutput.ReadOutputFile | plot_output.py:36-40 | the loop yields rows whose attributes are `ReadOutput`'s rows, in order, and stops with `ReadOutput`'s error |
| PlotOutput.ReadLine | plot_output.py:37-40 | one turn of the loop: without a raise, the rows so far are those of the lines up to and including this one; a raise ends the iteration with the rows and the error of the whole file |
| PlotOutput.CollectErrorFree | plot_output.py:36-40 | reading ends without error exactly when every outcome is a row |
| PlotOutput.ReadOutputErrorFree | plot_output.py:36-40 | reading a file ends without error exactly when every line makes a `Row` |
| PlotOutput.CollectStep | plot_output.py:37-40 | going through one more line: after an error nothing changes; otherwise a valid row is added, an invalid one skipped, and a raise ends the iteration with its error |
| PlotOutput.CollectSticks | plot_output.py:37-38 | once a `Row` has raised, the lines after it change nothing |
| PlotOutput.PicksValidPass | plot_output.py:39 | a last row that is not valid is passed over |
| PlotOutput.PicksValidAppend | plot_output.py:39-40 | a last row that is valid is yielded last, from the last line |
| PlotOutput.CollectRowsAreResults | plot_output.py:38-40 | every yielded row is the `Row` of one of the lines |
| PlotOutput.ParsedRowsAreComplete | plot_output.py:26-27 | every yielded row has an interval end, since start and end are set together |
| PlotOutput.CollectPicksValid | plot_output.py:36-40 | without errors, the rows are exactly the valid outcomes, in order |
| PlotOutput.ReadOutputPicksValidRows | plot_output.py:36-40 | over lines that all make a `Row`, the generator yields exactly the valid rows in file order, each from its line |
| PlotOutput.CollectStopsAtFirstError | plot_output.py:36-40 | up to the first error, the rows are those of the outcomes before it |
| PlotOutput.ReadOutputStopsAtFirstError | plot_output.py:36-40 | a line whose `Row` raises ends the iteration: the rows are those of the lines before it, followed by its error |
| PlotOutput.DropLast | plot_output.py:44 | `[:-1]`: the result followed by the last element is the input; empty stays empty |
| PlotOutput.PlotSeries | plot_output.py:43-65 | a read error fails the plot; `IndexError` exactly when there are at most one valid row; otherwise the label unit is the first row's and the points are all the rows but the last, in order |
| PlotOutput.PlotDropsLastRow | plot_output.py:56 | the plotted points followed by the last row's point are the points of all yielded rows |
| ReportLines.Layout | plot_output.py:25 | where each field of a single-spaced report line sits |
| ReportLines.IntervalOfLine | plot_output.py:25 | on a single-spaced report line the interval expression matches at the start and captures the two interval numbers |
| ReportLines.NoMatchInNumber | plot_output.py:20-30 | no match starts inside a number written into a line when the pattern cannot continue after it |
| ReportLines.NoMatchInSec | plot_output.py:20-30 | ` sec ` is not a unit, and no unit match starts inside it |
| ReportLines.NoRateInVolumeUnit | plot_output.py:30 | a volume unit is not a rate unit, and no rate match starts in it |
| ReportLines.SkipsInterval | plot_output.py:20-30 | neither unit expression matches in the interval part of a report line |
| ReportLines.SkipsVolume | plot_output.py:30 | the rate expression does not match in the volume part |
| ReportLines.TransferOfLine | plot_output.py:20 | the volume expression skips the interval and captures the volume and its unit |
| ReportLines.BandwidthOfLine | plot_output.py:30 | the rate expression skips the interval and the volume and captures the rate and its unit |
| ReportLines.ReportLineNumbers | plot_output.py:7-10 | the numbers converted from a report line are the ones written into it: volume, interval start, interval end, rate |
| ReportLines.ReportLineRoundTrip | plot_output.py:6-32 | a report line gives back exactly its numbers, unconverted, with their units, and the row is valid |
| ReportLines.ReportLineRaises | plot_output.py:7-32 | a report line with a number `float()` rejects raises on the first such number |
| ReportLines.TwoDecimalLine | plot_output.py:6-32 | a line whose numbers are printed with two decimals reads back as the hundredths printed |
| ReportLines.FixedPointLine | plot_output.py:6-32 | a line whose numbers are printed with any number of decimals per field reads back as the values printed |
| ReportLines.TwoDecimals | plot_output.py:21 | a two-decimal text of `n` converts to `n / 100` |
| ReportLines.PaddedIntervalNotRecognised | plot_output.py:25 | an interval end followed by two or more spaces before `sec` is not matched, provided the rest of the line holds no interval of its own, and the row is then invalid |
| ReportLines.NoIntervalBeforeGap | plot_output.py:25 | no interval match starts before the `sec` of such a padded interval |
| Topology.Topo.constructor | congestion_control.py:69 | a new `Topo` has no nodes and no links |
| Topology.Topo.AddSwitch | congestion_control.py:27-32 | the switch is appended and its name returned; nothing else changes |
| Topology.Topo.AddHost | congestion_control.py:35-38 | the host is appended and its name returned; nothing else changes |
| Topology.Topo.AddLink | congestion_control.py:55-61 | the link with its parameters is appended; nothing else changes |
| Topology.Dumbbell | congestion_control.py:26-61 | the graph both `build` methods produce, given the four link records: the routers `bbR1`, `bbR2`, `aR1`, `aR2`, the hosts `sH1`, `sH2`, `rH1`, `rH2`, and the seven links in the order they are added |
| Topology.Endpoints | congestion_control.py:55-61 | the endpoint pair of each link, in order |
| Topology.DumbbellShapeIgnoresOpts | congestion_control.py:55-61 | any two parameter choices give the same switches, hosts and link endpoints |
| Topology.DumbbellSize | congestion_control.py:27-38 | 4 switches, 4 hosts, 8 distinct nodes, 7 links, one fewer than nodes; every link joins two nodes |
| Topology.DumbbellHostsAreLeaves | congestion_control.py:58-61 | each host has degree 1; `sH1` and `sH2` hang off `aR1`, `rH1` and `rH2` off `aR2` |
| Topology.WalkReversed | congestion_control.py:55-61 | a walk along links reversed is a walk |
| Topology.WalksJoined | congestion_control.py:55-61 | two walks that meet make one |
| Topology.WalkToBackbone | congestion_control.py:55-61 | every node has a walk to `bbR1` |
| Topology.DumbbellConnected | congestion_control.py:55-61 | every node reaches every other node; with 7 links on 8 nodes the dumbbell is a tree |
| CongestionControl.PmsToMbps | congestion_control.py:12-15 | the conversion is 12 × packets per millisecond |
| CongestionControl.LinkRates | congestion_control.py:41-43 | 82, 21 and 80 packets/ms are 984, 252 and 960 Mbit/s |
| CongestionControl.AccessQueueLimit | congestion_control.py:46-50 | the access queue limit is 0.2 × access rate × delay, 1058.4 with the small delay |
| CongestionControl.BackboneLink | congestion_control.py:41-51 | `bb_link`: 984 Mbit/s with a 21 ms delay and no queue limit |
| CongestionControl.AccessLink | congestion_control.py:42-50 | `ar_link`: 252 Mbit/s with a queue limit of 1058.4 packets and no delay |
| CongestionControl.SourceLink | congestion_control.py:43-52 | `s_link`: 960 Mbit/s alone |
| CongestionControl.ReceiverLink | congestion_control.py:43-53 | `r_link`: 960 Mbit/s alone |
| CongestionControl.ExperimentTopo | congestion_control.py:22-61 | the graph `DumbbellTopo.build` produces: the dumbbell with those four records; `LinkParameters` and `Topology.DumbbellConnected` state its links and connectivity |
| CongestionControl.LinkParameters | congestion_control.py:50-61 | every link has a rate; only the backbone link has a delay; only the two access links have a queue limit; links of one kind share one record |
| CongestionControl.Build | congestion_control.py:22-61 | `build` appends the four routers, the four hosts and the seven parameterised links to the topology |
| Topology.DumbbellAddedInOrder | congestion_control.py:27-61 | adding the four routers, the four hosts and the seven links one at a time, in `build`'s order, extends the topology by exactly the dumbbell |
| CongestionControl.NewDumbbellTopo | congestion_control.py:69 | `DumbbellTopo()` is exactly the experiment's dumbbell |
| CongestionControl.SleptAppend | congestion_control.py:93-98 | the time slept over two event runs is the sum |
| CongestionControl.SleptNone | congestion_control.py:93-98 | runs without a sleep take no time |
| CongestionControl.Schedule | congestion_control.py:64-110 | a finishing run performs sixteen events |
| CongestionControl.ScheduleStarts | congestion_control.py:85-96 | the servers start at events 3 and 4, the clients at events 5 and 7 |
| CongestionControl.ScheduleOrder | congestion_control.py:85-96 | in every prefix of the schedule, both servers start before either client, and each client sends to a server already started on its receiver and port |
| CongestionControl.SleptPair | congestion_control.py:93-98 | two events take the time of their sleeps |
| CongestionControl.ScheduleClock | congestion_control.py:89-98 | in every prefix, each client runs until the original `duration`; the whole schedule sleeps exactly `duration` |
| CongestionControl.ScheduleEnd | congestion_control.py:101-110 | a finished run ends with the teardown; a run cut short never stops the network |
| CongestionControl.ScheduleRun | congestion_control.py:64-110 | what each of the three possible runs has done, as `Execute` promises it |
| CongestionControl.SleepFault | congestion_control.py:93-98 | `sleep(seconds)` returns exactly when `0 <= seconds <= 9223372036`; it raises `OverflowError` exactly when the length lies beyond 9,223,372,036 seconds either way (its nanoseconds do not fit a signed 64-bit integer), and `ValueError` exactly for the other negative lengths |
| CongestionControl.Execute | congestion_control.py:64-110 | called with the source's defaults (`reno`, 500, 250) when no arguments are given; it finishes exactly when `0 <= delay <= duration` and neither sleep exceeds `MaxSleep`, else it ends with the error of the first `sleep` that raises, and that sleep's length; it first sets the algorithm, starts the dumbbell and dumps connections; servers start before clients; `sH1` sends to `rH1` on 1111 and `sH2` to `rH2` on 2222, logging to `algo/s1.txt` and `algo/s2.txt`; both flows are set to end at `duration`; a finished run sleeps `delay` then `duration - delay` and tears down in the source's order; a run that raises never stops the network; the trace is exactly the 16-event `Schedule`, or its first 6 events when `sleep(delay)` raises and its first 8 when `sleep(duration - delay)` raises, so nothing after the raise happens |
| CongestionControl.RunExperiment | congestion_control.py:113-114 | the script's `execute()` with its defaults finishes, runs the full 16-event schedule, sleeps 250 then 250 seconds, ends at 500 seconds and tears everything down |
| DumbbellTopoNet.Speed | dumbbellTopoNet.py:33-39 | a computed speed is 12,000,000 × packets/ms: a million times `pms_to_mbps`, so bits/s and not Mbit/s |
| DumbbellTopoNet.SpeedsAreBitsPerSecond | dumbbellTopoNet.py:27-39 | the speeds are 984, 252, 960 and 960 million |
| DumbbellTopoNet.NetTopo | dumbbellTopoNet.py:9-54 | the graph `dumbbellTopo.build` produces: the dumbbell with no link parameters; `NetTopoIsTree` and `NetHostsAreLeaves` state its shape |
| DumbbellTopoNet.Build | dumbbellTopoNet.py:11-54 | `build` appends the routers, the hosts and the seven links without parameters |
| DumbbellTopoNet.NewTopo | dumbbellTopoNet.py:60 | `dumbbellTopo()` is exactly the parameterless dumbbell |
| DumbbellTopoNet.NoLinkParameters | dumbbellTopoNet.py:43-54 | no link has a rate, a delay or a queue limit, so the computed speeds and the delays are unused |
| DumbbellTopoNet.SameShapeAsExperiment | dumbbellTopoNet.py:48-54 | same switches, hosts and link endpoints, in order, as the experiment's topology; the two differ only in link parameters |
| DumbbellTopoNet.NetTopoIsTree | dumbbellTopoNet.py:9-54 | 8 distinct nodes, 7 links, connected: a tree |
| DumbbellTopoNet.NetHostsAreLeaves | dumbbellTopoNet.py:48-54 | every host has exactly one link |

## Left out

- Mininet itself is not part of this model: `Mininet`, `TCLink` traffic shaping, `net.start`, `net.stop`, `dumpNodeConnections` and `pingAll`. `Topo` is modelled as a graph builder, and the runtime calls are events in `Execute`'s trace.
- `set_tcp_congestion_control` runs `sysctl` through the shell. It is an operating-system side effect and is recorded as one event.
- `setLogLevel` only changes logging and is not modelled.
- Processes are not modelled: spawning `iperf3` with `nohup … &`, `wait`, `terminate` and real sleeping. Each is an event. A process is named by the position of the `Popen` that started it. Only the order of the events and the seconds slept are modelled, not timing or concurrency.
- The iperf3 command lines are a `Command` value holding what varies: the port, the duration, the server and the log path. The fixed flags `-4 -i 1 -f m` and the shell redirection are not modelled.
- `r_1.IP()` and `r_2.IP()` are modelled by the host's name, because addresses are assigned by Mininet.
- CongestionControl.Execute: durations and delays are integers. The source's `sleep` and `-t` also take floats, which the model does not cover. `duration -= delay` is written as a new local `remaining`, because Dafny parameters are immutable. The `processes` dictionary is keyed by host name rather than by node object.
- PlotOutput.ReadOutputFile: does not state that each yielded `Row` is a new object. The source creates one per line, but the proof of that frame fact was too costly next to the rest of the loop.
- File reading is the sequence of the file's lines; opening the file is not modelled.
- pandas and matplotlib are not modelled: building the frame, drawing, `ylim` and saving the figure. `PlotSeries` stops at the data handed to them.
- `Row.__str__` is float-to-string formatting and is not modelled.
- `simpleTest` in dumbbellTopoNet.py only starts and pings the network and is not modelled.
- Floating point is not modelled: all quantities are exact reals. `1000 * 12000 * 0.000001` and `0.2 * 252 * 21` may differ from 12 and 1058.4 in the last bit in Python.
- `float()` also accepts forms that `[0-9\.]+` can never capture, such as signs, exponents, `inf` and underscores. They are not modelled.
- The bare delay number handed to `addLink` is kept as written. How the link layer reads it (milliseconds or otherwise) is not modelled.
- Mininet's rejection of duplicate node names is not modelled. `Topo` is only ever given distinct names here.
