# jump — a Dafny model of its decisions

`jump` lists the EC2 instances of an account, shows them in a table with
the outcome of four reachability probes (ICMP, SSH, HTTP, HTTPS) per
instance, lets the operator pick one by its row number, and replaces
itself with `/usr/bin/ssh` to that instance's private address. The ssh
connection can be routed through a bastion host with an ssh `ProxyCommand`.
The AWS API call itself is sent through an ssh tunnel to the bastion, and
the program switches back to direct HTTP only after that call has
answered. The source also holds a watch mode, `Watch`, that redraws the
table in place once a second. `main` never calls it: its only call sits in
commented-out code after `main` returns. It is modelled all the same.

This project models the pure decisions inside that plumbing. Each one is a
function over strings and sequences. Effects are recorded as a trace of
events (`Trace.Event`):
- switching the HTTP transport (`ConfigureHTTP(true|false)`);
- the `DescribeInstances` call;
- drawing a table;
- moving the cursor up and clearing the screen;
- the `exec` of ssh;
- the fault that ends the process.

A `log.Fatal` or an `os.Exit(1)` becomes `Fail(f)` with exit status 1. A
Go runtime panic, such as a slice or index out of range, becomes
`Fail(f)` with exit status 2 (`Faults.ExitStatus`).

Modules:
- `Wrappers`: `Option` and `Result`.
- `Faults`: the ways the process can die.
- `Decimal`: `fmt.Sprint` of a non-negative index, and a reference reader
  for decimal text.
- `Display`: `ShowInstances`.
- `Selection`: `GetInstanceFromUser`.
- `Trace`: the events.
- `Ssh`: `InvokeSSH` and its argv.
- `Jump`: `JumpTo`.
- `WatchMode`: `Watch` and a monitor automaton for its event order.
- `InstanceMetadata`: `Metadata` and `ThisRegion`.

Behaviour of the code worth knowing, all of it modelled as written:
- Closing stdin before answering exits with status 1 (`os.Exit(1)`).
- `ThisRegion` drops the last character of the availability zone.
- Only `index >= count` is rejected. A negative index is accepted, and
  `instances[n]` then panics.
- An index given with `-n` is not checked at all.

## Model

| member | source | states |
|---|---|---|
| `Decimal.Show` | main.go:34 | The row-number cell is canonical decimal: digits only, with no leading zero. It is "0" exactly for index 0. |
| `Decimal.ReadShow` | main.go:34 | Reading the row-number cell back gives the row's index. |
| `Decimal.ShowRead` | main.go:34 | Every canonical decimal text is the cell of exactly one index, so the row number is a bijective encoding. |
| `Display.FirstShortID` | main.go:32-34 | Finds the first instance, in list order, whose ID is too short for `InstanceID[2:]`. All instances before it have IDs of at least two characters. None means every ID is long enough. |
| `Display.RowDepicts` | main.go:33-40 | A row depicts instance `i` at position `k` exactly when it is the row built for them. It has ten cells, and cell 0 reads back as `k`. The ID's first two characters followed by cell 1 give back the ID. Then come name, state, private IP, uptime and the four probe outcomes in header order. |
| `Display.ShowInstances` | main.go:25-45 | The table is drawn iff every instance ID has at least two characters. Otherwise it panics at the first short ID in list order, and nothing is drawn. The header is the fixed 10 columns. There is one row per instance, and row `k` depicts instance `k`, so input order is kept. |
| `Display.TableShape` | main.go:28-41 | The header and every row have 10 cells. Column 7 is "SSH" and holds the instance's SSH probe outcome. A table takes `len(instances) + N_TABLE_DECORATIONS` lines. |
| `Selection.GetInstanceFromUser` | main.go:47-65 | Closed stdin gives Abort. A line read together with a scanner error is rejected with that error. An unparseable line is rejected as unrecognised. A parsed `n >= max` is rejected as invalid. Otherwise `n` is accepted, so it is accepted iff it is below `max`, and a negative `n` is accepted. Rejections exit with status 1. |
| `Ssh.ProxyCommand` | main.go:73-76 | The directive is "ProxyCommand=ssh ", then the bastion, then " ncat %h %p", with a literal `%`. The bastion can be read back from it. |
| `Ssh.Argv` | main.go:71-84 | argv[0] is `/usr/bin/ssh`. With no bastion, argv is exactly `[ssh, host] + cliArgs`. With a bastion, argv[1] is `-o` and argv[2] is the proxy directive for that bastion. The host is at `\|argv\| - \|cliArgs\| - 1`, followed by `cliArgs` unchanged. |
| `Ssh.ArgvRoundTrip` | main.go:71-84 | Bastion, host and pass-through arguments can all be read back from the argv. |
| `Ssh.ParseArgvSound` | main.go:71-84 | Every argv that reads back is the one the builder makes for what it reads as. |
| `Ssh.NoBastionNoProxy` | main.go:73-78 | With an empty bastion, no `-o` comes before the pass-through arguments, unless the host itself is "-o". |
| `Ssh.InvokeSSH` | main.go:67-92 | Exec targets `/usr/bin/ssh` with the same path as argv[0]. Its argv reads back as the bastion, the instance's private IP and the arguments. A returning exec ends with `ExecFailed`. |
| `Jump.Connect` | main.go:114-123 | After the table, the run ends in one final event and never describes, renders or switches transport again. When an index is accepted, it first moves the cursor up `len + N_TABLE_DECORATIONS + 1` lines and clears the screen. Then it execs ssh to the chosen instance, or panics with index out of range when the index is outside `[0, count)`. An abort ends at once with `InputClosed`, and a rejection ends at once with its own fault. |
| `Jump.Present` | main.go:111-123 | After a successful describe, the run draws the table `ShowInstances` gives as its first event, before anything else happens. If `ShowInstances` panics, the panic is the only event. No other table is drawn, there is no further describe or transport switch, and the run ends in one final event. |
| `Jump.JumpTo` | main.go:101-124 | The trace starts with the describe. A failed describe gives exactly [Describe(false), fatal], with no table. A successful describe is always followed directly by `ConfigureHTTP(false)`, and that is the only transport switch. When `ShowInstances` succeeds, its table is drawn next, before any input is read. No other table is drawn, and the run ends in one final event. |
| `Jump.ExecTargetsChosenInstance` | main.go:114-123 | An exec happens only for an accepted, in-range index `n`. Its argv is the ssh argv for `instances[n].PrivateIP`. Before it, the cursor moves up the table's lines plus one, and the screen is cleared. |
| `Jump.TypedRowNumberSelectsRow` | main.go:114-123 | Typing the row number shown in row `k` execs ssh to instance `k`'s private IP, provided `fmt.Sscan` reads that number back. |
| `Jump.ExplicitIndexSelectsRow` | main.go:114-123 | An in-range index `k` given with `-n` execs ssh to instance `k`'s private IP. |
| `Jump.TooLargeIndexRejected` | main.go:61-63 | A typed index at or above the instance count ends the run as an invalid instance, with no exec. |
| `Jump.UnparseableFatal` | main.go:56-60 | A line that does not parse as an integer ends the run as unrecognised input, with status 1 and no exec. |
| `Jump.NegativeIndexPanics` | main.go:114-123 | A negative index, typed or given with `-n`, passes selection. It then panics with index out of range and status 2, after the screen was cleared and before any exec. Before the panic, the cursor moved up `len + N_TABLE_DECORATIONS + 1` lines. |
| `Jump.ClosedInputAborts` | main.go:49-52 | Closing stdin before answering ends the run with `InputClosed`, status 1. |
| `Jump.ExplicitIndexIgnoresInput` | main.go:114-117 | With `-n` set, the run does not depend on stdin. |
| `Jump.StdinErrorFatal` | main.go:53-55 | A scanner error reported with the first line is fatal with status 1, with no exec, whatever the line says. |
| `Jump.JumpExitStatus` | main.go:101-124 | When the run ends in a fault, the exit status is 2 (a Go panic) exactly when some instance ID is shorter than two characters, or the chosen index is outside `[0, count)` once the table is drawn. Every other fault exits with status 1. |
| `WatchMode.WatchFromMonitored` | main.go:138-163 | For any sequence of describe answers and any cursor offset, the monitor fed those answers accepts the cycles. The run either uses up every answer or halts at the first failed answer or panic. |
| `WatchMode.DescribeAfterTunnel` | main.go:140-142 | In a monitored trace, every describe comes directly after `ConfigureHTTP(true)`. |
| `WatchMode.DescribedThenDirect` | main.go:142-147 | In a monitored trace, every successful describe is directly followed by `ConfigureHTTP(false)`. |
| `WatchMode.RefusedThenHalt` | main.go:142-145 | In a monitored trace, a failed describe is directly followed by the fault, and nothing comes after it. |
| `WatchMode.Watch` | main.go:136-163 | The monitor fed `cycles` accepts the watch trace. Cycle k runs `ConfigureHTTP(true)`, then `Describe(cycles[k].Success?)`, then `ConfigureHTTP(false)`. Next the cursor moves up `len(instances of cycle k-1) + N_TABLE_DECORATIONS` lines; there is no move in the first cycle. Last, the table `ShowInstances` gives for `cycles[k]` is drawn. The trace stops at the first failed answer or panic, and otherwise uses up every answer. Each describe sits between the two switches, and a failed describe is fatal before any render. |
| `WatchMode.FirstTwoCycles` | main.go:136-162 | The first cycle draws without moving the cursor. The second moves up `len(first instances) + N_TABLE_DECORATIONS` lines before drawing. |
| `InstanceMetadata.MetadataURL` | metadata.go:9 | The URL is exactly "http://169.254.169.254/latest/meta-data/" followed by the path. |
| `InstanceMetadata.Metadata` | metadata.go:8-22 | The result has no error iff the GET of that URL returned a body, and then the value is the body unchanged. On a request or read error, the value is "" and the error is passed on. |
| `InstanceMetadata.ThisRegion` | metadata.go:24-30 | On error, the reply is passed through untruncated. An empty zone panics. A non-empty zone read without error gives a nil error and a region that is the zone less its last character: one shorter, and the zone is the region plus that character. |
| `InstanceMetadata.RegionFromZoneURL` | metadata.go:25-28 | The zone is read from `.../meta-data/placement/availability-zone`. A non-empty zone gives its proper prefix without the last character. |

## Left out

- Bastion connection and authentication are not modelled, because they are network and crypto library calls. This covers `ssh.Dial`, `addAgentAuth`, `LoadKey` and the tunnel-backed `http.Transport` set up in `main`.
- The AWS SDK client and `DescribeInstances` are abstract. The call is a `Describe(ok)` event, and its answer is a given `Result` of instances. `InstancesFromEC2Result` is folded into that given result.
- `ConfigureHTTP` is not part of this model. It appears only as an event that records its argument.
- `Instance.Name`, `Instance.PrettyState` and `fmtDuration` are not part of this model. They are uninterpreted functions carried in `Display.View`.
- Probe channels and goroutines are not modelled, because they are concurrency. Each probe outcome is the given string the channel would deliver. The goroutine that watches for stdin closure is also left out.
- Selection.GetInstanceFromUser: `fmt.Sscan` is not modelled. It is the abstract `parse` parameter, so its full grammar (signs, base prefixes, trailing text) is not modelled. `Decimal.Read` is only a reference reader for the row-number cell.
- The environment `os.Environ()` that `syscall.Exec` passes to ssh is not modelled. It is handed over unchanged, and the `Exec` event records only the path and argv.
- `syscall.Exec`, `os.Exit`, `log.Fatal` and runtime panics are not real effects here. They are the `Exec` and `Fail` events, and a failing exec is a given error string.
- Diagnostic output is not modelled, because it is logging. This covers the "Connecting to" banner, `log.Printf("exec: …")` and the text of fatal messages. The `n` argument of `InvokeSSH` feeds only that banner.
- Watch timing is not modelled, because it is wall-clock time. This covers the one-second cadence less the query time.
- WatchMode.Watch: the input is the describe answers of the cycles that start. The loop is taken to end, on stdin closure, after the last cycle's table, so at least one cycle is required. `Watch` ignores its `client` parameter and builds its own with `ec2.New(nil)`. Neither client is modelled.
- Table rendering details are not modelled, because they belong to the table library. Only the line count `len + N_TABLE_DECORATIONS` is modelled, not alignment or borders. The bytes of the ANSI escape sequences are not modelled either.
- CLI flag parsing is not modelled, including the `"<unset>"` default for the bastion flag. The `bastion` subcommand stub and the commented-out code in `main` are also left out.
- Strings are sequences of characters, each standing for one byte. `ThisRegion` drops one byte, as Go does.
