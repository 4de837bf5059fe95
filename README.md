# diskspace in Dafny

A model of the diskspace package (Go). The package keeps the disk usage of one
volume below a threshold ratio. It does this by calling a user-supplied cleanup
callback whenever a periodic check finds the volume too full.

The project has three modules:

- `GoTypes` (`gotypes.dfy`) models Go's `uint64` and `int64`, with wrap-around
  multiplication, subtraction and signed-to-unsigned conversion written out modulo
  2^64. It also has the `Option` and `Error` values the rest of the model uses.
- `Statfs` (`statfs.dfy`) models the usage prober `diskUsage` as a pure function. Its
  input is the answer of the filesystem-statistics query (an error or a
  `StatfsRecord`) and whether the platform is darwin. Its output is the `diskStatus`
  byte counts and the error.
- `Diskspace` (`diskspace.dfy`) models the rest of the package:
  - the size constants `KB` .. `YB`;
  - the defaults for `Volume`, `Threshold` and `CheckInterval`;
  - one check-and-maintain cycle (`maintainDiskUsage`), as a pure function `Cycle` of
    what the prober and the callback answer;
  - the `Maintainer` class, whose methods `ApplyDefaults`, `MaintainDiskUsage`,
    `Maintain` and `MaintainOnTicks` update its fields in place;
  - two oracle classes standing in for the world outside the package:
    - `Filesystem` answers the k-th statistics query from a script and records the
      path of every query;
    - `Cleaner` answers its c-th call from a script and counts its calls.

The methods are proved against the functions. `MaintainDiskUsage` returns exactly the
`Cycle` that the oracles' next answers determine, and it records exactly the queries
and cleanup calls that this cycle makes. `Maintain` runs `ticks + 1` such cycles (the
immediate one and one per tick) before cancellation. Its report is exactly `Run` of the
cycle function, starting from the oracles' counters. Every query is for the maintained
volume, and the callback is called once per cycle that cleaned.

`used <= all` is not an invariant of `diskStatus`. `diskUsage` guarantees it when the
unused block count does not exceed the total and `blocks * bsize` does not overflow
(`Statfs.UsedWithinTotal`); otherwise the subtraction wraps around, as in Go.

## Model

| member | source | states |
|---|---|---|
| GoTypes.AsUint64 | statfs.go:23-25 | `uint64(x)` of a signed value keeps non-negative values and adds 2^64 to negative ones |
| GoTypes.Mul | statfs.go:23-25 | uint64 product: exact when it fits, otherwise congruent to the true product modulo 2^64 |
| GoTypes.Sub | statfs.go:27-32 | uint64 difference: exact when b <= a, a - b + 2^64 otherwise |
| GoTypes.SubOfMuls | statfs.go:22-32 | wrap-around subtraction of two scaled counts equals the scaled wrap-around difference |
| Statfs.DiskUsage | statfs.go:16-34 | a failed query gives the zero status and the query's error; otherwise total, available and free are block counts times the block size mod 2^64, and used is total minus available (darwin) or minus free (elsewhere) mod 2^64, with no error |
| Statfs.UsedIsScaledDifference | statfs.go:22-32 | used equals (blocks - unused blocks) * block size in uint64 arithmetic, on every platform |
| Statfs.UsedWithinTotal | statfs.go:22-32 | without overflow and with unused <= total blocks: used <= total, total is the exact product, used plus the unused bytes equals total |
| Statfs.PlatformOnlyAffectsUsed | statfs.go:27-32 | darwin and other platforms agree on the error, total, available and free; only used differs |
| Diskspace.SizeUnitIsShift | diskspace.go:140-151 | the iota-th size unit equals `1 << (10 * iota)`, the expression the constants are declared with |
| Diskspace.SizeConstants | diskspace.go:140-151 | KB is 1024, MB .. YB each 1024 times the previous constant, MB is 2^20 |
| Diskspace.WithDefaults | diskspace.go:46-54 | empty volume becomes "/", threshold outside (0, 1) becomes 0.9, non-positive interval becomes 10 minutes, valid values are kept, and the result is always valid |
| Diskspace.WithDefaultsFixesExactlyInvalid | diskspace.go:46-54 | applying the defaults leaves a configuration unchanged if and only if it is already valid |
| Diskspace.WithDefaultsIdempotent | diskspace.go:46-54 | applying the defaults twice equals applying them once |
| Diskspace.ToMB | diskspace.go:98-99 | integer division by MB truncates: mb * MB <= bytes < (mb + 1) * MB |
| Diskspace.BelowThreshold | diskspace.go:100-105 | usedMB / totalMB < threshold over exact reals; an empty volume (totalMB = 0) is never below, and an unused non-empty volume is below exactly when the threshold is positive |
| Diskspace.BelowThresholdIff | diskspace.go:100-105 | the ratio test holds exactly when the volume is non-empty and usedMB < threshold * totalMB; an empty volume is never below the threshold |
| Diskspace.CleanError | diskspace.go:114-117 | the returned error's message is "clean: " followed by the callback's message |
| Diskspace.Cycle | diskspace.go:89-132 | the callback is called exactly when the first probe succeeds and the truncated ratio is not below the threshold; a second probe happens exactly when the callback succeeded; the cycle returns nil exactly when the first probe succeeded and either the ratio was below the threshold or both the callback and the second probe succeeded |
| Diskspace.FirstProbeFailure | diskspace.go:94-97 | a failed first probe returns its error, with one probe and no cleanup call |
| Diskspace.NoCleanBelowThreshold | diskspace.go:100-105 | below the threshold the cycle returns nil after one probe and no cleanup call |
| Diskspace.EmptyVolumeIsCleaned | diskspace.go:98-105 | a volume whose total is under one MiB always gets the cleanup call |
| Diskspace.CleanFailure | diskspace.go:113-117 | a failing callback is called once, its error is returned with the prefix `clean: `, and no second probe follows |
| Diskspace.AfterCleanSuccess | diskspace.go:119-131 | after a successful cleanup there are two probes; a failed second probe's error is returned; otherwise nil, with freed = (used - newUsed) mod 2^64, the true difference when usage did not grow |
| Diskspace.NinetyFivePercentIsCleaned | diskspace.go:98-105 | a 100 MiB volume with 95 MiB used is cleaned at threshold 0.9 |
| Diskspace.EightyPercentIsLeftAlone | diskspace.go:98-105 | a 100 MiB volume with 80 MiB used is left alone at threshold 0.9 |
| Diskspace.Run | diskspace.go:64-86 | a run of n cycles has one report per cycle: a failed cycle does not end the run |
| Diskspace.RunCycleAt | diskspace.go:74-86 | the j-th cycle of a run is the one determined by the query and cleanup counts the earlier cycles left |
| Diskspace.CallsPerCycle | diskspace.go:89-132 | over any run: between one and two queries per cycle, at most one cleanup call per cycle, and each second query follows a cleanup call |
| Diskspace.Filesystem.Statfs | statfs.go:18 | the query answers its next scripted answer for the path and records the path |
| Diskspace.Cleaner.Clean | diskspace.go:114 | the callback returns its next scripted outcome and counts the call |
| Diskspace.Maintainer.ApplyDefaults | diskspace.go:46-57 | the settings become WithDefaults of the old settings, a nil logger becomes the no-op logger, the callback is kept |
| Diskspace.Maintainer.MaintainDiskUsage | diskspace.go:89-132 | the report is the Cycle the oracles' next answers determine; the queries made are that cycle's probes, all for the volume; the cleanup calls are that cycle's cleanup calls |
| Diskspace.Maintainer.MaintainOnTicks | diskspace.go:70-86 | one cycle per tick, each determined by the counters the previous ones left; the recorded queries and cleanup calls are the run's totals |
| Diskspace.Maintainer.Maintain | diskspace.go:42-87 | panics with "nil Clean function" before changing anything when the callback is nil; otherwise applies the defaults and runs the immediate cycle plus one per tick, recording exactly their queries and cleanup calls |

## Left out

- The mutex (diskspace.go:34, 91-92) is not modelled. The model is sequential, so no two cycles of one Maintainer overlap anyway.
- Logging is not modelled. The zap messages are left out; the logger field only records whether the no-op logger was installed or the caller's was kept.
- Timing is not modelled. The ticker is abstracted: cancellation arrives after a given number of ticks, and the check interval is only checked to be positive. Tick dropping under a slow callback, and the race between a tick and cancellation, are concurrency and are not modelled. `ticker.Stop` has no observable effect in the model.
- The `continue` after a failed cycle (diskspace.go:80) is the same as ending that loop iteration; the model goes on to the next tick in both cases.
- The statfs system call and `runtime.GOOS` are inputs: the query's answer is scripted per call, and darwin is a boolean.
- Diskspace.BelowThreshold: computes the ratio over exact reals rather than float64. The float64 rounding of the quotient `float64(usedMB) / float64(totalMB)` and of the threshold is not reproduced, so a ratio within rounding distance of the threshold may compare differently. A NaN threshold, which Go keeps because both of its range comparisons are false, cannot be expressed.
- Diskspace.Maintainer.Maintain: does not model a run that is never cancelled. Each call runs a finite number of ticks.
