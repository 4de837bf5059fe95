/**
 * The maintainer: keeps the disk usage of one volume under a threshold ratio by
 * calling a cleanup callback whenever a check finds the volume too full.
 *
 * The operating system's statistics query and the cleanup callback are oracles
 * (classes Filesystem and Cleaner) that answer from a script indexed by call number
 * and record every call, so that contracts can say exactly which calls a cycle makes.
 */
module Diskspace {
  import opened GoTypes
  import opened Statfs

  // ---------------------------------------------------------------------------
  // Size constants: KB, MB, ... are 1 << (10 * iota) for iota = 1, 2, ...

  function Pow2(n: nat): (r: nat)
    ensures 1 <= r
  {
    if n == 0 then 1 else 2 * Pow2(n - 1)
  }

  lemma {:induction false} Pow2Add(a: nat, b: nat)
    ensures Pow2(a + b) == Pow2(a) * Pow2(b)
  {
    if a > 0 {
      Pow2Add(a - 1, b);
      assert Pow2(a + b) == 2 * (Pow2(a - 1) * Pow2(b));
    }
  }

  /** The iota-th size unit: 1 for iota = 0, and 1024 times the previous unit after that. */
  function SizeUnit(iota: nat): nat {
    if iota == 0 then 1 else 1024 * SizeUnit(iota - 1)
  }

  const KB: nat := SizeUnit(1)
  const MB: nat := SizeUnit(2)
  const GB: nat := SizeUnit(3)
  const TB: nat := SizeUnit(4)
  const PB: nat := SizeUnit(5)
  const EB: nat := SizeUnit(6)
  const ZB: nat := SizeUnit(7)
  const YB: nat := SizeUnit(8)

  /** Each size unit is the shift 1 << (10 * iota) that defines the constants. */
  lemma {:induction false} SizeUnitIsShift(iota: nat)
    ensures SizeUnit(iota) == Pow2(10 * iota)
  {
    if iota > 0 {
      SizeUnitIsShift(iota - 1);
      Pow2Add(10 * (iota - 1), 10);
      assert Pow2(10) == 1024;
    }
  }

  /** KB is 2^10 and each later constant is 1024 times the previous one; MB is 2^20. */
  lemma SizeConstants()
    ensures KB == 1024 && MB == 1024 * KB && GB == 1024 * MB && TB == 1024 * GB
    ensures PB == 1024 * TB && EB == 1024 * PB && ZB == 1024 * EB && YB == 1024 * ZB
    ensures MB == 0x10_0000
  {
  }

  // ---------------------------------------------------------------------------
  // Configuration and its defaults

  /** time.Duration counts nanoseconds. */
  const Minute: int := 60 * 1_000_000_000

  const DefaultVolume: string := "/"
  const DefaultThreshold: real := 0.9
  const DefaultCheckInterval: Int64 := 10 * Minute

  /** The settings a maintainer reads: the volume, the check interval and the threshold ratio. */
  datatype Config = Config(volume: string, checkInterval: Int64, threshold: real)

  ghost predicate ValidConfig(c: Config) {
    c.volume != "" && 0 < c.checkInterval && 0.0 < c.threshold < 1.0
  }

  /**
   * The settings after defaults are applied: an empty volume becomes "/", a threshold
   * outside (0, 1) becomes 0.9, a non-positive interval becomes ten minutes, and a value
   * that is already acceptable is kept.
   */
  function WithDefaults(c: Config): (d: Config)
    ensures ValidConfig(d)
    ensures c.volume != "" ==> d.volume == c.volume
    ensures c.volume == "" ==> d.volume == DefaultVolume
    ensures 0.0 < c.threshold < 1.0 ==> d.threshold == c.threshold
    ensures !(0.0 < c.threshold < 1.0) ==> d.threshold == DefaultThreshold
    ensures 0 < c.checkInterval ==> d.checkInterval == c.checkInterval
    ensures c.checkInterval <= 0 ==> d.checkInterval == DefaultCheckInterval
  {
    var volume := if c.volume == "" then DefaultVolume else c.volume;
    var threshold := if c.threshold <= 0.0 || c.threshold >= 1.0 then DefaultThreshold else c.threshold;
    var interval := if c.checkInterval <= 0 then DefaultCheckInterval else c.checkInterval;
    Config(volume, interval, threshold)
  }

  /** Applying the defaults changes a configuration exactly when it is not yet valid. */
  lemma WithDefaultsFixesExactlyInvalid(c: Config)
    ensures WithDefaults(c) == c <==> ValidConfig(c)
  {
  }

  /** Applying the defaults twice is the same as applying them once. */
  lemma WithDefaultsIdempotent(c: Config)
    ensures WithDefaults(WithDefaults(c)) == WithDefaults(c)
  {
    WithDefaultsFixesExactlyInvalid(WithDefaults(c));
  }

  // ---------------------------------------------------------------------------
  // One check-and-maintain cycle, as a function of what the oracles answer

  /** A byte count truncated to whole mebibytes. */
  function ToMB(bytes: Uint64): (mb: Uint64)
    ensures mb * MB <= bytes < mb * MB + MB
  {
    SizeConstants();
    bytes / MB
  }

  /**
   * Whether the used fraction usedMB / totalMB is strictly below the threshold. When
   * totalMB is 0 the floating-point quotient is NaN or +Inf, which never compares below
   * a threshold, so an empty volume counts as full.
   */
  predicate BelowThreshold(usedMB: Uint64, totalMB: Uint64, threshold: real)
    ensures totalMB == 0 ==> !BelowThreshold(usedMB, totalMB, threshold)
    ensures usedMB == 0 && 0 < totalMB ==> (BelowThreshold(usedMB, totalMB, threshold) <==> 0.0 < threshold)
  {
    totalMB != 0 && (usedMB as real) / (totalMB as real) < threshold
  }

  /** The ratio test, without division: usedMB < threshold * totalMB on a non-empty volume. */
  lemma BelowThresholdIff(usedMB: Uint64, totalMB: Uint64, threshold: real)
    ensures BelowThreshold(usedMB, totalMB, threshold)
        <==> 0 < totalMB && (usedMB as real) < threshold * (totalMB as real)
  {
    if 0 < totalMB {
      var u, t := usedMB as real, totalMB as real;
      assert u == (u / t) * t;
      if u / t < threshold {
        assert (u / t) * t < threshold * t;
      } else {
        assert threshold * t <= (u / t) * t;
      }
    }
  }

  /** The error the cycle returns when cleaning fails: fmt.Errorf("clean: %v", cause). */
  function CleanError(cause: Error): (e: Error)
    ensures |e.message| == 7 + |cause.message|
    ensures e.message[..7] == "clean: " && e.message[7..] == cause.message
  {
    Error("clean: " + cause.message)
  }

  /** What one cycle did, with the values it logged. */
  datatype CycleReport =
    | ProbeFailed(err: Error)                              // the first probe failed
    | NotFull(totalMB: Uint64, usedMB: Uint64)             // below threshold: nothing to do
    | CleanFailed(totalMB: Uint64, usedMB: Uint64, cause: Error)
    | ReprobeFailed(totalMB: Uint64, usedMB: Uint64, err: Error)
    | Cleaned(totalMB: Uint64, usedMB: Uint64, newUsedMB: Uint64, freedMB: Uint64)
  {
    /** The error the cycle returns (None for nil). */
    function Returned(): Option<Error> {
      match this
      case ProbeFailed(e) => Some(e)
      case NotFull(_, _) => None
      case CleanFailed(_, _, cause) => Some(CleanError(cause))
      case ReprobeFailed(_, _, e) => Some(e)
      case Cleaned(_, _, _, _) => None
    }

    /** How many times the cycle queried the filesystem statistics. */
    function Probes(): nat {
      if ReprobeFailed? || Cleaned? then 2 else 1
    }

    /** How many times the cycle called the cleanup callback. */
    function CleanCalls(): nat {
      if ProbeFailed? || NotFull? then 0 else 1
    }
  }

  /**
   * One cycle, given the first probe's answer, what the cleanup callback would return
   * and the second probe's answer (each consulted only if the cycle gets that far).
   * Cleaning happens exactly when the first probe succeeds and its truncated ratio is
   * not below the threshold; the second probe happens exactly when cleaning succeeds.
   */
  function Cycle(threshold: real, first: Usage, cleanErr: Option<Error>, second: Usage): (r: CycleReport)
    ensures r.CleanCalls() == 1
        <==> first.err == None && !BelowThreshold(ToMB(first.status.used), ToMB(first.status.all), threshold)
    ensures r.Probes() == 2 <==> r.CleanCalls() == 1 && cleanErr == None
    ensures r.Returned() == None
        <==> first.err == None
             && (BelowThreshold(ToMB(first.status.used), ToMB(first.status.all), threshold)
                 || (cleanErr == None && second.err == None))
  {
    if first.err.Some? then ProbeFailed(first.err.value)
    else
      var totalMB := ToMB(first.status.all);
      var usedMB := ToMB(first.status.used);
      if BelowThreshold(usedMB, totalMB, threshold) then NotFull(totalMB, usedMB)
      else if cleanErr.Some? then CleanFailed(totalMB, usedMB, cleanErr.value)
      else if second.err.Some? then ReprobeFailed(totalMB, usedMB, second.err.value)
      else
        var newUsedMB := ToMB(second.status.used);
        Cleaned(totalMB, usedMB, newUsedMB, Sub(usedMB, newUsedMB))
  }

  /** A failed first probe is returned as is; nothing is cleaned and nothing re-probed. */
  lemma FirstProbeFailure(threshold: real, e: Error, cleanErr: Option<Error>, second: Usage)
    ensures var r := Cycle(threshold, Usage(ZeroStatus, Some(e)), cleanErr, second);
      r.Returned() == Some(e) && r.Probes() == 1 && r.CleanCalls() == 0
  {
  }

  /** Below the threshold the cycle succeeds after a single probe, without cleaning. */
  lemma NoCleanBelowThreshold(threshold: real, first: Usage, cleanErr: Option<Error>, second: Usage)
    requires first.err == None
    requires BelowThreshold(ToMB(first.status.used), ToMB(first.status.all), threshold)
    ensures var r := Cycle(threshold, first, cleanErr, second);
      r == NotFull(ToMB(first.status.all), ToMB(first.status.used))
      && r.Returned() == None && r.Probes() == 1 && r.CleanCalls() == 0
  {
  }

  /** A volume that reports less than one whole MiB in total is always cleaned. */
  lemma EmptyVolumeIsCleaned(threshold: real, first: Usage, cleanErr: Option<Error>, second: Usage)
    requires first.err == None && first.status.all < MB
    ensures Cycle(threshold, first, cleanErr, second).CleanCalls() == 1
  {
    SizeConstants();
    assert ToMB(first.status.all) == 0;
  }

  /** A failing cleanup is called once and its error returned wrapped; there is no second probe. */
  lemma CleanFailure(threshold: real, first: Usage, cause: Error, second: Usage)
    requires first.err == None
    requires !BelowThreshold(ToMB(first.status.used), ToMB(first.status.all), threshold)
    ensures var r := Cycle(threshold, first, Some(cause), second);
      r.Returned() == Some(CleanError(cause)) && r.Probes() == 1 && r.CleanCalls() == 1
  {
  }

  /**
   * After a successful cleanup there is exactly one more probe: its failure is returned,
   * its success ends the cycle without error, reporting the uint64 difference of the
   * truncated used sizes as freed (the true difference when usage did not grow).
   */
  lemma AfterCleanSuccess(threshold: real, first: Usage, second: Usage)
    requires first.err == None
    requires !BelowThreshold(ToMB(first.status.used), ToMB(first.status.all), threshold)
    ensures var r := Cycle(threshold, first, None, second);
      && r.Probes() == 2 && r.CleanCalls() == 1
      && r.Returned() == second.err
      && (second.err == None ==>
            var usedMB, newUsedMB := ToMB(first.status.used), ToMB(second.status.used);
            && r.Cleaned?
            && r.freedMB == (usedMB - newUsedMB) % TWO_TO_THE_64
            && (newUsedMB <= usedMB ==> r.freedMB + newUsedMB == usedMB))
  {
  }

  /** A 100 MiB volume with 5 MiB free is 95% used and, at threshold 0.9, gets cleaned. */
  lemma NinetyFivePercentIsCleaned(cleanErr: Option<Error>, second: Usage)
    ensures var probe := DiskUsage(StatfsOk(StatfsRecord(25600, 1280, 1280, 4096)), false);
      Cycle(0.9, probe, cleanErr, second).CleanCalls() == 1
  {
    SizeConstants();
    var probe := DiskUsage(StatfsOk(StatfsRecord(25600, 1280, 1280, 4096)), false);
    assert ToMB(probe.status.all) == 100 && ToMB(probe.status.used) == 95;
  }

  /** A 100 MiB volume with 20 MiB free is 80% used and, at threshold 0.9, is left alone. */
  lemma EightyPercentIsLeftAlone(cleanErr: Option<Error>, second: Usage)
    ensures var probe := DiskUsage(StatfsOk(StatfsRecord(25600, 5120, 5120, 4096)), false);
      Cycle(0.9, probe, cleanErr, second).CleanCalls() == 0
  {
    SizeConstants();
    var probe := DiskUsage(StatfsOk(StatfsRecord(25600, 5120, 5120, 4096)), false);
    assert ToMB(probe.status.all) == 100 && ToMB(probe.status.used) == 80;
  }

  // ---------------------------------------------------------------------------
  // Successive cycles, as a function of the oracles' scripts

  /**
   * The cycle that runs when the statistics query has already been made k times and
   * the cleanup callback called c times: the query answers with its k-th (and, after
   * a cleanup, its (k+1)-th) scripted answer, the callback with its c-th outcome.
   */
  function CycleAt(cfg: Config, isDarwin: bool, answers: (string, nat) -> StatfsResult,
                   outcomes: nat -> Option<Error>, k: nat, c: nat): CycleReport
  {
    Cycle(cfg.threshold, DiskUsage(answers(cfg.volume, k), isDarwin), outcomes(c),
          DiskUsage(answers(cfg.volume, k + 1), isDarwin))
  }

  /** The cycle CycleAt determines, as a function of the two call counters. */
  function CycleStep(cfg: Config, isDarwin: bool, answers: (string, nat) -> StatfsResult,
                     outcomes: nat -> Option<Error>): (nat, nat) -> CycleReport
  {
    (k: nat, c: nat) => CycleAt(cfg, isDarwin, answers, outcomes, k, c)
  }

  /**
   * The reports of n successive cycles, where step(k, c) is the cycle that runs after
   * k statistics queries and c cleanup calls: the first cycle, then the n - 1 cycles
   * that start where it left the counters. There is one report per cycle: a cycle that
   * fails does not stop the ones after it.
   */
  function Run(step: (nat, nat) -> CycleReport, k: nat, c: nat, n: nat): (rs: seq<CycleReport>)
    ensures |rs| == n
    decreases n
  {
    if n == 0 then []
    else
      var r := step(k, c);
      [r] + Run(step, k + r.Probes(), c + r.CleanCalls(), n - 1)
  }

  /**
   * Each cycle of a run is the one that the counters left by the cycles before it
   * determine: the j-th cycle runs after the initial counts plus the queries and
   * cleanup calls of cycles 0 .. j - 1.
   */
  lemma {:induction false} RunCycleAt(step: (nat, nat) -> CycleReport, k: nat, c: nat, n: nat, j: nat)
    requires j < n
    ensures var rs := Run(step, k, c, n);
      rs[j] == step(k + TotalProbes(rs[..j]), c + TotalCleanCalls(rs[..j]))
    decreases j
  {
    var rs := Run(step, k, c, n);
    var r := step(k, c);
    var k1, c1 := k + r.Probes(), c + r.CleanCalls();
    var rest := Run(step, k1, c1, n - 1);
    RunPrepend(step, k, c, n, r, k1, c1, rest);
    if j == 0 {
      assert rs[..j] == [];
      assert TotalProbes(rs[..j]) == 0 && TotalCleanCalls(rs[..j]) == 0;
    } else {
      RunCycleAt(step, k1, c1, n - 1, j - 1);
      PrependedCycleAt(step, k, c, r, k1, c1, rest, j);
    }
  }

  /** The inductive step of RunCycleAt: putting the first cycle in front shifts every index by one. */
  lemma PrependedCycleAt(step: (nat, nat) -> CycleReport, k: nat, c: nat, r: CycleReport,
                         k1: nat, c1: nat, rest: seq<CycleReport>, j: nat)
    requires r == step(k, c) && k1 == k + r.Probes() && c1 == c + r.CleanCalls()
    requires 0 < j <= |rest|
    requires rest[j - 1] == step(k1 + TotalProbes(rest[..j - 1]), c1 + TotalCleanCalls(rest[..j - 1]))
    ensures var rs := [r] + rest;
      rs[j] == step(k + TotalProbes(rs[..j]), c + TotalCleanCalls(rs[..j]))
  {
    var rs := [r] + rest;
    assert rs[..j] == [r] + rest[..j - 1];
    TotalsPrepend(r, rest[..j - 1]);
    assert k + TotalProbes(rs[..j]) == k1 + TotalProbes(rest[..j - 1]);
    assert c + TotalCleanCalls(rs[..j]) == c1 + TotalCleanCalls(rest[..j - 1]);
  }

  /** The call counts of a run that starts with cycle r. */
  lemma TotalsPrepend(r: CycleReport, rs: seq<CycleReport>)
    ensures TotalProbes([r] + rs) == r.Probes() + TotalProbes(rs)
    ensures TotalCleanCalls([r] + rs) == r.CleanCalls() + TotalCleanCalls(rs)
  {
    TotalsAppend([r], rs);
    TotalsLast([], r);
    assert [] + [r] == [r];
  }

  /**
   * A run split into the cycles done and the cycles still to come stays split when the
   * next cycle to come is done, and the calls recorded so far stay those of the cycles
   * done.
   */
  lemma NextCycle(step: (nat, nat) -> CycleReport, q0: seq<string>, c0: nat, n: nat, volume: string,
                  done: seq<CycleReport>, q: seq<string>, c: nat, left: nat,
                  r: CycleReport, q': seq<string>, c': nat)
    requires done + Run(step, |q|, c, left) == Run(step, |q0|, c0, n)
    requires q == q0 + Repeat(volume, TotalProbes(done)) && c == c0 + TotalCleanCalls(done)
    requires 0 < left && r == step(|q|, c)
    requires q' == q + Repeat(volume, r.Probes()) && c' == c + r.CleanCalls()
    ensures (done + [r]) + Run(step, |q'|, c', left - 1) == Run(step, |q0|, c0, n)
    ensures q' == q0 + Repeat(volume, TotalProbes(done + [r]))
    ensures c' == c0 + TotalCleanCalls(done + [r])
  {
    RunAdvance(step, |q0|, c0, n, done, |q|, c, left, r, |q'|, c');
    CallsAdvance(q0, c0, volume, done, q, c, r, q', c');
  }

  /** The run part of NextCycle. */
  lemma RunAdvance(step: (nat, nat) -> CycleReport, k0: nat, c0: nat, n: nat,
                   done: seq<CycleReport>, k: nat, c: nat, left: nat,
                   r: CycleReport, k': nat, c': nat)
    requires done + Run(step, k, c, left) == Run(step, k0, c0, n)
    requires 0 < left && r == step(k, c) && k' == k + r.Probes() && c' == c + r.CleanCalls()
    ensures (done + [r]) + Run(step, k', c', left - 1) == Run(step, k0, c0, n)
  {
    var later := Run(step, k', c', left - 1);
    assert (done + [r]) + later == done + ([r] + later);
  }

  /** The recorded calls part of NextCycle. */
  lemma CallsAdvance(q0: seq<string>, c0: nat, volume: string, done: seq<CycleReport>,
                     q: seq<string>, c: nat, r: CycleReport, q': seq<string>, c': nat)
    requires q == q0 + Repeat(volume, TotalProbes(done)) && c == c0 + TotalCleanCalls(done)
    requires q' == q + Repeat(volume, r.Probes()) && c' == c + r.CleanCalls()
    ensures q' == q0 + Repeat(volume, TotalProbes(done + [r]))
    ensures c' == c0 + TotalCleanCalls(done + [r])
  {
    TotalsLast(done, r);
    RepeatAdd(volume, TotalProbes(done), r.Probes());
    assert q' == q0 + (Repeat(volume, TotalProbes(done)) + Repeat(volume, r.Probes()));
  }

  /**
   * The first cycle followed by the cycles of the ticks that come after it is the run
   * of one more cycle, and the calls they recorded add up.
   */
  lemma FirstCycleThenTicks(step: (nat, nat) -> CycleReport, volume: string, ticks: nat,
                            q0: seq<string>, c0: nat, r: CycleReport, q1: seq<string>, c1: nat,
                            later: seq<CycleReport>, q2: seq<string>, c2: nat)
    requires r == step(|q0|, c0)
    requires q1 == q0 + Repeat(volume, r.Probes()) && c1 == c0 + r.CleanCalls()
    requires later == Run(step, |q1|, c1, ticks)
    requires q2 == q1 + Repeat(volume, TotalProbes(later)) && c2 == c1 + TotalCleanCalls(later)
    ensures [r] + later == Run(step, |q0|, c0, ticks + 1)
    ensures q2 == q0 + Repeat(volume, TotalProbes([r] + later))
    ensures c2 == c0 + TotalCleanCalls([r] + later)
  {
    assert ticks + 1 - 1 == ticks;
    RunPrepend(step, |q0|, c0, ticks + 1, r, |q1|, c1, later);
    TotalsPrepend(r, []);
    assert [r] + [] == [r];
    CallsAppend(q0, c0, volume, [r], q1, c1, later, q2, c2);
  }

  /** A run of n > 0 cycles is its first cycle followed by the n - 1 cycles after it. */
  lemma RunPrepend(step: (nat, nat) -> CycleReport, k: nat, c: nat, n: nat,
                   r: CycleReport, k': nat, c': nat, later: seq<CycleReport>)
    requires 0 < n
    requires r == step(k, c) && k' == k + r.Probes() && c' == c + r.CleanCalls()
    requires later == Run(step, k', c', n - 1)
    ensures [r] + later == Run(step, k, c, n)
  {
  }

  /** The calls recorded by two consecutive runs of cycles add up. */
  lemma CallsAppend(q0: seq<string>, c0: nat, volume: string, done: seq<CycleReport>,
                    q: seq<string>, c: nat, later: seq<CycleReport>, q': seq<string>, c': nat)
    requires q == q0 + Repeat(volume, TotalProbes(done)) && c == c0 + TotalCleanCalls(done)
    requires q' == q + Repeat(volume, TotalProbes(later)) && c' == c + TotalCleanCalls(later)
    ensures q' == q0 + Repeat(volume, TotalProbes(done + later))
    ensures c' == c0 + TotalCleanCalls(done + later)
  {
    TotalsAppend(done, later);
    RepeatAdd(volume, TotalProbes(done), TotalProbes(later));
    assert q' == q0 + (Repeat(volume, TotalProbes(done)) + Repeat(volume, TotalProbes(later)));
  }

  /** The call counts of a run grow by those of the cycle appended to it. */
  lemma TotalsLast(rs: seq<CycleReport>, r: CycleReport)
    ensures TotalProbes(rs + [r]) == TotalProbes(rs) + r.Probes()
    ensures TotalCleanCalls(rs + [r]) == TotalCleanCalls(rs) + r.CleanCalls()
  {
    assert (rs + [r])[..|rs|] == rs;
  }

  /** The number of statistics queries a run of cycles made. */
  function TotalProbes(rs: seq<CycleReport>): nat {
    if rs == [] then 0 else TotalProbes(rs[..|rs| - 1]) + rs[|rs| - 1].Probes()
  }

  /** The number of cleanup calls a run of cycles made. */
  function TotalCleanCalls(rs: seq<CycleReport>): nat {
    if rs == [] then 0 else TotalCleanCalls(rs[..|rs| - 1]) + rs[|rs| - 1].CleanCalls()
  }

  /**
   * Over any run of cycles: at least one and at most two queries per cycle, at most
   * one cleanup call per cycle, and every query beyond the first of a cycle follows
   * a cleanup call.
   */
  lemma {:induction false} CallsPerCycle(rs: seq<CycleReport>)
    ensures |rs| <= TotalProbes(rs) <= 2 * |rs|
    ensures TotalCleanCalls(rs) <= |rs|
    ensures TotalProbes(rs) - |rs| <= TotalCleanCalls(rs)
  {
    if rs != [] {
      CallsPerCycle(rs[..|rs| - 1]);
    }
  }

  /** The call counts of two consecutive runs of cycles add up. */
  lemma {:induction false} TotalsAppend(a: seq<CycleReport>, b: seq<CycleReport>)
    ensures TotalProbes(a + b) == TotalProbes(a) + TotalProbes(b)
    ensures TotalCleanCalls(a + b) == TotalCleanCalls(a) + TotalCleanCalls(b)
  {
    if b == [] {
      assert a + b == a;
    } else {
      TotalsAppend(a, b[..|b| - 1]);
      assert (a + b)[..|a + b| - 1] == a + b[..|b| - 1];
    }
  }

  /** A path repeated n times: the queries of a run are all for the maintained volume. */
  function Repeat(path: string, n: nat): (s: seq<string>)
    ensures |s| == n
    ensures forall i | 0 <= i < n :: s[i] == path
  {
    if n == 0 then [] else Repeat(path, n - 1) + [path]
  }

  lemma RepeatAdd(path: string, a: nat, b: nat)
    ensures Repeat(path, a + b) == Repeat(path, a) + Repeat(path, b)
  {
  }

  // ---------------------------------------------------------------------------
  // The oracles

  /**
   * The operating system as the maintainer sees it: whether it is darwin, and the
   * statistics query, which answers its k-th call (for whatever path) from a script
   * and records the path of every call.
   */
  class Filesystem {
    const isDarwin: bool
    const answers: (string, nat) -> StatfsResult
    var queried: seq<string>

    constructor (isDarwin: bool, answers: (string, nat) -> StatfsResult)
      ensures this.isDarwin == isDarwin && this.answers == answers && queried == []
    {
      this.isDarwin := isDarwin;
      this.answers := answers;
      queried := [];
    }

    /** The filesystem-statistics query for the volume containing path. */
    method Statfs(path: string) returns (r: StatfsResult)
      modifies this
      ensures queried == old(queried) + [path]
      ensures r == answers(path, |old(queried)|)
    {
      r := answers(path, |queried|);
      queried := queried + [path];
    }
  }

  /** The cleanup callback: its c-th call returns the c-th scripted outcome. */
  class Cleaner {
    const outcomes: nat -> Option<Error>
    var calls: nat

    constructor (outcomes: nat -> Option<Error>)
      ensures this.outcomes == outcomes && calls == 0
    {
      this.outcomes := outcomes;
      calls := 0;
    }

    method Clean() returns (err: Option<Error>)
      modifies this
      ensures calls == old(calls) + 1
      ensures err == outcomes(old(calls))
    {
      err := outcomes(calls);
      calls := calls + 1;
    }
  }

  // ---------------------------------------------------------------------------
  // The maintainer

  /** The structured-log sink: the no-op logger installed by default, or the caller's. */
  datatype Logger = Nop | Custom(name: string)

  /** How a call of Maintain ended: a panic, or cancellation after the cycles it ran. */
  datatype MaintainOutcome = Panicked(message: string) | Stopped(cycles: seq<CycleReport>)

  class Maintainer {
    var volume: string
    var checkInterval: Int64
    var threshold: real
    var clean: Cleaner?
    var logger: Option<Logger>

    function Settings(): Config
      reads this
    {
      Config(volume, checkInterval, threshold)
    }

    /** A maintainer with any subset of its fields set (unset ones hold their zero values). */
    constructor (volume: string, checkInterval: Int64, threshold: real,
                 clean: Cleaner?, logger: Option<Logger>)
      ensures Settings() == Config(volume, checkInterval, threshold)
      ensures this.clean == clean && this.logger == logger
    {
      this.volume := volume;
      this.checkInterval := checkInterval;
      this.threshold := threshold;
      this.clean := clean;
      this.logger := logger;
    }

    /** Replaces every unset or invalid setting, in place, by its default. */
    method ApplyDefaults()
      modifies this
      ensures Settings() == WithDefaults(old(Settings()))
      ensures ValidConfig(Settings())
      ensures logger == if old(logger) == None then Some(Nop) else old(logger)
      ensures clean == old(clean)
    {
      if volume == "" {
        volume := DefaultVolume;
      }
      if threshold <= 0.0 || threshold >= 1.0 {
        threshold := DefaultThreshold;
      }
      if checkInterval <= 0 {
        checkInterval := DefaultCheckInterval;
      }
      if logger == None {
        logger := Some(Nop);
      }
    }

    /**
     * One check-and-maintain cycle: probe the volume; unless its truncated usage ratio
     * is below the threshold, clean, and after a successful cleanup probe again. The
     * report is the cycle that the oracles' next answers determine, and the oracles
     * record exactly the calls it made.
     */
    method MaintainDiskUsage(fs: Filesystem) returns (r: CycleReport)
      requires clean != null
      modifies fs, clean
      ensures r == CycleAt(Settings(), fs.isDarwin, fs.answers, clean.outcomes,
                           |old(fs.queried)|, old(clean.calls))
      ensures fs.queried == old(fs.queried) + Repeat(volume, r.Probes())
      ensures clean.calls == old(clean.calls) + r.CleanCalls()
    {
      var query := fs.Statfs(volume);
      var du := DiskUsage(query, fs.isDarwin);
      if du.err.Some? {
        return ProbeFailed(du.err.value);
      }
      var totalMB := ToMB(du.status.all);
      var usedMB := ToMB(du.status.used);
      if BelowThreshold(usedMB, totalMB, threshold) {
        return NotFull(totalMB, usedMB);
      }
      var err := clean.Clean();
      if err.Some? {
        return CleanFailed(totalMB, usedMB, err.value);
      }
      query := fs.Statfs(volume);
      du := DiskUsage(query, fs.isDarwin);
      if du.err.Some? {
        return ReprobeFailed(totalMB, usedMB, du.err.value);
      }
      var newUsedMB := ToMB(du.status.used);
      var usedDiff := Sub(usedMB, newUsedMB);
      r := Cleaned(totalMB, usedMB, newUsedMB, usedDiff);
    }

    /**
     * Maintain: panics on a missing cleanup callback before touching anything; otherwise
     * applies the defaults, runs one cycle at once and then one per tick of the ticker
     * until cancellation, which is modelled as arriving after the given number of ticks.
     * A failed cycle is only reported; the next tick runs the next cycle.
     */
    method Maintain(fs: Filesystem, ticks: nat) returns (outcome: MaintainOutcome)
      modifies this, fs, clean
      ensures old(clean) == null ==>
        outcome == Panicked("nil Clean function") && unchanged(this) && unchanged(fs)
      ensures old(clean) != null ==>
        && clean == old(clean)
        && Settings() == WithDefaults(old(Settings()))
        && logger == (if old(logger) == None then Some(Nop) else old(logger))
        && outcome.Stopped?
        && outcome.cycles == Run(CycleStep(Settings(), fs.isDarwin, fs.answers, clean.outcomes),
                                 |old(fs.queried)|, old(clean.calls), ticks + 1)
        && fs.queried == old(fs.queried) + Repeat(volume, TotalProbes(outcome.cycles))
        && clean.calls == old(clean.calls) + TotalCleanCalls(outcome.cycles)
    {
      if clean == null {
        return Panicked("nil Clean function");
      }
      ApplyDefaults();
      ghost var cfg := Settings();
      ghost var step := CycleStep(cfg, fs.isDarwin, fs.answers, clean.outcomes);
      ghost var q0, c0 := fs.queried, clean.calls;
      var r := MaintainDiskUsage(fs);
      assert 0 < checkInterval;  // the ticker needs a positive interval
      ghost var q1, c1 := fs.queried, clean.calls;
      var later := MaintainOnTicks(fs, ticks);
      FirstCycleThenTicks(step, volume, ticks, q0, c0, r, q1, c1, later, fs.queried, clean.calls);
      outcome := Stopped([r] + later);
    }

    /**
     * The ticker loop: one cycle per tick, for the given number of ticks. A failed cycle
     * is only reported; the loop goes on with the next tick.
     */
    method MaintainOnTicks(fs: Filesystem, ticks: nat) returns (cycles: seq<CycleReport>)
      requires clean != null
      modifies fs, clean
      ensures cycles == Run(CycleStep(Settings(), fs.isDarwin, fs.answers, clean.outcomes),
                            |old(fs.queried)|, old(clean.calls), ticks)
      ensures fs.queried == old(fs.queried) + Repeat(volume, TotalProbes(cycles))
      ensures clean.calls == old(clean.calls) + TotalCleanCalls(cycles)
    {
      ghost var step := CycleStep(Settings(), fs.isDarwin, fs.answers, clean.outcomes);
      ghost var q0, c0 := fs.queried, clean.calls;
      cycles := [];
      assert cycles + Run(step, |q0|, c0, ticks) == Run(step, |q0|, c0, ticks);
      var left := ticks;
      while left > 0
        invariant cycles + Run(step, |fs.queried|, clean.calls, left) == Run(step, |q0|, c0, ticks)
        invariant fs.queried == q0 + Repeat(volume, TotalProbes(cycles))
        invariant clean.calls == c0 + TotalCleanCalls(cycles)
      {
        ghost var q, c := fs.queried, clean.calls;
        var r := MaintainDiskUsage(fs);
        NextCycle(step, q0, c0, ticks, volume, cycles, q, c, left, r, fs.queried, clean.calls);
        cycles := cycles + [r];
        left := left - 1;
      }
      assert cycles + [] == cycles;
    }
  }
}
