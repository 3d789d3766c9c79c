/** What every step of every schedule keeps. */
module SyncInvariant {
  import opened Prelude
  import opened Keys
  import opened MockStore
  import opened Comparator
  import opened SyncEngine

  // ---------------------------------------------------------------- one task

  /** Backups are made for exactly the tasks that call for one. */
  predicate StampOk(j: Job, i: nat, st: Option<string>)
    requires i < |j.tasks|
  {
    (st.Some? <==> NeedsBackup(j, i)) && (st.Some? ==> st.value in j.stamps)
  }

  predicate PhaseOk(j: Job, i: nat, p: Phase)
    requires i < |j.tasks|
  {
    match p
    case HashingDest(h) => Listed(j, i) && j.opts.checksum && Source(j, i).Some? && h == j.hash(Source(j, i).value)
    case Skipping => Decide(j, i) == Identical
    case Statting => NeedsBackup(j, i)
    case BackupReading(ts) => NeedsBackup(j, i) && ts in j.stamps
    case BackupWriting(ts, d) => NeedsBackup(j, i) && ts in j.stamps && Before(j, i) == Some(d)
    case NotingConflict(ts) => NeedsBackup(j, i) && ts in j.stamps
    case CountingConflict(st) => CountsConflict(j, i) && StampOk(j, i, st)
    case Reading(st) => !j.opts.dryRun && Decide(j, i) != Identical && StampOk(j, i, st)
    case Writing(st, d) => !j.opts.dryRun && Decide(j, i) != Identical && StampOk(j, i, st) && Source(j, i) == Some(d)
    case CountingFiles(st) => Decide(j, i) != Identical && StampOk(j, i, st)
    case CountingBytes(st) => Decide(j, i) != Identical && StampOk(j, i, st)
    case Finished(o, st) => o == OutcomeOf(j, i) && StampOk(j, i, st)
    case Failed(st, written) =>
      && (st.Some? ==> NeedsBackup(j, i) && st.value in j.stamps)
      && (written ==> !j.opts.dryRun && Decide(j, i) != Identical && StampOk(j, i, st))
    case _ => true
  }

  predicate PhasesOk(j: Job, phase: seq<Phase>) {
    |phase| == |j.tasks| && forall i :: 0 <= i < |phase| ==> PhaseOk(j, i, phase[i])
  }

  /** Whether the source bytes have reached the destination. */
  predicate Written(j: Job, p: Phase) {
    !j.opts.dryRun
    && (p.CountingFiles? || p.CountingBytes? || (p.Finished? && p.outcome != Skipped) || (p.Failed? && p.written))
  }

  // ---------------------------------------------------------------- the destination

  function TaskKeys(j: Job): set<string> {
    set i | 0 <= i < |j.tasks| :: j.tasks[i].destPath
  }

  function BackupKeys(j: Job, phase: seq<Phase>): set<string>
    requires |phase| == |j.tasks|
  {
    set i | 0 <= i < |phase| && Stamp(phase[i]).Some? :: BackupKey(j, i, Stamp(phase[i]).value)
  }

  predicate TaskKeysOk(j: Job, dst: Store, phase: seq<Phase>)
    requires |phase| == |j.tasks|
  {
    forall i :: 0 <= i < |phase| ==>
      Lookup(dst, j.tasks[i].destPath) == if Written(j, phase[i]) then Source(j, i) else Before(j, i)
  }

  predicate BackupKeysOk(j: Job, dst: Store, phase: seq<Phase>)
    requires |phase| == |j.tasks|
  {
    forall i :: 0 <= i < |phase| && Stamp(phase[i]).Some? ==>
      Lookup(dst, BackupKey(j, i, Stamp(phase[i]).value)) == Before(j, i)
  }

  ghost predicate OtherKeysOk(j: Job, dst: Store, phase: seq<Phase>, gone: set<string>)
    requires |phase| == |j.tasks|
  {
    forall k :: k !in TaskKeys(j) && k !in BackupKeys(j, phase) ==>
      Lookup(dst, k) == if k in gone then None else Lookup(j.dst, k)
  }

  /** The destination is a function of where each task stands and of what was deleted. */
  ghost predicate DstOk(j: Job, dst: Store, phase: seq<Phase>, gone: set<string>) {
    && |phase| == |j.tasks|
    && TaskKeysOk(j, dst, phase)
    && BackupKeysOk(j, dst, phase)
    && OtherKeysOk(j, dst, phase, gone)
  }

  lemma DstUnique(j: Job, a: Store, b: Store, phase: seq<Phase>, gone: set<string>)
    requires DstOk(j, a, phase, gone) && DstOk(j, b, phase, gone)
    ensures a == b
  {
    forall k ensures Lookup(a, k) == Lookup(b, k) {
      if k in TaskKeys(j) {
        var i :| 0 <= i < |j.tasks| && j.tasks[i].destPath == k;
      } else if k in BackupKeys(j, phase) {
        var i :| 0 <= i < |phase| && Stamp(phase[i]).Some? && BackupKey(j, i, Stamp(phase[i]).value) == k;
      }
    }
    SameLookups(a, b);
  }

  lemma DstQuiet(j: Job, dst: Store, phase: seq<Phase>, gone: set<string>, i: nat, p: Phase)
    requires DstOk(j, dst, phase, gone) && i < |phase|
    requires Stamp(p) == Stamp(phase[i]) && Written(j, p) == Written(j, phase[i])
    ensures DstOk(j, dst, phase[i := p], gone)
  {
    assert BackupKeys(j, phase[i := p]) == BackupKeys(j, phase) by {
      var phase' := phase[i := p];
      forall n | 0 <= n < |phase| ensures Stamp(phase'[n]) == Stamp(phase[n]) {}
    }
  }

  lemma DstBackup(j: Job, dst: Store, phase: seq<Phase>, gone: set<string>, i: nat, p: Phase, ts: string, d: bytes)
    requires JobOk(j) && PhasesOk(j, phase) && DstOk(j, dst, phase, gone) && i < |phase|
    requires Stamp(phase[i]) == None && Stamp(p) == Some(ts) && ts in j.stamps
    requires !Written(j, phase[i]) && !Written(j, p)
    requires Before(j, i) == Some(d)
    ensures DstOk(j, Put(dst, BackupKey(j, i, ts), d), phase[i := p], gone)
  {
    var key, phase' := BackupKey(j, i, ts), phase[i := p];
    BackupKeysGrow(j, phase, i, p, ts);
    BackupKeyFresh(j, phase, i, ts);
    assert Put(dst, key, d) == dst[key := d];
    forall n | 0 <= n < |phase'| && Stamp(phase'[n]).Some?
      ensures Lookup(dst[key := d], BackupKey(j, n, Stamp(phase'[n]).value)) == Before(j, n)
    {
      assert n != i ==> phase'[n] == phase[n];
    }
  }

  lemma BackupKeysGrow(j: Job, phase: seq<Phase>, i: nat, p: Phase, ts: string)
    requires |phase| == |j.tasks| && i < |phase| && Stamp(phase[i]) == None && Stamp(p) == Some(ts)
    ensures BackupKeys(j, phase[i := p]) == BackupKeys(j, phase) + {BackupKey(j, i, ts)}
  {
    var phase' := phase[i := p];
    forall n | 0 <= n < |phase| && n != i ensures Stamp(phase'[n]) == Stamp(phase[n]) {}
    assert Stamp(phase'[i]) == Some(ts);
  }

  /** A planned backup clashes with no task and with no other task's backup. */
  lemma BackupKeyFresh(j: Job, phase: seq<Phase>, i: nat, ts: string)
    requires JobOk(j) && PhasesOk(j, phase) && i < |phase| && ts in j.stamps
    ensures NormalizeKey(BackupKey(j, i, ts)) == BackupKey(j, i, ts) && BackupKey(j, i, ts) !in TaskKeys(j)
    ensures forall n :: 0 <= n < |phase| && n != i && Stamp(phase[n]).Some? ==>
              BackupKey(j, n, Stamp(phase[n]).value) != BackupKey(j, i, ts)
  {
    forall n | 0 <= n < |phase| && n != i && Stamp(phase[n]).Some?
      ensures BackupKey(j, n, Stamp(phase[n]).value) != BackupKey(j, i, ts)
    {
      assert PhaseOk(j, n, phase[n]);
      assert Stamp(phase[n]).value in j.stamps;
    }
  }

  lemma DstWrite(j: Job, dst: Store, phase: seq<Phase>, gone: set<string>, i: nat, p: Phase, d: bytes)
    requires JobOk(j) && PhasesOk(j, phase) && DstOk(j, dst, phase, gone) && i < |phase|
    requires Stamp(p) == Stamp(phase[i])
    requires Written(j, p) && Source(j, i) == Some(d)
    ensures DstOk(j, Put(dst, j.tasks[i].destPath, d), phase[i := p], gone)
  {
    var key, phase' := j.tasks[i].destPath, phase[i := p];
    assert TaskOk(j, i);
    assert Put(dst, key, d) == dst[key := d];
    assert BackupKeys(j, phase') == BackupKeys(j, phase) by {
      forall n | 0 <= n < |phase| ensures Stamp(phase'[n]) == Stamp(phase[n]) {}
    }
    assert key in TaskKeys(j);
    TaskKeyIsNoBackup(j, phase, i);
  }

  lemma TaskKeyIsNoBackup(j: Job, phase: seq<Phase>, i: nat)
    requires JobOk(j) && PhasesOk(j, phase) && i < |phase|
    ensures forall n :: 0 <= n < |phase| && Stamp(phase[n]).Some? ==>
              BackupKey(j, n, Stamp(phase[n]).value) != j.tasks[i].destPath
  {
    forall n | 0 <= n < |phase| && Stamp(phase[n]).Some?
      ensures BackupKey(j, n, Stamp(phase[n]).value) != j.tasks[i].destPath
    {
      assert PhaseOk(j, n, phase[n]);
      assert Stamp(phase[n]).value in j.stamps;
    }
  }

  // ---------------------------------------------------------------- deletion

  /** The orphans the delete loop has dealt with. */
  function Orphans(j: Job, left: set<string>): set<string> {
    j.destMap.Keys - left - j.srcNames
  }

  function Gone(j: Job, left: set<string>): set<string> {
    if j.opts.dryRun then {} else set rel | rel in Orphans(j, left) && rel in j.destMap :: j.destMap[rel].path
  }

  lemma DstDelete(j: Job, dst: Store, phase: seq<Phase>, left: set<string>, rel: string)
    requires JobOk(j) && PhasesOk(j, phase) && DstOk(j, dst, phase, Gone(j, left))
    requires rel in left && rel in j.destMap && rel !in j.srcNames && !j.opts.dryRun
    ensures DstOk(j, Remove(dst, j.destMap[rel].path), phase, Gone(j, left - {rel}))
  {
    var key := j.destMap[rel].path;
    assert OrphanOk(j, rel);
    assert Orphans(j, left - {rel}) == Orphans(j, left) + {rel};
    assert Gone(j, left - {rel}) == Gone(j, left) + {key};
    assert key !in TaskKeys(j);
    forall n | 0 <= n < |phase| && Stamp(phase[n]).Some?
      ensures BackupKey(j, n, Stamp(phase[n]).value) != key
    {
      assert PhaseOk(j, n, phase[n]);
      assert Stamp(phase[n]).value in j.stamps;
    }
  }

  // ---------------------------------------------------------------- statistics

  datatype Tally = Tally(tf: int, tb: int, uf: int, ub: int, cf: int, sk: int)

  function Add(a: Tally, b: Tally): Tally {
    Tally(a.tf + b.tf, a.tb + b.tb, a.uf + b.uf, a.ub + b.ub, a.cf + b.cf, a.sk + b.sk)
  }

  function One(b: bool): int { if b then 1 else 0 }

  /** What task `i` has added to the counters by phase `p`. */
  function Share(j: Job, i: nat, p: Phase): Tally
    requires i < |j.tasks|
  {
    var moved := p.Finished? && p.outcome != Skipped;
    var counted := moved || p.CountingBytes?;
    var past := counted || p.CountingFiles? || p.Reading? || p.Writing?;
    var size := j.tasks[i].obj.size;
    Tally(
      One(counted && !Listed(j, i)), if moved && !Listed(j, i) then size else 0,
      One(counted && Listed(j, i)), if moved && Listed(j, i) then size else 0,
      One(past && CountsConflict(j, i)), One(p.Finished? && p.outcome == Skipped))
  }

  function Sum(s: seq<Tally>): Tally
    decreases |s|
  {
    if s == [] then Tally(0, 0, 0, 0, 0, 0) else Add(Sum(s[..|s| - 1]), s[|s| - 1])
  }

  function Shares(j: Job, phase: seq<Phase>): seq<Tally>
    requires |phase| == |j.tasks|
  {
    seq(|phase|, i requires 0 <= i < |phase| => Share(j, i, phase[i]))
  }

  /** The backup a phase has put on the conflict list. */
  function Noted(j: Job, i: nat, p: Phase): multiset<string>
    requires i < |j.tasks|
  {
    if p.NotingConflict? || p.Failed? || Stamp(p) == None then multiset{}
    else multiset{BackupKey(j, i, Stamp(p).value)}
  }

  function Union(s: seq<multiset<string>>): multiset<string>
    decreases |s|
  {
    if s == [] then multiset{} else Union(s[..|s| - 1]) + s[|s| - 1]
  }

  function AllNoted(j: Job, phase: seq<Phase>): seq<multiset<string>>
    requires |phase| == |j.tasks|
  {
    seq(|phase|, i requires 0 <= i < |phase| => Noted(j, i, phase[i]))
  }

  function TallyOf(st: Stats): Tally {
    Tally(st.transferredFiles, st.transferredBytes, st.updatedFiles, st.updatedBytes, st.conflictFiles, st.skippedFiles)
  }

  predicate StatsOk(j: Job, st: Stats, phase: seq<Phase>) {
    && |phase| == |j.tasks|
    && TallyOf(st) == Sum(Shares(j, phase))
    && multiset(st.conflicts) == Union(AllNoted(j, phase))
  }

  lemma {:induction false} SumUpdate(s: seq<Tally>, i: nat, x: Tally, total: Tally)
    requires i < |s| && Add(total, s[i]) == Add(Sum(s), x)
    ensures total == Sum(s[i := x])
    decreases |s|
  {
    var n, s' := |s| - 1, s[i := x];
    assert s'[..n] == if i < n then s[..n][i := x] else s[..n];
    if i < n {
      var Tally(a, b, c, d, e, f) := s[n];
      SumUpdate(s[..n], i, x, Add(total, Tally(-a, -b, -c, -d, -e, -f)));
    }
  }

  lemma {:induction false} UnionUpdate(s: seq<multiset<string>>, i: nat, x: multiset<string>)
    requires i < |s|
    ensures Union(s[i := x]) + s[i] == Union(s) + x
    decreases |s|
  {
    var n, s' := |s| - 1, s[i := x];
    if i < n {
      assert s'[..n] == s[..n][i := x];
      UnionUpdate(s[..n], i, x);
      assert Union(s') + s[i] == (Union(s'[..n]) + s[i]) + s[n];
      assert Union(s) + x == (Union(s[..n]) + x) + s[n];
    } else {
      assert s'[..n] == s[..n];
    }
  }

  /** Moving one task on keeps the totals when the counters grow by what it adds. */
  lemma TallyStep(j: Job, phase: seq<Phase>, i: nat, p: Phase, was: Tally, now: Tally)
    requires |phase| == |j.tasks| && i < |phase|
    requires was == Sum(Shares(j, phase))
    requires Add(now, Share(j, i, phase[i])) == Add(was, Share(j, i, p))
    ensures now == Sum(Shares(j, phase[i := p]))
  {
    SharesMove(j, phase, i, p);
    SumUpdate(Shares(j, phase), i, Share(j, i, p), now);
  }

  lemma SharesMove(j: Job, phase: seq<Phase>, i: nat, p: Phase)
    requires |phase| == |j.tasks| && i < |phase|
    ensures Shares(j, phase)[i] == Share(j, i, phase[i])
    ensures Shares(j, phase[i := p]) == Shares(j, phase)[i := Share(j, i, p)]
  {
  }

  lemma NotedStep(j: Job, phase: seq<Phase>, i: nat, p: Phase, was: multiset<string>, now: multiset<string>)
    requires |phase| == |j.tasks| && i < |phase|
    requires was == Union(AllNoted(j, phase))
    requires now + Noted(j, i, phase[i]) == was + Noted(j, i, p)
    ensures now == Union(AllNoted(j, phase[i := p]))
  {
    var s, x := AllNoted(j, phase), Noted(j, i, p);
    assert s[i] == Noted(j, i, phase[i]);
    assert AllNoted(j, phase[i := p]) == s[i := x];
    UnionUpdate(s, i, x);
    assert now + s[i] == Union(s[i := x]) + s[i];
    MultisetCancel(now, Union(s[i := x]), s[i]);
  }

  lemma MultisetCancel(a: multiset<string>, b: multiset<string>, c: multiset<string>)
    requires a + c == b + c
    ensures a == b
  {
    assert a == (a + c) - c && b == (b + c) - c;
  }

  // ---------------------------------------------------------------- one step of one task

  /** How far a task still has to go. */
  function Rank(p: Phase): nat {
    match p
    case Checking => 13
    case Comparing => 12
    case HashingDest(_) => 11
    case Statting => 10
    case BackupReading(_) => 9
    case BackupWriting(_, _) => 8
    case NotingConflict(_) => 7
    case CountingConflict(_) => 6
    case Reading(_) => 5
    case Writing(_, _) => 4
    case CountingFiles(_) => 3
    case CountingBytes(_) => 2
    case Skipping => 1
    case _ => 0
  }

  lemma VerdictOk(j: Job, i: nat)
    requires i < |j.tasks|
    ensures var p := AfterCompare(j, i, Decide(j, i));
            PhaseOk(j, i, p) && InFlight(p) && Rank(p) <= 10 && Stamp(p) == None && !Written(j, p)
  {
  }

  /** Until a task is written its destination is as the run found it. */
  lemma Untouched(j: Job, dst: Store, phase: seq<Phase>, gone: set<string>, i: nat)
    requires JobOk(j) && PhasesOk(j, phase) && DstOk(j, dst, phase, gone)
    requires i < |phase| && !Written(j, phase[i])
    ensures Get(dst, j.tasks[i].destPath) == Before(j, i)
    ensures Get(j.src, j.tasks[i].obj.path) == Source(j, i) && Source(j, i).Some?
    ensures Listed(j, i) ==> j.destMap[j.tasks[i].rel].path == j.tasks[i].destPath && Before(j, i).Some?
  {
    assert TaskOk(j, i);
  }

  /** A successful step keeps a task on course: it never fails for want of an object, and it
      comes closer to being finished. */
  lemma AdvancePhase(j: Job, dst: Store, phase: seq<Phase>, gone: set<string>, i: nat, stats: Stats, ts: string)
    requires JobOk(j) && PhasesOk(j, phase) && DstOk(j, dst, phase, gone)
    requires i < |phase| && InFlight(phase[i]) && ts in j.stamps
    ensures var p := Advance(j, i, phase[i], dst, stats, ts).phase;
            PhaseOk(j, i, p) && (InFlight(p) || p.Finished?) && Rank(p) < Rank(phase[i])
  {
    assert PhaseOk(j, i, phase[i]);
    if !Written(j, phase[i]) {
      Untouched(j, dst, phase, gone, i);
    }
    OnCourse(j, i, phase[i], dst, stats, ts);
  }

  lemma OnCourse(j: Job, i: nat, p: Phase, dst: Store, stats: Stats, ts: string)
    requires i < |j.tasks| && PhaseOk(j, i, p) && InFlight(p) && ts in j.stamps
    requires !Written(j, p) ==>
               && Get(dst, j.tasks[i].destPath) == Before(j, i)
               && Get(j.src, j.tasks[i].obj.path) == Source(j, i) && Source(j, i).Some?
               && (Listed(j, i) ==> j.destMap[j.tasks[i].rel].path == j.tasks[i].destPath && Before(j, i).Some?)
    ensures var q := Advance(j, i, p, dst, stats, ts).phase;
            PhaseOk(j, i, q) && (InFlight(q) || q.Finished?) && Rank(q) < Rank(p)
  {
    VerdictOk(j, i);
  }

  lemma AdvanceQuiet(j: Job, i: nat, p: Phase, dst: Store, stats: Stats, ts: string)
    requires i < |j.tasks| && InFlight(p) && PhaseOk(j, i, p)
    requires !p.BackupWriting? && !p.Writing?
    requires var q := Advance(j, i, p, dst, stats, ts).phase; !q.Failed? && PhaseOk(j, i, q)
    ensures var m := Advance(j, i, p, dst, stats, ts);
            m.dst == dst && Stamp(m.phase) == Stamp(p) && Written(j, m.phase) == Written(j, p)
  {
  }

  lemma AdvanceDst(j: Job, dst: Store, phase: seq<Phase>, gone: set<string>, i: nat, stats: Stats, ts: string)
    requires JobOk(j) && PhasesOk(j, phase) && DstOk(j, dst, phase, gone)
    requires i < |phase| && InFlight(phase[i]) && ts in j.stamps
    ensures var m := Advance(j, i, phase[i], dst, stats, ts);
            DstOk(j, m.dst, phase[i := m.phase], gone)
  {
    var m := Advance(j, i, phase[i], dst, stats, ts);
    assert PhaseOk(j, i, phase[i]);
    if phase[i].BackupWriting? {
      DstBackup(j, dst, phase, gone, i, m.phase, phase[i].ts, phase[i].data);
    } else if phase[i].Writing? {
      DstWrite(j, dst, phase, gone, i, m.phase, phase[i].data);
    } else {
      AdvancePhase(j, dst, phase, gone, i, stats, ts);
      AdvanceQuiet(j, i, phase[i], dst, stats, ts);
      DstQuiet(j, dst, phase, gone, i, m.phase);
    }
  }

  lemma AdvanceTally(j: Job, i: nat, p: Phase, dst: Store, stats: Stats, ts: string)
    requires i < |j.tasks| && InFlight(p) && PhaseOk(j, i, p)
    requires var q := Advance(j, i, p, dst, stats, ts).phase; !q.Failed? && PhaseOk(j, i, q)
    ensures var m := Advance(j, i, p, dst, stats, ts);
            Add(TallyOf(m.stats), Share(j, i, p)) == Add(TallyOf(stats), Share(j, i, m.phase))
  {
  }

  lemma Noting(j: Job, i: nat, p: Phase, dst: Store, stats: Stats, ts: string)
    requires i < |j.tasks| && p.NotingConflict?
    ensures var m := Advance(j, i, p, dst, stats, ts);
            && multiset(m.stats.conflicts) == multiset(stats.conflicts) + Noted(j, i, m.phase)
            && Noted(j, i, p) == multiset{}
  {
  }

  lemma NotNoting(j: Job, i: nat, p: Phase, dst: Store, stats: Stats, ts: string)
    requires i < |j.tasks| && InFlight(p) && PhaseOk(j, i, p) && !p.NotingConflict?
    requires var q := Advance(j, i, p, dst, stats, ts).phase; !q.Failed? && PhaseOk(j, i, q)
    ensures var m := Advance(j, i, p, dst, stats, ts);
            m.stats.conflicts == stats.conflicts && Noted(j, i, m.phase) == Noted(j, i, p)
  {
  }

  lemma AdvanceNoted(j: Job, i: nat, p: Phase, dst: Store, stats: Stats, ts: string)
    requires i < |j.tasks| && InFlight(p) && PhaseOk(j, i, p)
    requires var q := Advance(j, i, p, dst, stats, ts).phase; !q.Failed? && PhaseOk(j, i, q)
    ensures var m := Advance(j, i, p, dst, stats, ts);
            multiset(m.stats.conflicts) + Noted(j, i, p) == multiset(stats.conflicts) + Noted(j, i, m.phase)
  {
    if p.NotingConflict? { Noting(j, i, p, dst, stats, ts); } else { NotNoting(j, i, p, dst, stats, ts); }
  }

  lemma AdvanceStats(j: Job, dst: Store, phase: seq<Phase>, i: nat, stats: Stats, ts: string)
    requires PhasesOk(j, phase) && StatsOk(j, stats, phase)
    requires i < |phase| && InFlight(phase[i])
    requires var p := Advance(j, i, phase[i], dst, stats, ts).phase; !p.Failed? && PhaseOk(j, i, p)
    ensures var m := Advance(j, i, phase[i], dst, stats, ts);
            StatsOk(j, m.stats, phase[i := m.phase])
  {
    var m := Advance(j, i, phase[i], dst, stats, ts);
    assert PhaseOk(j, i, phase[i]);
    AdvanceTally(j, i, phase[i], dst, stats, ts);
    AdvanceNoted(j, i, phase[i], dst, stats, ts);
    StatsMove(j, stats, phase, i, m.phase, m.stats);
  }

  lemma StatsMove(j: Job, stats: Stats, phase: seq<Phase>, i: nat, p: Phase, stats': Stats)
    requires StatsOk(j, stats, phase) && i < |phase|
    requires Add(TallyOf(stats'), Share(j, i, phase[i])) == Add(TallyOf(stats), Share(j, i, p))
    requires multiset(stats'.conflicts) + Noted(j, i, phase[i]) == multiset(stats.conflicts) + Noted(j, i, p)
    ensures StatsOk(j, stats', phase[i := p])
  {
    TallyStep(j, phase, i, p, TallyOf(stats), TallyOf(stats'));
    NotedStep(j, phase, i, p, multiset(stats.conflicts), multiset(stats'.conflicts));
  }

  // ---------------------------------------------------------------- the whole state

  predicate ShapeOk(j: Job, s: State) {
    && |s.workers| == j.workers
    && s.next <= |s.phase| == |j.tasks|
    && (forall i :: 0 <= i < |s.phase| ==> (s.phase[i].Pending? <==> i >= s.next))
    && s.left <= j.destMap.Keys
  }

  /** Every task in flight is in exactly one worker's hands. */
  predicate HandsOk(s: State) {
    && (forall w :: 0 <= w < |s.workers| && s.workers[w].Busy? ==>
          s.workers[w].task < |s.phase| && InFlight(s.phase[s.workers[w].task]))
    && (forall w, v :: 0 <= w < v < |s.workers| && s.workers[w].Busy? && s.workers[v].Busy? ==>
          s.workers[w].task != s.workers[v].task)
    && (forall i :: 0 <= i < |s.phase| && InFlight(s.phase[i]) ==>
          exists w :: 0 <= w < |s.workers| && s.workers[w] == Busy(i))
  }

  predicate HasDropped(s: State) {
    exists i :: 0 <= i < |s.phase| && s.phase[i].Dropped?
  }

  /** Why a worker stops, and what is left behind when it does. */
  predicate ExitOk(j: Job, s: State) {
    && (s.cancelled ==> j.cancellable)
    && (forall w :: 0 <= w < |s.workers| && s.workers[w] == Exited ==> s.next == |s.phase| || s.failed || HasDropped(s))
    && (forall i :: 0 <= i < |s.phase| ==>
          (s.phase[i].Failed? ==> s.failed) && (s.phase[i].Dropped? ==> s.cancelled))
  }

  predicate MainOk(j: Job, s: State) {
    && (s.main != Working ==> AllExited(s))
    && (s.main == Working ==> s.left == j.destMap.Keys)
    && (s.main == Deleting ==> j.opts.delete && !s.failed)
    && (s.main == Returned(true) ==> !s.failed && (if j.opts.delete then s.left == {} else s.left == j.destMap.Keys))
    && (HasDropped(s) && s.main != Returned(false) ==> s.left == j.destMap.Keys)
    && (s.main != Returned(false) ==> s.stats.deletedFiles == |Orphans(j, s.left)|)
  }

  /** Who holds what, and how far the main routine is. */
  predicate ControlOk(j: Job, s: State) {
    ShapeOk(j, s) && HandsOk(s) && ExitOk(j, s) && MainOk(j, s)
  }

  /** Local variables, destination and counters agree with where each task stands. */
  ghost predicate DataOk(j: Job, phase: seq<Phase>, dst: Store, stats: Stats, failed: bool, left: set<string>) {
    && PhasesOk(j, phase)
    && DstOk(j, dst, phase, Gone(j, left))
    && (!failed ==> StatsOk(j, stats, phase))
  }

  ghost predicate Inv(j: Job, s: State) {
    ControlOk(j, s) && DataOk(j, s.phase, s.dst, s.stats, s.failed, s.left)
  }

  // ---------------------------------------------------------------- the start

  lemma {:induction false} NoTally(n: nat)
    ensures Sum(seq(n, _ => Tally(0, 0, 0, 0, 0, 0))) == Tally(0, 0, 0, 0, 0, 0)
  {
    if n > 0 {
      NoTally(n - 1);
      assert seq(n, _ => Tally(0, 0, 0, 0, 0, 0))[..n - 1] == seq(n - 1, _ => Tally(0, 0, 0, 0, 0, 0));
    }
  }

  lemma {:induction false} NoneNoted(n: nat)
    ensures Union(seq(n, _ => multiset{})) == multiset{}
  {
    if n > 0 {
      NoneNoted(n - 1);
      assert seq<multiset<string>>(n, _ => multiset{})[..n - 1] == seq<multiset<string>>(n - 1, _ => multiset{});
    }
  }

  lemma InitStats(j: Job, phase: seq<Phase>)
    requires phase == seq(|j.tasks|, _ => Pending)
    ensures StatsOk(j, NO_STATS, phase)
  {
    NoTally(|j.tasks|);
    NoneNoted(|j.tasks|);
    assert Shares(j, phase) == seq(|j.tasks|, _ => Tally(0, 0, 0, 0, 0, 0));
    assert AllNoted(j, phase) == seq<multiset<string>>(|j.tasks|, _ => multiset{});
  }

  lemma InitControl(j: Job)
    ensures ControlOk(j, Init(j))
  {
    assert Orphans(j, Init(j).left) == {};
  }

  lemma InitDst(j: Job)
    ensures DstOk(j, j.dst, Init(j).phase, {})
  {
    assert BackupKeys(j, Init(j).phase) == {};
  }

  lemma InitInv(j: Job)
    ensures Inv(j, Init(j))
  {
    InitControl(j);
    InitDst(j);
    InitStats(j, Init(j).phase);
    assert Gone(j, Init(j).left) == {};
  }

  // ---------------------------------------------------------------- control

  lemma HandsTake(s: State, s': State, w: nat)
    requires HandsOk(s) && w < |s.workers| && s.workers[w] == Idle
    requires forall i :: 0 <= i < |s.phase| ==> (s.phase[i].Pending? <==> i >= s.next)
    requires || (s'.phase == s.phase && s'.workers == s.workers[w := Exited])
             || (s.next < |s.phase| && s'.phase == s.phase[s.next := Checking]
                 && s'.workers == s.workers[w := Busy(s.next)])
    ensures HandsOk(s')
  {
    forall i | 0 <= i < |s'.phase| && InFlight(s'.phase[i])
      ensures exists v :: 0 <= v < |s'.workers| && s'.workers[v] == Busy(i)
    {
      if i == s.next {
        assert s'.workers[w] == Busy(i);
      } else {
        var v :| 0 <= v < |s.workers| && s.workers[v] == Busy(i);
        assert s'.workers[v] == Busy(i);
      }
    }
  }

  lemma HandsMove(s: State, s': State, w: nat, i: nat, p: Phase)
    requires HandsOk(s) && w < |s.workers| && i < |s.phase| && s.workers[w] == Busy(i)
    requires !p.Pending?
    requires s'.phase == s.phase[i := p]
    requires s'.workers == s.workers[w := if InFlight(p) then Busy(i) else if p.Finished? then Idle else Exited]
    ensures HandsOk(s')
  {
    forall n | 0 <= n < |s'.phase| && InFlight(s'.phase[n])
      ensures exists v :: 0 <= v < |s'.workers| && s'.workers[v] == Busy(n)
    {
      if n == i {
        assert s'.workers[w] == Busy(n);
      } else {
        var v :| 0 <= v < |s.workers| && s.workers[v] == Busy(n);
        assert s'.workers[v] == Busy(n);
      }
    }
  }

  lemma TakeControl(j: Job, s: State, w: nat, ts: string)
    requires ControlOk(j, s) && |s.phase| == |j.tasks|
    requires s.main == Working && w < |s.workers| && s.workers[w] == Idle
    ensures ControlOk(j, Work(j, s, w, ts))
  {
    HandsTake(s, Work(j, s, w, ts), w);
    TakeShape(j, s, w, ts);
    TakeExits(j, s, w, ts);
  }

  lemma TakeShape(j: Job, s: State, w: nat, ts: string)
    requires ShapeOk(j, s) && w < |s.workers| && s.workers[w] == Idle
    ensures ShapeOk(j, Work(j, s, w, ts))
  {
  }

  lemma TakeExits(j: Job, s: State, w: nat, ts: string)
    requires ShapeOk(j, s) && ExitOk(j, s) && w < |s.workers| && s.workers[w] == Idle
    ensures ExitOk(j, Work(j, s, w, ts))
  {
    var s' := Work(j, s, w, ts);
    DroppedRemain(s, s');
  }

  lemma DroppedRemain(s: State, s': State)
    requires |s'.phase| == |s.phase|
    requires forall i :: 0 <= i < |s.phase| && s.phase[i].Dropped? ==> s'.phase[i].Dropped?
    ensures HasDropped(s) ==> HasDropped(s')
  {
    if HasDropped(s) {
      var i :| 0 <= i < |s.phase| && s.phase[i].Dropped?;
      assert s'.phase[i].Dropped?;
    }
  }

  lemma AdvanceDeletes(j: Job, i: nat, p: Phase, dst: Store, stats: Stats, ts: string)
    requires i < |j.tasks|
    ensures Advance(j, i, p, dst, stats, ts).stats.deletedFiles == stats.deletedFiles
  {
  }

  lemma MoveControl(j: Job, s: State, s': State, w: nat, i: nat, p: Phase)
    requires ControlOk(j, s) && s.main == Working && w < |s.workers| && i < |s.phase| && s.workers[w] == Busy(i)
    requires InFlight(p) || p.Finished? || (p.Failed? && s'.failed)
    requires s'.phase == s.phase[i := p]
    requires s'.workers == s.workers[w := if InFlight(p) then Busy(i) else if p.Finished? then Idle else Exited]
    requires s'.stats.deletedFiles == s.stats.deletedFiles && (s.failed ==> s'.failed)
    requires s'.next == s.next && s'.cancelled == s.cancelled && s'.main == s.main && s'.left == s.left
    ensures ControlOk(j, s')
  {
    HandsMove(s, s', w, i, p);
    DroppedStay(s, s', i, p);
  }

  /** A worker that finds the context cancelled drops its task and stops. */
  lemma DropControl(j: Job, s: State, s': State, w: nat, i: nat)
    requires ControlOk(j, s) && s.main == Working && w < |s.workers| && i < |s.phase| && s.workers[w] == Busy(i)
    requires s.cancelled && s' == s.(phase := s.phase[i := Dropped], workers := s.workers[w := Exited])
    ensures ControlOk(j, s')
  {
    HandsMove(s, s', w, i, Dropped);
    assert s'.phase[i].Dropped?;
  }

  lemma DroppedStay(s: State, s': State, i: nat, p: Phase)
    requires i < |s.phase| && InFlight(s.phase[i]) && !p.Dropped? && s'.phase == s.phase[i := p]
    ensures HasDropped(s') == HasDropped(s)
  {
    forall n | 0 <= n < |s.phase| ensures s'.phase[n].Dropped? == s.phase[n].Dropped? {}
  }

  // ---------------------------------------------------------------- data

  lemma NoShare(j: Job, i: nat, p: Phase)
    requires i < |j.tasks| && (p == Pending || p == Checking || p == Dropped)
    ensures Share(j, i, p) == Tally(0, 0, 0, 0, 0, 0) && Noted(j, i, p) == multiset{}
  {
  }

  /** Taking a task, or dropping it again, touches nothing else. */
  lemma TakeData(j: Job, s: State, i: nat, p: Phase)
    requires DataOk(j, s.phase, s.dst, s.stats, s.failed, s.left) && i < |s.phase|
    requires (s.phase[i] == Pending && p == Checking) || (s.phase[i] == Checking && p == Dropped)
    ensures DataOk(j, s.phase[i := p], s.dst, s.stats, s.failed, s.left)
  {
    DstQuiet(j, s.dst, s.phase, Gone(j, s.left), i, p);
    if !s.failed {
      NoShare(j, i, s.phase[i]);
      NoShare(j, i, p);
      StatsMove(j, s.stats, s.phase, i, p, s.stats);
    }
  }

  lemma MoveData(j: Job, s: State, i: nat, ts: string)
    requires JobOk(j) && DataOk(j, s.phase, s.dst, s.stats, s.failed, s.left)
    requires i < |s.phase| && InFlight(s.phase[i]) && ts in j.stamps
    ensures var m := Advance(j, i, s.phase[i], s.dst, s.stats, ts);
            && DataOk(j, s.phase[i := m.phase], m.dst, m.stats, s.failed, s.left)
            && (InFlight(m.phase) || m.phase.Finished?)
  {
    AdvancePhase(j, s.dst, s.phase, Gone(j, s.left), i, s.stats, ts);
    AdvanceDst(j, s.dst, s.phase, Gone(j, s.left), i, s.stats, ts);
    if !s.failed {
      AdvanceStats(j, s.dst, s.phase, i, s.stats, ts);
    }
  }

  lemma BreakPhase(j: Job, i: nat, p: Phase, dst: Store, landed: bool)
    requires i < |j.tasks| && PhaseOk(j, i, p) && CallsDriver(p)
    ensures PhaseOk(j, i, Break(j, i, p, dst, landed).0)
  {
  }

  lemma BreakDst(j: Job, dst: Store, phase: seq<Phase>, gone: set<string>, i: nat, landed: bool)
    requires JobOk(j) && PhasesOk(j, phase) && DstOk(j, dst, phase, gone)
    requires i < |phase| && CallsDriver(phase[i])
    ensures var b := Break(j, i, phase[i], dst, landed);
            DstOk(j, b.1, phase[i := b.0], gone)
  {
    var p, b := phase[i], Break(j, i, phase[i], dst, landed);
    assert PhaseOk(j, i, p);
    BreakQuiet(j, i, p, dst, landed);
    if landed && p.BackupWriting? {
      DstBackup(j, dst, phase, gone, i, b.0, p.ts, p.data);
    } else if landed && p.Writing? {
      DstWrite(j, dst, phase, gone, i, b.0, p.data);
    } else {
      DstQuiet(j, dst, phase, gone, i, b.0);
    }
  }

  lemma BreakQuiet(j: Job, i: nat, p: Phase, dst: Store, landed: bool)
    requires i < |j.tasks| && PhaseOk(j, i, p) && CallsDriver(p)
    ensures var b := Break(j, i, p, dst, landed);
            if landed && p.BackupWriting? then Stamp(b.0) == Some(p.ts) && !Written(j, b.0)
            else Stamp(b.0) == Stamp(p) && Written(j, b.0) == (landed && p.Writing?) && !Written(j, p)
  {
  }

  lemma FailData(j: Job, s: State, i: nat, landed: bool)
    requires JobOk(j) && DataOk(j, s.phase, s.dst, s.stats, s.failed, s.left)
    requires i < |s.phase| && CallsDriver(s.phase[i])
    ensures var b := Break(j, i, s.phase[i], s.dst, landed);
            DataOk(j, s.phase[i := b.0], b.1, s.stats, true, s.left)
  {
    BreakPhase(j, i, s.phase[i], s.dst, landed);
    BreakDst(j, s.dst, s.phase, Gone(j, s.left), i, landed);
  }

  lemma DeleteData(j: Job, s: State, rel: string)
    requires JobOk(j) && DataOk(j, s.phase, s.dst, s.stats, s.failed, s.left)
    requires rel in s.left && rel in j.destMap && rel !in j.srcNames
    ensures var dst := if j.opts.dryRun then s.dst else Remove(s.dst, j.destMap[rel].path);
            var stats := s.stats.(deletedFiles := s.stats.deletedFiles + 1);
            && DataOk(j, s.phase, dst, stats, s.failed, s.left - {rel})
            && DataOk(j, s.phase, dst, s.stats, s.failed, s.left - {rel})
  {
    if !j.opts.dryRun {
      DstDelete(j, s.dst, s.phase, s.left, rel);
    }
  }

  // ---------------------------------------------------------------- every step

  lemma StepInv(j: Job, s: State, w: nat, ts: string)
    requires JobOk(j) && Inv(j, s)
    ensures Inv(j, Next(j, s, Step(w, ts)))
  {
    if s.main == Working && w < |s.workers| && ts in j.stamps {
      WorkInv(j, s, w, ts);
    }
  }

  lemma WorkInv(j: Job, s: State, w: nat, ts: string)
    requires JobOk(j) && Inv(j, s) && s.main == Working && w < |s.workers| && ts in j.stamps
    ensures Inv(j, Work(j, s, w, ts))
  {
    match s.workers[w] {
      case Exited =>
      case Idle =>
        TakeControl(j, s, w, ts);
        if s.next < |s.phase| {
          TakeData(j, s, s.next, Checking);
        }
      case Busy(i) =>
        if s.phase[i] == Checking && s.cancelled {
          TakeData(j, s, i, Dropped);
          DropControl(j, s, Work(j, s, w, ts), w, i);
        } else {
          MoveData(j, s, i, ts);
          AdvanceDeletes(j, i, s.phase[i], s.dst, s.stats, ts);
          var m := Advance(j, i, s.phase[i], s.dst, s.stats, ts);
          MoveControl(j, s, Work(j, s, w, ts), w, i, m.phase);
        }
    }
  }

  lemma FailInv(j: Job, s: State, w: nat, landed: bool)
    requires JobOk(j) && Inv(j, s)
    ensures Inv(j, Next(j, s, Fail(w, landed)))
  {
    var s' := Next(j, s, Fail(w, landed));
    if s' != s {
      var i := s.workers[w].task;
      FailData(j, s, i, landed);
      MoveControl(j, s, s', w, i, s'.phase[i]);
    }
  }

  lemma OrphansStep(j: Job, left: set<string>, rel: string)
    requires rel in left && left <= j.destMap.Keys
    ensures rel in j.srcNames ==> Orphans(j, left - {rel}) == Orphans(j, left)
    ensures rel !in j.srcNames ==> |Orphans(j, left - {rel})| == |Orphans(j, left)| + 1
  {
    if rel in j.srcNames {
      assert Orphans(j, left - {rel}) == Orphans(j, left);
    } else {
      assert Orphans(j, left - {rel}) == Orphans(j, left) + {rel};
    }
  }

  lemma DeleteControl(j: Job, s: State, s': State, rel: string)
    requires ControlOk(j, s) && s.main == Deleting && rel in s.left && !s.cancelled
    requires s' == s.(left := s.left - {rel}, dst := s'.dst, stats := s'.stats)
    requires s'.stats.deletedFiles == |Orphans(j, s'.left)|
    ensures ControlOk(j, s')
  {
  }

  lemma StopInv(j: Job, s: State)
    requires Inv(j, s) && s.main == Deleting
    ensures Inv(j, s.(main := Returned(false)))
  {
  }

  /** The delete call took effect, yet returned an error. */
  predicate DeleteLanded(j: Job, s: State, s': State, rel: string) {
    && s.main == Deleting && rel in s.left && rel in j.destMap && rel !in j.srcNames && !j.opts.dryRun
    && s' == s.(main := Returned(false), left := s.left - {rel}, dst := Remove(s.dst, j.destMap[rel].path))
  }

  lemma LandedInv(j: Job, s: State, s': State, rel: string)
    requires JobOk(j) && Inv(j, s) && DeleteLanded(j, s, s', rel)
    ensures Inv(j, s')
  {
    DeleteData(j, s, rel);
  }

  /** One completed round of the delete loop. */
  predicate RoundDone(j: Job, s: State, s': State, rel: string) {
    && s.main == Deleting && rel in s.left && rel in j.destMap && !s.cancelled
    && (rel in j.srcNames ==> s' == s.(left := s.left - {rel}))
    && (rel !in j.srcNames ==>
          s' == s.(left := s.left - {rel}, stats := s.stats.(deletedFiles := s.stats.deletedFiles + 1),
                   dst := if j.opts.dryRun then s.dst else Remove(s.dst, j.destMap[rel].path)))
  }

  lemma RoundInv(j: Job, s: State, s': State, rel: string)
    requires JobOk(j) && Inv(j, s) && RoundDone(j, s, s', rel)
    ensures Inv(j, s')
  {
    OrphansStep(j, s.left, rel);
    DeleteControl(j, s, s', rel);
    if rel !in j.srcNames {
      DeleteData(j, s, rel);
    }
  }

  lemma DeleteCases(j: Job, s: State, rel: string, fails: bool, landed: bool)
    ensures var s' := Next(j, s, DeleteNext(rel, fails, landed));
            || s' == s
            || (s.main == Deleting && s' == s.(main := Returned(false)))
            || DeleteLanded(j, s, s', rel)
            || RoundDone(j, s, s', rel)
  {
  }

  lemma DeleteInv(j: Job, s: State, rel: string, fails: bool, landed: bool)
    requires JobOk(j) && Inv(j, s)
    ensures Inv(j, Next(j, s, DeleteNext(rel, fails, landed)))
  {
    DeleteCases(j, s, rel, fails, landed);
    var s' := Next(j, s, DeleteNext(rel, fails, landed));
    if RoundDone(j, s, s', rel) {
      RoundInv(j, s, s', rel);
    } else if DeleteLanded(j, s, s', rel) {
      LandedInv(j, s, s', rel);
    } else if s' != s {
      StopInv(j, s);
    }
  }

  lemma CancelControl(j: Job, s: State)
    requires ControlOk(j, s)
    ensures ControlOk(j, Next(j, s, Cancel))
  {
  }

  lemma JoinControl(j: Job, s: State)
    requires ControlOk(j, s)
    ensures ControlOk(j, Next(j, s, Join))
  {
  }

  lemma EndControl(j: Job, s: State)
    requires ControlOk(j, s)
    ensures ControlOk(j, Next(j, s, EndDelete))
  {
  }

  lemma MainInv(j: Job, s: State, a: Action)
    requires Inv(j, s) && (a == Cancel || a == Join || a == EndDelete)
    ensures Inv(j, Next(j, s, a))
  {
    CancelControl(j, s);
    JoinControl(j, s);
    EndControl(j, s);
  }

  lemma NextInv(j: Job, s: State, a: Action)
    requires JobOk(j) && Inv(j, s)
    ensures Inv(j, Next(j, s, a))
  {
    match a {
      case Step(w, ts) => StepInv(j, s, w, ts);
      case Fail(w, landed) => FailInv(j, s, w, landed);
      case DeleteNext(rel, fails, landed) => DeleteInv(j, s, rel, fails, landed);
      case Cancel => MainInv(j, s, a);
      case Join => MainInv(j, s, a);
      case EndDelete => MainInv(j, s, a);
    }
  }

  /** Every state any schedule can reach satisfies the invariant. */
  lemma {:induction false} RunInv(j: Job, schedule: seq<Action>)
    requires JobOk(j)
    ensures Inv(j, Run(j, schedule))
    decreases |schedule|
  {
    if schedule == [] {
      InitInv(j);
    } else {
      RunInv(j, schedule[..|schedule| - 1]);
      NextInv(j, Run(j, schedule[..|schedule| - 1]), schedule[|schedule| - 1]);
    }
  }
}
