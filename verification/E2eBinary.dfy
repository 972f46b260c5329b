/** The build/run protocol of `e2e_binary.py`: an exclusive marker, an identity
    sidecar, and a verification before and after each test run.

    Any number of processes interleave their file-system effects one by one.
    Sources and the binary may change under them at any time; the marker and the
    sidecar are touched by these processes only.  Files enter the state through
    the digests the script compares.  Every state knows its own position in the
    run, and processes remember the positions at which they read a file. */
module E2eBinary {

  import opened Text

  datatype Record = Record(
    source: int, requested: set<string>, features: set<string>, profile: string, toolchain: string, binary: int)

  /** The positions at which a build sampled the sources twice and the binary once. */
  datatype BuildLog = BuildLog(before: nat, after: nat, hashed: nat)

  /** A sidecar is created empty and filled by a second effect; while it is
      empty only the history fields say which record is being written. */
  datatype Sidecar = Absent | Partial(record: Record, log: BuildLog) | Full(record: Record, log: BuildLog)

  /** The positions at which one verification read sidecar, sources and binary. */
  datatype Check = Check(read: nat, source: nat, binary: nat)

  datatype RunLog = RunLog(record: Record, first: Check, second: Check)

  datatype Job = Build(requested: set<string>, profile: string) | Run(requested: set<string>, profile: string)

  datatype Phase =
    | Waiting
    | Entered
    // build
    | Unlinked
    | SawSource(before: int, t: nat)
    | Compiled(before: int, t: nat, features: set<string>)
    | SawSameSource(before: int, t: nat, t': nat, features: set<string>)
    | Hashed(record: Record, log: BuildLog)
    | Writing(record: Record, log: BuildLog)
    // run
    | Read(record: Record, read: nat)
    | SourceOk(record: Record, read: nat, source: nat)
    | Verified(record: Record, first: Check)
    | Tested(record: Record, first: Check, status: int)
    | Reread(record: Record, first: Check, status: int, record': Record, read: nat)
    | SourceStillOk(record: Record, first: Check, status: int, record': Record, read: nat, source: nat)
    // both
    | Leaving(code: int, result: Option<RunLog>)
    | MarkerOk(code: int, result: Option<RunLog>)
    | Exited(code: int, result: Option<RunLog>)
    | Crashed(inside: bool)
  {
    predicate Inside() { !Waiting? && !Exited? && !Crashed? }

    /** In the guarded section, or dead in it. */
    predicate Holds() { Inside() || (Crashed? && inside) }
  }

  datatype Process = Process(job: Job, inode: nat, phase: Phase)

  datatype State = State(
    now: nat, marker: Option<nat>, nextInode: nat, sidecar: Sidecar, source: int, binary: int, procs: seq<Process>)

  ghost predicate Init(s: State) {
    && s.now == 0 && s.marker == None && s.sidecar == Absent
    && forall p :: 0 <= p < |s.procs| ==> s.procs[p].phase == Waiting
  }

  /** The checks of `verify` that look at the record alone. */
  predicate Fits(r: Record, job: Job) {
    r.requested == job.requested && r.profile == job.profile && job.requested <= r.features && r.toolchain != ""
  }

  /** The state with process `p` in a new phase and one more step taken. */
  function Put(s: State, p: nat, phase: Phase): State
    requires p < |s.procs|
  {
    s.(procs := s.procs[p := s.procs[p].(phase := phase)], now := s.now + 1)
  }

  /** Sources and binary change outside the protocol, or while cargo compiles. */
  ghost predicate Outside(s: State, s': State) {
    s' == s.(now := s.now + 1, source := s'.source, binary := s'.binary)
  }

  ghost predicate Dies(s: State, s': State, p: nat)
    requires p < |s.procs|
  {
    !s.procs[p].phase.Exited? && s' == Put(s, p, Crashed(s.procs[p].phase.Holds()))
  }

  /** Any failure inside the guarded section unwinds to the release of the marker. */
  ghost predicate Fails(s: State, s': State, p: nat)
    requires p < |s.procs|
  {
    var phase := s.procs[p].phase;
    && phase.Inside() && !phase.Leaving? && !phase.MarkerOk?
    && exists code :: code != 0 && s' == Put(s, p, Leaving(code, None))
  }

  ghost predicate BuildStep(s: State, s': State, p: nat)
    requires p < |s.procs| && s.procs[p].job.Build?
  {
    var job := s.procs[p].job;
    match s.procs[p].phase
    case Entered => s' == Put(s, p, Unlinked).(sidecar := Absent)
    case Unlinked => s' == Put(s, p, SawSource(s.source, s.now))
    case SawSource(before, t) => exists features :: s' == Put(s, p, Compiled(before, t, features))
    case Compiled(before, t, features) =>
      s' == if s.source == before then Put(s, p, SawSameSource(before, t, s.now, features)) else Put(s, p, Leaving(1, None))
    case SawSameSource(before, t, t', features) =>
      exists toolchain ::
        s' == Put(s, p, Hashed(Record(before, job.requested, features, job.profile, toolchain, s.binary), BuildLog(t, t', s.now)))
    case Hashed(record, log) => s' == Put(s, p, Writing(record, log)).(sidecar := Partial(record, log))
    case Writing(record, log) => s' == Put(s, p, Leaving(0, None)).(sidecar := Full(record, log))
    case _ => false
  }

  function OrOne(status: int): int { if status != 0 then status else 1 }

  ghost predicate RunStep(s: State, s': State, p: nat)
    requires p < |s.procs| && s.procs[p].job.Run?
  {
    var job := s.procs[p].job;
    match s.procs[p].phase
    case Entered =>
      s.sidecar.Full? && Fits(s.sidecar.record, job) && s' == Put(s, p, Read(s.sidecar.record, s.now))
    case Read(record, r) => s.source == record.source && s' == Put(s, p, SourceOk(record, r, s.now))
    case SourceOk(record, r, t) => s.binary == record.binary && s' == Put(s, p, Verified(record, Check(r, t, s.now)))
    case Verified(record, first) => exists status :: s' == Put(s, p, Tested(record, first, status))
    case Tested(record, first, status) =>
      s' == if s.sidecar.Full? && Fits(s.sidecar.record, job)
            then Put(s, p, Reread(record, first, status, s.sidecar.record, s.now))
            else Put(s, p, Leaving(OrOne(status), None))
    case Reread(record, first, status, record', r) =>
      s' == if s.source == record'.source then Put(s, p, SourceStillOk(record, first, status, record', r, s.now))
            else Put(s, p, Leaving(OrOne(status), None))
    case SourceStillOk(record, first, status, record', r, t) =>
      s' == if s.binary == record'.binary && record' == record
            then Put(s, p, Leaving(status, Some(RunLog(record, first, Check(r, t, s.now)))))
            else Put(s, p, Leaving(OrOne(status), None))
    case _ => false
  }

  /** Creating the marker exclusively, and releasing it: a look at the marker,
      then its removal. */
  ghost predicate GuardStep(s: State, s': State, p: nat)
    requires p < |s.procs|
  {
    match s.procs[p].phase
    case Waiting =>
      if s.marker.None? then
        s' == s.(now := s.now + 1, marker := Some(s.nextInode), nextInode := s.nextInode + 1,
                 procs := s.procs[p := s.procs[p].(phase := Entered, inode := s.nextInode)])
      else s' == Put(s, p, Exited(1, None))
    case Leaving(code, result) =>
      s' == if s.marker == Some(s.procs[p].inode) then Put(s, p, MarkerOk(code, result)) else Put(s, p, Exited(1, None))
    case MarkerOk(code, result) => s' == Put(s, p, Exited(code, result)).(marker := None)
    case _ => false
  }

  ghost predicate Moves(s: State, s': State, p: nat)
    requires p < |s.procs|
  {
    || Dies(s, s', p) || Fails(s, s', p) || GuardStep(s, s', p)
    || (if s.procs[p].job.Build? then BuildStep(s, s', p) else RunStep(s, s', p))
  }

  ghost predicate Next(s: State, s': State) {
    Outside(s, s') || exists p :: 0 <= p < |s.procs| && Moves(s, s', p)
  }

  ghost predicate Behavior(tr: seq<State>) {
    tr != [] && Init(tr[0]) && forall i, j :: 0 <= i && j == i + 1 < |tr| ==> Next(tr[i], tr[j])
  }

  // ----- mutual exclusion

  ghost predicate Exclusive(s: State) {
    && (forall p :: 0 <= p < |s.procs| && s.procs[p].phase.Holds() ==> s.marker == Some(s.procs[p].inode))
    && (forall p, q :: 0 <= p < |s.procs| && 0 <= q < |s.procs| && s.procs[p].phase.Holds() && s.procs[q].phase.Holds() ==> p == q)
  }

  /** `s'` differs from `s` in process `p`, which does not newly hold the marker, and
      not in the marker. */
  ghost predicate Stays(s: State, s': State, p: nat)
    requires p < |s.procs|
  {
    && |s'.procs| == |s.procs| && s'.procs == s.procs[p := s'.procs[p]] && s'.marker == s.marker
    && (s'.procs[p].phase.Holds() ==> s.procs[p].phase.Holds() && s'.procs[p].inode == s.procs[p].inode)
  }

  lemma StaysExclusive(s: State, s': State, p: nat)
    requires p < |s.procs| && Exclusive(s) && Stays(s, s', p)
    ensures Exclusive(s')
  {
  }

  lemma BuildStays(s: State, s': State, p: nat)
    requires p < |s.procs| && s.procs[p].job.Build? && BuildStep(s, s', p)
    ensures Stays(s, s', p) && s'.now == s.now + 1
  {
  }

  lemma RunStays(s: State, s': State, p: nat)
    requires p < |s.procs| && s.procs[p].job.Run? && RunStep(s, s', p)
    ensures Stays(s, s', p) && s'.now == s.now + 1
  {
  }

  lemma UnwindStays(s: State, s': State, p: nat)
    requires p < |s.procs| && (Dies(s, s', p) || Fails(s, s', p))
    ensures Stays(s, s', p) && s'.now == s.now + 1
  {
  }

  lemma GuardKeepsExclusive(s: State, s': State, p: nat)
    requires p < |s.procs| && Exclusive(s) && GuardStep(s, s', p)
    ensures Exclusive(s') && |s'.procs| == |s.procs| && s'.procs == s.procs[p := s'.procs[p]] && s'.now == s.now + 1
  {
  }

  lemma MoveKeepsExclusive(s: State, s': State, p: nat)
    requires p < |s.procs| && Exclusive(s) && Moves(s, s', p)
    ensures Exclusive(s') && s'.now == s.now + 1
    ensures |s'.procs| == |s.procs| && forall q :: 0 <= q < |s.procs| && q != p ==> s'.procs[q] == s.procs[q]
  {
    hide Exclusive, BuildStep, RunStep, Dies, Fails, GuardStep;
    if GuardStep(s, s', p) {
      GuardKeepsExclusive(s, s', p);
    } else {
      if Dies(s, s', p) || Fails(s, s', p) {
        UnwindStays(s, s', p);
      } else if s.procs[p].job.Build? {
        BuildStays(s, s', p);
      } else {
        RunStays(s, s', p);
      }
      StaysExclusive(s, s', p);
    }
  }

  lemma {:induction false} ExclusiveThroughout(tr: seq<State>, n: nat)
    requires Behavior(tr) && n < |tr|
    ensures Exclusive(tr[n]) && tr[n].now == n && |tr[n].procs| == |tr[0].procs|
  {
    if n > 0 {
      ExclusiveThroughout(tr, n - 1);
      var s, s' := tr[n - 1], tr[n];
      assert Next(tr[n - 1], tr[n]);
      hide Moves;
      if !Outside(s, s') {
        var p :| 0 <= p < |s.procs| && Moves(s, s', p);
        MoveKeepsExclusive(s, s', p);
      }
    }
  }

  /** At most one process is in the guarded section, in every state of every run. */
  lemma MutualExclusion(tr: seq<State>, n: nat, p: nat, q: nat)
    requires Behavior(tr) && n < |tr| && p < |tr[n].procs| && q < |tr[n].procs|
    requires tr[n].procs[p].phase.Inside() && tr[n].procs[q].phase.Inside()
    ensures p == q
  {
    ExclusiveThroughout(tr, n);
  }

  lemma CrashLasts(s: State, s': State, p: nat)
    requires Exclusive(s) && Next(s, s') && p < |s.procs| && s.procs[p].phase == Crashed(true)
    ensures p < |s'.procs| && s'.procs[p].phase == Crashed(true)
  {
    hide Moves, Exclusive;
    if !Outside(s, s') {
      var q :| 0 <= q < |s.procs| && Moves(s, s', q);
      MoveKeepsExclusive(s, s', q);
      if q == p {
        DeadStaysDead(s, s', p);
      }
    }
  }

  lemma DeadStaysDead(s: State, s': State, p: nat)
    requires p < |s.procs| && Moves(s, s', p) && s.procs[p].phase == Crashed(true)
    ensures p < |s'.procs| && s'.procs[p].phase == Crashed(true)
  {
  }

  /** A process that dies in the guarded section leaves the marker behind, and
      nobody enters the section again. */
  lemma {:induction false} CrashBlocksForever(tr: seq<State>, n: nat, m: nat, p: nat, q: nat)
    requires Behavior(tr) && n <= m < |tr| && p < |tr[n].procs| && q < |tr[m].procs|
    requires tr[n].procs[p].phase == Crashed(true)
    ensures p < |tr[m].procs| && tr[m].procs[p].phase == Crashed(true) && !tr[m].procs[q].phase.Inside()
    decreases m - n
  {
    ExclusiveThroughout(tr, n);
    if n < m {
      assert Next(tr[n], tr[n + 1]);
      CrashLasts(tr[n], tr[n + 1], p);
      CrashBlocksForever(tr, n + 1, m, p, q);
    }
  }

  // ----- what the processes have seen

  ghost predicate BuiltAt(tr: seq<State>, n: nat, r: Record, log: BuildLog) {
    && log.before < log.after < log.hashed < n < |tr|
    && tr[log.before].source == r.source && tr[log.after].source == r.source && tr[log.hashed].binary == r.binary
  }

  ghost predicate SidecarOk(tr: seq<State>, n: nat)
    requires n < |tr|
  {
    !tr[n].sidecar.Absent? ==> BuiltAt(tr, n, tr[n].sidecar.record, tr[n].sidecar.log)
  }

  /** The sidecar has been this record's since position `r`. */
  ghost predicate SidecarSince(tr: seq<State>, n: nat, r: nat, record: Record)
    requires n < |tr|
  {
    r < n && forall k :: r <= k <= n ==> tr[k].sidecar.Full? && tr[k].sidecar.record == record
  }

  ghost predicate CheckOk(tr: seq<State>, n: nat, r: Record, c: Check)
    requires n < |tr|
  {
    c.read < c.source < c.binary < n && tr[c.source].source == r.source && tr[c.binary].binary == r.binary
  }

  /** Two verifications, one after the other, against one record that stayed in
      the sidecar from the first read to the last. */
  ghost predicate RunOk(tr: seq<State>, n: nat, job: Job, log: RunLog)
    requires n < |tr|
  {
    && Fits(log.record, job)
    && CheckOk(tr, n, log.record, log.first) && CheckOk(tr, n, log.record, log.second)
    && log.first.binary < log.second.read
    && forall k :: log.first.read <= k <= log.second.binary ==> tr[k].sidecar.Full? && tr[k].sidecar.record == log.record
  }

  ghost predicate ResultOk(tr: seq<State>, n: nat, job: Job, code: int, result: Option<RunLog>)
    requires n < |tr|
  {
    && (result.Some? ==> RunOk(tr, n, job, result.value))
    && (job.Run? && code == 0 ==> result.Some?)
  }

  ghost predicate PhaseOk(tr: seq<State>, n: nat, proc: Process)
    requires n < |tr|
  {
    match proc.phase
    case Waiting => true
    case Entered => true
    case Crashed(_) => true
    case Unlinked => proc.job.Build?
    case SawSource(before, t) => proc.job.Build? && t < n && tr[t].source == before
    case Compiled(before, t, _) => proc.job.Build? && t < n && tr[t].source == before
    case SawSameSource(before, t, t', _) =>
      proc.job.Build? && t < t' < n && tr[t].source == before && tr[t'].source == before
    case Hashed(r, log) => proc.job.Build? && BuiltAt(tr, n, r, log)
    case Writing(r, log) => proc.job.Build? && BuiltAt(tr, n, r, log)
    case Read(r, t) => proc.job.Run? && Fits(r, proc.job) && SidecarSince(tr, n, t, r)
    case SourceOk(r, t, u) =>
      proc.job.Run? && Fits(r, proc.job) && SidecarSince(tr, n, t, r) && t < u < n && tr[u].source == r.source
    case Verified(r, c) => proc.job.Run? && Fits(r, proc.job) && SidecarSince(tr, n, c.read, r) && CheckOk(tr, n, r, c)
    case Tested(r, c, _) => proc.job.Run? && Fits(r, proc.job) && SidecarSince(tr, n, c.read, r) && CheckOk(tr, n, r, c)
    case Reread(r, c, _, r', t) =>
      && proc.job.Run? && Fits(r, proc.job) && SidecarSince(tr, n, c.read, r) && CheckOk(tr, n, r, c)
      && r' == r && c.binary < t < n
    case SourceStillOk(r, c, _, r', t, u) =>
      && proc.job.Run? && Fits(r, proc.job) && SidecarSince(tr, n, c.read, r) && CheckOk(tr, n, r, c)
      && r' == r && c.binary < t < u < n && tr[u].source == r.source
    case Leaving(code, result) => ResultOk(tr, n, proc.job, code, result)
    case MarkerOk(code, result) => ResultOk(tr, n, proc.job, code, result)
    case Exited(code, result) => ResultOk(tr, n, proc.job, code, result)
  }

  ghost predicate HistoryOk(tr: seq<State>, n: nat)
    requires n < |tr|
  {
    SidecarOk(tr, n) && forall p :: 0 <= p < |tr[n].procs| ==> PhaseOk(tr, n, tr[n].procs[p])
  }

  /** A runner that has read the sidecar relies on it staying as it is. */
  predicate Relies(proc: Process) {
    proc.job.Run? && proc.phase.Inside() && !proc.phase.Entered?
  }

  lemma PhaseLasts(tr: seq<State>, n: nat, proc: Process)
    requires n + 1 < |tr| && PhaseOk(tr, n, proc)
    requires Relies(proc) ==> tr[n + 1].sidecar == tr[n].sidecar
    ensures PhaseOk(tr, n + 1, proc)
  {
  }

  lemma BuildMoves(tr: seq<State>, n: nat, p: nat)
    requires n + 1 < |tr| && tr[n].now == n && HistoryOk(tr, n)
    requires p < |tr[n].procs| && tr[n].procs[p].job.Build? && BuildStep(tr[n], tr[n + 1], p)
    ensures SidecarOk(tr, n + 1) && p < |tr[n + 1].procs| && PhaseOk(tr, n + 1, tr[n + 1].procs[p])
  {
  }

  lemma RunMoves(tr: seq<State>, n: nat, p: nat)
    requires n + 1 < |tr| && tr[n].now == n && HistoryOk(tr, n)
    requires p < |tr[n].procs| && tr[n].procs[p].job.Run? && RunStep(tr[n], tr[n + 1], p)
    ensures tr[n + 1].sidecar == tr[n].sidecar && p < |tr[n + 1].procs| && PhaseOk(tr, n + 1, tr[n + 1].procs[p])
  {
    var phase := tr[n].procs[p].phase;
    assert PhaseOk(tr, n, tr[n].procs[p]);
    if phase.Tested? || phase.Reread? || phase.SourceStillOk? {
      SecondCheckMoves(tr, n, p);
    } else {
      FirstCheckMoves(tr, n, p);
    }
  }

  lemma FirstCheckMoves(tr: seq<State>, n: nat, p: nat)
    requires n + 1 < |tr| && tr[n].now == n && p < |tr[n].procs| && PhaseOk(tr, n, tr[n].procs[p])
    requires tr[n].procs[p].job.Run? && RunStep(tr[n], tr[n + 1], p)
    requires var phase := tr[n].procs[p].phase; phase.Entered? || phase.Read? || phase.SourceOk? || phase.Verified?
    ensures tr[n + 1].sidecar == tr[n].sidecar && p < |tr[n + 1].procs| && PhaseOk(tr, n + 1, tr[n + 1].procs[p])
  {
  }

  lemma SecondCheckMoves(tr: seq<State>, n: nat, p: nat)
    requires n + 1 < |tr| && tr[n].now == n && p < |tr[n].procs| && PhaseOk(tr, n, tr[n].procs[p])
    requires tr[n].procs[p].job.Run? && RunStep(tr[n], tr[n + 1], p)
    requires var phase := tr[n].procs[p].phase; phase.Tested? || phase.Reread? || phase.SourceStillOk?
    ensures tr[n + 1].sidecar == tr[n].sidecar && p < |tr[n + 1].procs| && PhaseOk(tr, n + 1, tr[n + 1].procs[p])
  {
  }

  lemma UnwindMoves(tr: seq<State>, n: nat, p: nat)
    requires n + 1 < |tr| && p < |tr[n].procs| && (Dies(tr[n], tr[n + 1], p) || Fails(tr[n], tr[n + 1], p))
    ensures tr[n + 1].sidecar == tr[n].sidecar && p < |tr[n + 1].procs| && PhaseOk(tr, n + 1, tr[n + 1].procs[p])
  {
  }

  lemma GuardMoves(tr: seq<State>, n: nat, p: nat)
    requires n + 1 < |tr| && p < |tr[n].procs| && PhaseOk(tr, n, tr[n].procs[p]) && GuardStep(tr[n], tr[n + 1], p)
    ensures tr[n + 1].sidecar == tr[n].sidecar && p < |tr[n + 1].procs| && PhaseOk(tr, n + 1, tr[n + 1].procs[p])
  {
    hide RunOk;
    ResultLasts(tr, n);
  }

  lemma ResultLasts(tr: seq<State>, n: nat)
    requires n + 1 < |tr|
    ensures forall job, log :: RunOk(tr, n, job, log) ==> RunOk(tr, n + 1, job, log)
  {
  }

  /** Only a build in the guarded section changes the sidecar, and then no
      runner relies on it. */
  lemma SidecarStable(s: State, s': State, p: nat, q: nat)
    requires Exclusive(s) && p < |s.procs| && q < |s.procs| && p != q && Moves(s, s', p) && Relies(s.procs[q])
    ensures s'.sidecar == s.sidecar
  {
  }

  lemma HistoryMove(tr: seq<State>, n: nat, p: nat)
    requires n + 1 < |tr| && Exclusive(tr[n]) && tr[n].now == n && HistoryOk(tr, n)
    requires p < |tr[n].procs| && Moves(tr[n], tr[n + 1], p)
    ensures HistoryOk(tr, n + 1)
  {
    var s, s' := tr[n], tr[n + 1];
    MoveKeepsExclusive(s, s', p);
    hide PhaseOk;
    if Dies(s, s', p) || Fails(s, s', p) {
      UnwindMoves(tr, n, p);
    } else if GuardStep(s, s', p) {
      GuardMoves(tr, n, p);
    } else if s.procs[p].job.Build? {
      BuildMoves(tr, n, p);
    } else {
      RunMoves(tr, n, p);
    }
    forall q | 0 <= q < |s'.procs| ensures PhaseOk(tr, n + 1, s'.procs[q]) {
      if q != p {
        if Relies(s.procs[q]) {
          SidecarStable(s, s', p, q);
        }
        PhaseLasts(tr, n, s.procs[q]);
      }
    }
  }

  lemma HistoryOutside(tr: seq<State>, n: nat)
    requires n + 1 < |tr| && HistoryOk(tr, n) && Outside(tr[n], tr[n + 1])
    ensures HistoryOk(tr, n + 1)
  {
    hide PhaseOk;
    forall q | 0 <= q < |tr[n].procs| ensures PhaseOk(tr, n + 1, tr[n].procs[q]) {
      PhaseLasts(tr, n, tr[n].procs[q]);
    }
  }

  lemma HistoryStarts(tr: seq<State>)
    requires tr != [] && Init(tr[0])
    ensures HistoryOk(tr, 0)
  {
    hide BuiltAt, SidecarSince, CheckOk, ResultOk;
    forall p | 0 <= p < |tr[0].procs| ensures PhaseOk(tr, 0, tr[0].procs[p]) {
      assert tr[0].procs[p].phase == Waiting;
    }
  }

  lemma {:induction false} HistoryThroughout(tr: seq<State>, n: nat)
    requires Behavior(tr) && n < |tr|
    ensures HistoryOk(tr, n)
  {
    hide Moves, Exclusive, HistoryOk, Outside, Init;
    if n == 0 {
      HistoryStarts(tr);
    } else {
      HistoryThroughout(tr, n - 1);
      ExclusiveThroughout(tr, n - 1);
      var s, s' := tr[n - 1], tr[n];
      assert Next(tr[n - 1], tr[n]);
      if Outside(s, s') {
        HistoryOutside(tr, n - 1);
      } else {
        var p :| 0 <= p < |s.procs| && Moves(s, s', p);
        HistoryMove(tr, n - 1, p);
      }
    }
  }

  /** A sidecar, even a half-written one, exists only if a build saw the same
      source identity before and after compiling. */
  lemma SidecarComesFromStableBuild(tr: seq<State>, n: nat)
    requires Behavior(tr) && n < |tr| && !tr[n].sidecar.Absent?
    ensures BuiltAt(tr, n, tr[n].sidecar.record, tr[n].sidecar.log)
  {
    HistoryThroughout(tr, n);
  }

  /** A run that returned 0 saw, at both ends of the test, the record of one
      build, the sources that build was made from and the binary it produced, and
      the record stayed in place in between. */
  lemma RunReturningZero(tr: seq<State>, n: nat, p: nat) returns (run: RunLog, build: BuildLog)
    requires Behavior(tr) && n < |tr| && p < |tr[n].procs|
    requires tr[n].procs[p].job.Run? && tr[n].procs[p].phase.Exited? && tr[n].procs[p].phase.code == 0
    ensures RunOk(tr, n, tr[n].procs[p].job, run)
    ensures BuiltAt(tr, run.first.read, run.record, build)
  {
    HistoryThroughout(tr, n);
    assert PhaseOk(tr, n, tr[n].procs[p]);
    run := tr[n].procs[p].phase.result.value;
    var r := run.first.read;
    build := tr[r].sidecar.log;
    SidecarComesFromStableBuild(tr, r);
  }

  // ----- a build followed by a run that returns 0

  const BUILT := Record(0, {}, {}, "debug", "rustc", 0)
  const BUILD_LOG := BuildLog(2, 4, 5)
  const FIRST := Check(11, 12, 13)
  const RUN_LOG := RunLog(BUILT, FIRST, Check(15, 16, 17))

  function BuilderPhase(i: nat): Phase {
    match i
    case 0 => Waiting
    case 1 => Entered
    case 2 => Unlinked
    case 3 => SawSource(0, 2)
    case 4 => Compiled(0, 2, {})
    case 5 => SawSameSource(0, 2, 4, {})
    case 6 => Hashed(BUILT, BUILD_LOG)
    case 7 => Writing(BUILT, BUILD_LOG)
    case 8 => Leaving(0, None)
    case 9 => MarkerOk(0, None)
    case _ => Exited(0, None)
  }

  function RunnerPhase(i: nat): Phase {
    match i
    case 11 => Entered
    case 12 => Read(BUILT, 11)
    case 13 => SourceOk(BUILT, 11, 12)
    case 14 => Verified(BUILT, FIRST)
    case 15 => Tested(BUILT, FIRST, 0)
    case 16 => Reread(BUILT, FIRST, 0, BUILT, 15)
    case 17 => SourceStillOk(BUILT, FIRST, 0, BUILT, 15, 16)
    case 18 => Leaving(0, Some(RUN_LOG))
    case 19 => MarkerOk(0, Some(RUN_LOG))
    case 20 => Exited(0, Some(RUN_LOG))
    case _ => Waiting
  }

  /** Position `i` of the run: the builder takes the first ten steps, the runner the rest. */
  function PassingRun(i: nat): State {
    State(i,
          if 1 <= i <= 9 then Some(0) else if 11 <= i <= 19 then Some(1) else None,
          if i == 0 then 0 else if i <= 10 then 1 else 2,
          if i < 7 then Absent else if i == 7 then Partial(BUILT, BUILD_LOG) else Full(BUILT, BUILD_LOG),
          0, 0,
          [Process(Build({}, "debug"), 0, BuilderPhase(i)),
           Process(Run({}, "debug"), if i <= 10 then 0 else 1, RunnerPhase(i))])
  }

  lemma BuilderSteps(i: nat)
    requires i < 10
    ensures Moves(PassingRun(i), PassingRun(i + 1), 0)
  {
    var s, s' := PassingRun(i), PassingRun(i + 1);
    assert s.procs[0 := s'.procs[0]] == s'.procs;
    if i == 0 || i >= 8 {
      assert GuardStep(s, s', 0);
    } else {
      assert BuildStep(s, s', 0);
    }
  }

  lemma RunnerSteps(i: nat)
    requires 10 <= i < 20
    ensures Moves(PassingRun(i), PassingRun(i + 1), 1)
  {
    var s, s' := PassingRun(i), PassingRun(i + 1);
    assert s.procs[1 := s'.procs[1]] == s'.procs;
    if i == 10 || i >= 18 {
      assert GuardStep(s, s', 1);
    } else {
      assert RunStep(s, s', 1);
    }
  }

  /** So a run that returns 0 exists. */
  lemma SomeRunReturnsZero() returns (tr: seq<State>)
    ensures Behavior(tr) && |tr| == 21 && |tr[20].procs| == 2 && tr[20].procs[1].job.Run? && tr[20].procs[1].phase == Exited(0, Some(RUN_LOG))
  {
    tr := seq(21, (i: nat) => PassingRun(i));
    hide Moves;
    forall i, j | 0 <= i && j == i + 1 < |tr| ensures Next(tr[i], tr[j]) {
      if i < 10 {
        BuilderSteps(i);
      } else {
        RunnerSteps(i);
      }
    }
  }
}
