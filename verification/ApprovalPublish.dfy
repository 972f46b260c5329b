/** Publication of a migration approval (`publish` in
    `prepare_replacement_migration.py`): write a private temporary file, sync it,
    link it to the approval path, sync the directory, remove the temporary name.

    Any number of publishers interleave effect by effect.  Unsynced data may
    reach the disk at any time or never; a machine crash keeps what the disk has,
    turns unsynced file contents into anything, and kills every publisher at
    work.  Temporary names are fresh, as random UUIDs are taken to be. */
module ApprovalPublish {

  datatype Name = Approval | Temporary(publisher: nat)

  datatype File = File(owner: nat, data: string, synced: bool)

  datatype Phase =
    | NotStarted
    | Writing
    | Written
    | Synced
    | Linked
    | Durable
    | Cleaning
    | Returned
    | Failed

  datatype Publisher = Publisher(payload: string, file: nat, phase: Phase)

  /** `entries` is the directory as processes see it, `disk` what a crash leaves. */
  datatype State = State(
    files: seq<File>, entries: map<Name, nat>, disk: map<Name, nat>, crashes: nat, publishers: seq<Publisher>)

  ghost predicate Init(s: State) {
    && s.files == [] && s.entries == map[] && s.disk == map[]
    && forall p :: 0 <= p < |s.publishers| ==> s.publishers[p].phase == NotStarted
  }

  function Put(s: State, p: nat, phase: Phase): State
    requires p < |s.publishers|
  {
    s.(publishers := s.publishers[p := s.publishers[p].(phase := phase)])
  }

  /** The first `k` bytes of the payload have been handed to the system. */
  function Wrote(s: State, p: nat, k: nat): State
    requires p < |s.publishers| && s.publishers[p].file < |s.files| && k <= |s.publishers[p].payload|
  {
    var me := s.publishers[p];
    Put(s, p, if k == |me.payload| then Written else Writing)
    .(files := s.files[me.file := s.files[me.file].(data := me.payload[..k])])
  }

  /** The effects of publisher `p`. */
  ghost predicate Publishes(s: State, s': State, p: nat)
    requires p < |s.publishers|
  {
    var me := s.publishers[p];
    var f := me.file;
    match me.phase
    case NotStarted =>
      s' == s.(files := s.files + [File(p, "", false)],
               entries := s.entries[Temporary(p) := |s.files|],
               publishers := s.publishers[p := me.(file := |s.files|, phase := Writing)])
    case Writing =>
      f < |s.files| && exists k: nat :: k <= |me.payload| && s' == Wrote(s, p, k)
    case Written => f < |s.files| && s' == Put(s, p, Synced).(files := s.files[f := s.files[f].(synced := true)])
    case Synced =>
      if Approval in s.entries || Temporary(p) !in s.entries then s' == Put(s, p, Cleaning)
      else s' == Put(s, p, Linked).(entries := s.entries[Approval := s.entries[Temporary(p)]])
    case Linked => s' == Put(s, p, Durable).(disk := s.entries)
    case Durable => s' == Put(s, p, Returned).(entries := s.entries - {Temporary(p)})
    case Cleaning => s' == Put(s, p, Failed).(entries := s.entries - {Temporary(p)})
    case _ => false
  }

  /** An error unwinds to the removal of the temporary name; a kill does not. */
  ghost predicate Stops(s: State, s': State, p: nat)
    requires p < |s.publishers|
  {
    var phase := s.publishers[p].phase;
    && phase != NotStarted && phase != Returned && phase != Failed
    && (s' == Put(s, p, Cleaning) || s' == Put(s, p, Failed))
  }

  /** The system writes one directory entry to disk on its own. */
  ghost predicate WritesBack(s: State, s': State) {
    exists name: Name ::
      s' == s.(disk := if name in s.entries then s.disk[name := s.entries[name]] else s.disk - {name})
  }

  ghost predicate MachineCrash(s: State, s': State) {
    && s'.entries == s.disk && s'.disk == s.disk && s'.crashes == s.crashes + 1
    && |s'.files| == |s.files|
    && (forall f :: 0 <= f < |s.files| ==>
          s'.files[f].owner == s.files[f].owner && s'.files[f].synced == s.files[f].synced
          && (s.files[f].synced ==> s'.files[f] == s.files[f]))
    && |s'.publishers| == |s.publishers|
    && (forall p :: 0 <= p < |s.publishers| ==>
          var me := s.publishers[p];
          s'.publishers[p] == if me.phase == NotStarted || me.phase == Returned then me else me.(phase := Failed))
  }

  ghost predicate Next(s: State, s': State) {
    || WritesBack(s, s') || MachineCrash(s, s')
    || exists p :: 0 <= p < |s.publishers| && (Publishes(s, s', p) || Stops(s, s', p))
  }

  ghost predicate Behavior(tr: seq<State>) {
    tr != [] && Init(tr[0]) && forall i, j :: 0 <= i && j == i + 1 < |tr| ==> Next(tr[i], tr[j])
  }

  // ----- the invariant

  /** A synced file holding one publisher's whole payload. */
  ghost predicate Complete(s: State, f: nat) {
    && f < |s.files| && s.files[f].synced && s.files[f].owner < |s.publishers|
    && s.files[f].data == s.publishers[s.files[f].owner].payload
  }

  ghost predicate PublisherOk(s: State, p: nat)
    requires p < |s.publishers|
  {
    var me := s.publishers[p];
    && (me.phase != NotStarted ==> me.file < |s.files| && s.files[me.file].owner == p)
    && (me.phase == Written ==> s.files[me.file].data == me.payload)
    && (me.phase in {Writing, Written} ==> !s.files[me.file].synced)
    && (me.phase in {Synced, Linked, Durable, Returned} ==> Complete(s, me.file))
    && (me.phase == Linked ==> Approval in s.entries && s.entries[Approval] == me.file)
    && (me.phase in {Durable, Returned} ==> Approval in s.disk && s.disk[Approval] == me.file)
  }

  ghost predicate Inv(s: State) {
    && (forall p :: 0 <= p < |s.publishers| ==> PublisherOk(s, p))
    && (Approval in s.entries ==> Complete(s, s.entries[Approval]))
    && (Approval in s.disk ==> Approval in s.entries && s.entries[Approval] == s.disk[Approval])
    && (forall p: nat :: Temporary(p) in s.entries ==> p < |s.publishers| && s.publishers[p].phase != NotStarted && s.entries[Temporary(p)] == s.publishers[p].file)
    && (forall p: nat :: Temporary(p) in s.disk ==> p < |s.publishers| && s.publishers[p].phase != NotStarted && s.disk[Temporary(p)] == s.publishers[p].file)
  }

  /** A complete file stays as it is, whatever happens. */
  ghost predicate KeepsFiles(s: State, s': State) {
    && |s.files| <= |s'.files| && |s'.publishers| == |s.publishers|
    && (forall f: nat :: Complete(s, f) ==> s'.files[f] == s.files[f] && Complete(s', f))
    && (forall p :: 0 <= p < |s.publishers| ==> s'.publishers[p].payload == s.publishers[p].payload)
    && (forall p :: 0 <= p < |s.publishers| && s.publishers[p].phase == Returned ==> s'.publishers[p] == s.publishers[p])
  }

  /** The approval path changes only from absent to linked, or back to absent in
      a crash before it reached the disk; on disk it never changes. */
  ghost predicate KeepsApproval(s: State, s': State) {
    && (Approval in s.disk ==> Approval in s'.disk && s'.disk[Approval] == s.disk[Approval])
    && (Approval in s.entries && Approval in s'.entries ==> s'.entries[Approval] == s.entries[Approval])
    && (Approval in s.entries && Approval !in s'.entries ==> s'.crashes > s.crashes && Approval !in s.disk)
    && s.crashes <= s'.crashes
  }

  lemma CreateKeeps(s: State, s': State, p: nat)
    requires Inv(s) && p < |s.publishers| && Publishes(s, s', p)
    requires s.publishers[p].phase == NotStarted
    ensures Inv(s') && KeepsFiles(s, s') && KeepsApproval(s, s')
  {
    forall q | 0 <= q < |s.publishers| ensures PublisherOk(s', q) {
      assert PublisherOk(s, q) && PublisherOk(s, p);
    }
  }

  lemma WriteKeeps(s: State, s': State, p: nat)
    requires Inv(s) && p < |s.publishers| && Publishes(s, s', p)
    requires s.publishers[p].phase == Writing || s.publishers[p].phase == Written
    ensures Inv(s') && KeepsFiles(s, s') && KeepsApproval(s, s')
  {
    forall q | 0 <= q < |s.publishers| ensures PublisherOk(s', q) {
      assert PublisherOk(s, q) && PublisherOk(s, p);
    }
  }

  lemma LinkKeeps(s: State, s': State, p: nat)
    requires Inv(s) && p < |s.publishers| && Publishes(s, s', p)
    requires s.publishers[p].phase == Synced
    ensures Inv(s') && KeepsFiles(s, s') && KeepsApproval(s, s')
  {
    forall q | 0 <= q < |s.publishers| ensures PublisherOk(s', q) {
      assert PublisherOk(s, q) && PublisherOk(s, p);
    }
  }

  lemma SyncKeeps(s: State, s': State, p: nat)
    requires Inv(s) && p < |s.publishers| && Publishes(s, s', p)
    requires s.publishers[p].phase == Linked
    ensures Inv(s') && KeepsFiles(s, s') && KeepsApproval(s, s')
  {
    forall q | 0 <= q < |s.publishers| ensures PublisherOk(s', q) {
      assert PublisherOk(s, q) && PublisherOk(s, p);
    }
  }

  lemma UnlinkKeeps(s: State, s': State, p: nat)
    requires Inv(s) && p < |s.publishers| && Publishes(s, s', p)
    requires s.publishers[p].phase !in {NotStarted, Writing, Written, Synced, Linked}
    ensures Inv(s') && KeepsFiles(s, s') && KeepsApproval(s, s')
  {
    forall q | 0 <= q < |s.publishers| ensures PublisherOk(s', q) {
      assert PublisherOk(s, q) && PublisherOk(s, p);
    }
  }

  lemma PublishKeeps(s: State, s': State, p: nat)
    requires Inv(s) && p < |s.publishers| && Publishes(s, s', p)
    ensures Inv(s') && KeepsFiles(s, s') && KeepsApproval(s, s')
  {
    hide Inv, Publishes, KeepsFiles, KeepsApproval;
    var phase := s.publishers[p].phase;
    if phase == NotStarted {
      CreateKeeps(s, s', p);
    } else if phase == Writing || phase == Written {
      WriteKeeps(s, s', p);
    } else if phase == Synced {
      LinkKeeps(s, s', p);
    } else if phase == Linked {
      SyncKeeps(s, s', p);
    } else {
      UnlinkKeeps(s, s', p);
    }
  }

  lemma StopKeeps(s: State, s': State, p: nat)
    requires Inv(s) && p < |s.publishers| && Stops(s, s', p)
    ensures Inv(s') && KeepsFiles(s, s') && KeepsApproval(s, s')
  {
    forall q | 0 <= q < |s.publishers| ensures PublisherOk(s', q) {
      assert PublisherOk(s, q) && PublisherOk(s, p);
    }
  }

  lemma CrashKeeps(s: State, s': State)
    requires Inv(s) && MachineCrash(s, s')
    ensures Inv(s') && KeepsFiles(s, s') && KeepsApproval(s, s')
  {
    forall p | 0 <= p < |s.publishers| ensures PublisherOk(s', p) {
      assert PublisherOk(s, p);
    }
  }

  lemma WriteBackKeeps(s: State, s': State)
    requires Inv(s) && WritesBack(s, s')
    ensures Inv(s') && KeepsFiles(s, s') && KeepsApproval(s, s')
  {
    forall p | 0 <= p < |s.publishers| ensures PublisherOk(s', p) {
      assert PublisherOk(s, p);
    }
  }

  lemma NextKeeps(s: State, s': State)
    requires Inv(s) && Next(s, s')
    ensures Inv(s') && KeepsFiles(s, s') && KeepsApproval(s, s')
  {
    hide Inv, Publishes, Stops, WritesBack, MachineCrash, KeepsFiles, KeepsApproval;
    if WritesBack(s, s') {
      WriteBackKeeps(s, s');
    } else if MachineCrash(s, s') {
      CrashKeeps(s, s');
    } else {
      var p :| 0 <= p < |s.publishers| && (Publishes(s, s', p) || Stops(s, s', p));
      if Publishes(s, s', p) {
        PublishKeeps(s, s', p);
      } else {
        StopKeeps(s, s', p);
      }
    }
  }

  lemma InitKeeps(s: State)
    requires Init(s)
    ensures Inv(s)
  {
  }

  lemma {:induction false} InvThroughout(tr: seq<State>, n: nat)
    requires Behavior(tr) && n < |tr|
    ensures Inv(tr[n])
  {
    hide Next, Inv, Init;
    if n == 0 {
      InitKeeps(tr[0]);
    } else {
      InvThroughout(tr, n - 1);
      assert Next(tr[n - 1], tr[n]);
      NextKeeps(tr[n - 1], tr[n]);
    }
  }

  // ----- what a reader of the approval path can rely on

  /** Whenever the path exists it holds the complete bytes of one publisher. */
  lemma ApprovalIsComplete(tr: seq<State>, n: nat)
    requires Behavior(tr) && n < |tr| && Approval in tr[n].entries
    ensures Complete(tr[n], tr[n].entries[Approval])
  {
    InvThroughout(tr, n);
  }

  /** While no crash intervenes, a visible approval is never replaced or removed. */
  lemma {:induction false} ApprovalNeverReplaced(tr: seq<State>, n: nat, m: nat)
    requires Behavior(tr) && n <= m < |tr| && Approval in tr[n].entries && tr[m].crashes == tr[n].crashes
    ensures Approval in tr[m].entries && tr[m].entries[Approval] == tr[n].entries[Approval]
    ensures tr[n].entries[Approval] < |tr[n].files| <= |tr[m].files|
    ensures tr[m].files[tr[m].entries[Approval]] == tr[n].files[tr[n].entries[Approval]]
    decreases m - n
  {
    InvThroughout(tr, n);
    InvThroughout(tr, m);
    if n < m {
      assert Next(tr[n], tr[n + 1]);
      NextKeeps(tr[n], tr[n + 1]);
      CrashesGrow(tr, n + 1, m);
      ApprovalNeverReplaced(tr, n + 1, m);
    }
  }

  lemma {:induction false} CrashesGrow(tr: seq<State>, n: nat, m: nat)
    requires Behavior(tr) && n <= m < |tr|
    ensures tr[n].crashes <= tr[m].crashes
    decreases m - n
  {
    if n < m {
      InvThroughout(tr, n);
      assert Next(tr[n], tr[n + 1]);
      NextKeeps(tr[n], tr[n + 1]);
      CrashesGrow(tr, n + 1, m);
    }
  }

  /** From one state to the next a visible approval stays exactly unless the machine
      crashes before the directory has reached the disk. */
  lemma ApprovalSurvivesExactly(tr: seq<State>, n: nat)
    requires Behavior(tr) && n + 1 < |tr| && Approval in tr[n].entries
    ensures (Approval in tr[n + 1].entries && tr[n + 1].entries[Approval] == tr[n].entries[Approval])
       <==> (tr[n + 1].crashes == tr[n].crashes || Approval in tr[n].disk)
  {
    InvThroughout(tr, n);
    var s, s' := tr[n], tr[n + 1];
    assert Next(s, s');
    NextKeeps(s, s');
    if s'.crashes != s.crashes {
      OnlyCrashesCount(s, s');
    }
  }

  lemma OnlyCrashesCount(s: State, s': State)
    requires Next(s, s') && s'.crashes != s.crashes
    ensures MachineCrash(s, s')
  {
    hide MachineCrash;
  }

  /** One publisher links its approval, and the machine crashes before the directory is synced. */
  ghost function LosingRun(i: nat): State {
    var temporary := map[Temporary(0) := 0];
    if i == 0 then State([], map[], map[], 0, [Publisher("x", 0, NotStarted)])
    else if i == 1 then State([File(0, "", false)], temporary, map[], 0, [Publisher("x", 0, Writing)])
    else if i == 2 then State([File(0, "x", false)], temporary, map[], 0, [Publisher("x", 0, Written)])
    else if i == 3 then State([File(0, "x", true)], temporary, map[], 0, [Publisher("x", 0, Synced)])
    else if i == 4 then State([File(0, "x", true)], temporary[Approval := 0], map[], 0, [Publisher("x", 0, Linked)])
    else State([File(0, "x", true)], map[], map[], 1, [Publisher("x", 0, Failed)])
  }

  lemma LosingRunPublishes(i: nat)
    requires i < 4
    ensures Publishes(LosingRun(i), LosingRun(i + 1), 0)
  {
    if i == 1 {
      assert "x"[..1] == "x";
      assert LosingRun(2) == Wrote(LosingRun(1), 0, 1);
    }
  }

  /** So a crash can take a visible approval away. */
  lemma CrashCanLoseAVisibleApproval() returns (tr: seq<State>)
    ensures Behavior(tr) && |tr| == 6 && Approval in tr[4].entries && Approval !in tr[5].entries
  {
    tr := seq(6, (i: nat) => LosingRun(i));
    assert MachineCrash(LosingRun(4), LosingRun(5));
    assert Init(tr[0]);
    hide Publishes, MachineCrash;
    forall i, j | 0 <= i && j == i + 1 < |tr| ensures Next(tr[i], tr[j]) {
      if i < 4 {
        LosingRunPublishes(i);
        assert 0 <= 0 < |tr[i].publishers|;
      }
    }
  }

  /** Once on disk, the approval survives every later crash unchanged. */
  lemma {:induction false} DurableForever(tr: seq<State>, n: nat, m: nat)
    requires Behavior(tr) && n <= m < |tr| && Approval in tr[n].disk
    ensures tr[n].disk[Approval] < |tr[n].files| <= |tr[m].files|
    ensures Approval in tr[m].entries && tr[m].entries[Approval] == tr[n].disk[Approval]
    ensures tr[m].files[tr[n].disk[Approval]] == tr[n].files[tr[n].disk[Approval]]
    decreases m - n
  {
    InvThroughout(tr, n);
    if n < m {
      assert Next(tr[n], tr[n + 1]);
      NextKeeps(tr[n], tr[n + 1]);
      DurableForever(tr, n + 1, m);
    }
  }

  /** Once `publish` has returned, the path holds exactly the returned
      publisher's bytes in every later state, crashes included. */
  lemma ReturnedIsDurable(tr: seq<State>, n: nat, m: nat, p: nat)
    requires Behavior(tr) && n <= m < |tr| && p < |tr[n].publishers| && tr[n].publishers[p].phase == Returned
    ensures Approval in tr[m].entries
    ensures var f := tr[m].entries[Approval];
            f < |tr[m].files| && tr[m].files[f].data == tr[n].publishers[p].payload && tr[m].files[f].owner == p
  {
    InvThroughout(tr, n);
    assert PublisherOk(tr[n], p);
    DurableForever(tr, n, m);
  }

  /** At most one publisher ever succeeds. */
  lemma OnlyOneReturns(tr: seq<State>, n: nat, p: nat, q: nat)
    requires Behavior(tr) && n < |tr| && p < |tr[n].publishers| && q < |tr[n].publishers|
    requires tr[n].publishers[p].phase == Returned && tr[n].publishers[q].phase == Returned
    ensures p == q
  {
    ReturnedIsDurable(tr, n, n, p);
    ReturnedIsDurable(tr, n, n, q);
  }

  /** The publisher of `LosingRun` without the crash: it syncs the directory, removes its
      temporary name and returns. */
  ghost function ReturningRun(i: nat): State {
    var linked := LosingRun(4);
    if i <= 4 then LosingRun(i)
    else if i == 5 then Put(linked, 0, Durable).(disk := linked.entries)
    else Put(linked, 0, Returned).(disk := linked.entries, entries := linked.entries - {Temporary(0)})
  }

  lemma ReturningRunEnds(i: nat)
    requires i == 4 || i == 5
    ensures Publishes(ReturningRun(i), ReturningRun(i + 1), 0)
  {
    assert ReturningRun(5).publishers[0].phase == Durable;
  }

  lemma SomePublisherReturns() returns (tr: seq<State>)
    ensures Behavior(tr) && |tr| == 7 && |tr[6].publishers| == 1 && tr[6].publishers[0].phase == Returned
  {
    tr := seq(7, (i: nat) => ReturningRun(i));
    assert Init(tr[0]);
    hide Publishes;
    forall i, j | 0 <= i && j == i + 1 < |tr| ensures Next(tr[i], tr[j]) {
      if i < 4 {
        LosingRunPublishes(i);
      } else {
        ReturningRunEnds(i);
      }
      assert 0 <= 0 < |tr[i].publishers|;
    }
  }
}
