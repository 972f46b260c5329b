/** The log state machine behind `generate_report`.  The regular expressions that
    classify a log line are abstracted into events. */
module CaseReport {

  datatype Status = Pass | Fail | Unsupported | Running

  datatype Event =
    | Context(text: string)
    | Topology(failures: string)
    | Start(id: string, name: string)
    | Done(status: Status, id: string)
    | Other
  {
    /** A done line carries one of the three final statuses. */
    predicate WellFormed() { Done? ==> status != Running }

    /** Events that end what is pending for case `x`, or open it anew. */
    predicate Concerns(x: string) { Context? || ((Start? || Done?) && id == x) }
  }

  datatype Row = Row(id: string, name: string, status: Status)

  datatype Machine = Machine(
    rows: seq<Row>,
    pending: map<string, nat>,
    context: string,
    complete: bool,
    topology: seq<string>)

  const INITIAL := Machine([], map[], "context not recorded", true, [])

  function Next(m: Machine, e: Event): Machine {
    match e
    case Context(text) => m.(context := text, pending := map[])
    case Topology(failures) => m.(topology := m.topology + [failures])
    case Start(id, name) =>
      m.(pending := m.pending[id := |m.rows|], rows := m.rows + [Row(id, name + " (" + m.context + ")", Running)])
    case Done(status, id) =>
      if id in m.pending && m.pending[id] < |m.rows| then
        var i := m.pending[id];
        m.(pending := m.pending - {id}, rows := m.rows[i := m.rows[i].(status := status)])
      else
        m.(complete := false,
           rows := m.rows + [Row(id, id + " (" + m.context + "; start not recorded)", status)])
    case Other => m
  }

  function Run(es: seq<Event>): Machine {
    if es == [] then INITIAL else Next(Run(es[..|es| - 1]), es[|es| - 1])
  }

  function CountStatus(rows: seq<Row>, s: Status): nat {
    if rows == [] then 0
    else CountStatus(rows[..|rows| - 1], s) + (if rows[|rows| - 1].status == s then 1 else 0)
  }

  /** The verdict on the machine after the whole log. */
  predicate Verdict(m: Machine, matrix: bool) {
    && m.complete && m.rows != [] && CountStatus(m.rows, Fail) == 0 && CountStatus(m.rows, Running) == 0
    && (matrix ==> m.topology != [] && forall k :: 0 <= k < |m.topology| ==> m.topology[k] == "0")
  }

  method GenerateReport(log: seq<Event>, matrix: bool) returns (rows: seq<Row>, valid: bool)
    requires forall k :: 0 <= k < |log| ==> log[k].WellFormed()
    ensures rows == Run(log).rows
    ensures valid <==> Verdict(Run(log), matrix)
  {
    var pending: map<string, nat> := map[];
    var topology: seq<string> := [];
    var context := "context not recorded";
    var complete := true;
    rows := [];
    for n := 0 to |log|
      invariant Machine(rows, pending, context, complete, topology) == Run(log[..n])
      invariant forall x :: x in pending ==> pending[x] < |rows|
    {
      assert log[..n + 1][..n] == log[..n];
      match log[n]
      case Context(text) =>
        context := text;
        pending := map[];
      case Topology(failures) =>
        topology := topology + [failures];
      case Start(id, name) =>
        pending := pending[id := |rows|];
        rows := rows + [Row(id, name + " (" + context + ")", Running)];
      case Done(status, id) =>
        if id in pending {
          var index := pending[id];
          pending := pending - {id};
          rows := rows[index := rows[index].(status := status)];
        } else {
          complete := false;
          rows := rows + [Row(id, id + " (" + context + "; start not recorded)", status)];
        }
      case Other =>
    }
    assert log[..|log|] == log;
    valid := complete && rows != [] && CountStatus(rows, Fail) == 0 && CountStatus(rows, Running) == 0;
    if matrix {
      valid := valid && topology != [] && forall k :: 0 <= k < |topology| ==> topology[k] == "0";
    }
  }

  // ----- pending points at running rows, one row per case

  ghost predicate PendingOk(m: Machine) {
    && (forall x :: x in m.pending ==>
          m.pending[x] < |m.rows| && m.rows[m.pending[x]].id == x && m.rows[m.pending[x]].status == Running)
    && (forall x, y :: x in m.pending && y in m.pending && m.pending[x] == m.pending[y] ==> x == y)
  }

  lemma NextKeepsPending(m: Machine, e: Event)
    requires PendingOk(m) && e.WellFormed()
    ensures PendingOk(Next(m, e))
  {
  }

  ghost predicate AllWellFormed(es: seq<Event>) {
    forall k :: 0 <= k < |es| ==> es[k].WellFormed()
  }

  /** Throughout a log, pending maps case ids one-to-one to running rows of that id. */
  lemma {:induction false} PendingThroughout(es: seq<Event>)
    requires AllWellFormed(es)
    ensures PendingOk(Run(es))
  {
    if es != [] {
      PendingThroughout(es[..|es| - 1]);
      NextKeepsPending(Run(es[..|es| - 1]), es[|es| - 1]);
    }
  }

  // ----- what the verdict means, in terms of the log alone

  ghost predicate Quiet(es: seq<Event>, i: int, j: int, x: string)
    requires 0 <= i && j <= |es|
  {
    forall k :: i < k < j ==> !es[k].Concerns(x)
  }

  /** The start at `i` is still waiting at the end of the log. */
  ghost predicate Open(es: seq<Event>, i: int) {
    0 <= i < |es| && es[i].Start? && Quiet(es, i, |es|, es[i].id)
  }

  /** The done at `j` closes the start at `i`: no context line and no other line
      of that case lies between them. */
  ghost predicate Closes(es: seq<Event>, i: int, j: int) {
    0 <= i < j < |es| && es[i].Start? && es[j].Done? && es[i].id == es[j].id && Quiet(es, i, j, es[i].id)
  }

  ghost predicate Closed(es: seq<Event>, i: int) { exists j :: Closes(es, i, j) }

  ghost predicate Expected(es: seq<Event>, j: int) { exists i :: Closes(es, i, j) }

  ghost predicate SomeCase(es: seq<Event>) { exists k :: 0 <= k < |es| && (es[k].Start? || es[k].Done?) }

  ghost predicate AllClosed(es: seq<Event>) { forall i :: 0 <= i < |es| && es[i].Start? ==> Closed(es, i) }

  ghost predicate AllExpected(es: seq<Event>) { forall j :: 0 <= j < |es| && es[j].Done? ==> Expected(es, j) }

  /** Every start is closed by a done that is not a failure, every done closes a
      start, and there is at least one of them. */
  ghost predicate CleanLog(es: seq<Event>) {
    && SomeCase(es) && AllExpected(es)
    && (forall i :: 0 <= i < |es| && es[i].Start? ==> exists j :: Closes(es, i, j) && es[j].status != Fail)
  }

  lemma Extend(es: seq<Event>, e: Event)
    ensures forall i, j :: 0 <= i && 0 <= j < |es| ==> (Closes(es + [e], i, j) <==> Closes(es, i, j))
    ensures forall i :: 0 <= i < |es| ==>
              (Closes(es + [e], i, |es|) <==> Open(es, i) && e.Done? && e.id == es[i].id)
    ensures forall i :: 0 <= i < |es| ==> (Open(es + [e], i) <==> Open(es, i) && !e.Concerns(es[i].id))
    ensures Open(es + [e], |es|) <==> e.Start?
  {
    var fs := es + [e];
    forall i, j | 0 <= i < j <= |es| && es[i].Start?
      ensures Quiet(fs, i, j, es[i].id) <==> Quiet(es, i, j, es[i].id)
    {
      assert forall k :: i < k < j ==> fs[k] == es[k];
    }
    assert forall i :: 0 <= i < |es| ==> fs[i] == es[i];
  }

  /** A case is pending exactly when one of its starts is open. */
  ghost predicate PendingIsOpen(es: seq<Event>, m: Machine) {
    && (forall i :: Open(es, i) ==> es[i].id in m.pending)
    && (forall x :: x in m.pending ==> exists i :: Open(es, i) && es[i].id == x)
  }

  lemma PendingNext(m: Machine, e: Event, x: string)
    requires PendingOk(m)
    ensures x in Next(m, e).pending <==> (e.Start? && e.id == x) || (x in m.pending && !e.Concerns(x))
  {
  }

  lemma PendingIsOpenStep(es: seq<Event>, e: Event)
    requires AllWellFormed(es) && e.WellFormed() && PendingIsOpen(es, Run(es))
    ensures PendingIsOpen(es + [e], Next(Run(es), e))
  {
    hide Next, Run, Quiet, PendingOk, AllWellFormed;
    var fs, m, m' := es + [e], Run(es), Next(Run(es), e);
    PendingThroughout(es);
    Extend(es, e);
    forall i | Open(fs, i) ensures fs[i].id in m'.pending {
      PendingNext(m, e, fs[i].id);
      assert i < |es| ==> Open(es, i);
    }
    forall x | x in m'.pending ensures exists i :: Open(fs, i) && fs[i].id == x {
      PendingNext(m, e, x);
      if e.Start? && e.id == x {
        assert Open(fs, |es|);
      } else {
        var i :| Open(es, i) && es[i].id == x;
        assert Open(fs, i);
      }
    }
  }

  lemma {:induction false} PendingIsOpenThroughout(es: seq<Event>)
    requires AllWellFormed(es)
    ensures PendingIsOpen(es, Run(es))
  {
    if es != [] {
      var front := es[..|es| - 1];
      PendingIsOpenThroughout(front);
      PendingIsOpenStep(front, es[|es| - 1]);
      assert front + [es[|es| - 1]] == es;
    }
  }

  // The four facts the verdict rests on, each about the log alone.

  ghost predicate NoRowOf(m: Machine, s: Status) { forall r :: 0 <= r < |m.rows| ==> m.rows[r].status != s }

  ghost predicate RunningIsPending(m: Machine) {
    forall r :: 0 <= r < |m.rows| && m.rows[r].status == Running ==> r in m.pending.Values
  }

  ghost predicate NoDoneOf(es: seq<Event>, s: Status) { forall j :: 0 <= j < |es| && es[j].Done? ==> es[j].status != s }

  ghost predicate NoLostStart(es: seq<Event>) {
    forall i :: 0 <= i < |es| && es[i].Start? ==> Closed(es, i) || Open(es, i)
  }

  ghost predicate Tracks(es: seq<Event>, m: Machine) {
    && (m.complete <==> AllExpected(es))
    && (m.rows != [] <==> SomeCase(es))
    && (forall s :: s != Running ==> (NoRowOf(m, s) <==> NoDoneOf(es, s)))
    && (RunningIsPending(m) <==> NoLostStart(es))
  }

  /** Growing the log by `e` changes which dones are expected only at the end. */
  lemma ExpectedGrows(es: seq<Event>, e: Event)
    ensures AllExpected(es + [e]) <==>
            AllExpected(es) && (e.Done? ==> exists i :: Open(es, i) && es[i].id == e.id)
  {
    hide Open, Closes;
    var fs := es + [e];
    OpenBounds(es);
    Extend(es, e);
    ClosesBounds(fs);
    forall j | 0 <= j < |es| ensures fs[j] == es[j] && (Expected(fs, j) <==> Expected(es, j)) {
      ClosesBounds(es);
      if i :| Closes(es, i, j) { assert Closes(fs, i, j); }
      if i :| Closes(fs, i, j) { assert Closes(es, i, j); }
    }
    assert fs[|es|] == e;
    if e.Done? {
      if i :| Open(es, i) && es[i].id == e.id { assert Closes(fs, i, |es|); }
      if i :| Closes(fs, i, |es|) { assert Open(es, i); }
    }
  }

  lemma ClosesBounds(es: seq<Event>)
    ensures forall i, j :: Closes(es, i, j) ==> 0 <= i < j < |es|
  {
    hide Quiet;
  }

  lemma OpenBounds(es: seq<Event>)
    ensures forall i :: Open(es, i) ==> 0 <= i < |es| && es[i].Start?
  {
    hide Quiet;
  }

  lemma CompleteNext(m: Machine, e: Event)
    requires PendingOk(m)
    ensures Next(m, e).complete <==> m.complete && (e.Done? ==> e.id in m.pending)
  {
  }

  lemma ExpectedStep(es: seq<Event>, e: Event)
    requires AllWellFormed(es) && PendingIsOpen(es, Run(es))
    requires Run(es).complete <==> AllExpected(es)
    ensures Next(Run(es), e).complete <==> AllExpected(es + [e])
  {
    hide Next, Run, Open, PendingOk, AllExpected, AllWellFormed;
    PendingThroughout(es);
    CompleteNext(Run(es), e);
    ExpectedGrows(es, e);
    OpenBounds(es);
  }

  lemma DoneGrows(es: seq<Event>, e: Event, s: Status)
    ensures NoDoneOf(es + [e], s) <==> NoDoneOf(es, s) && (e.Done? ==> e.status != s)
  {
    var fs := es + [e];
    assert fs[|es|] == e && forall j :: 0 <= j < |es| ==> fs[j] == es[j];
  }

  lemma RowsGrow(m: Machine, e: Event, s: Status)
    requires PendingOk(m) && s != Running
    ensures NoRowOf(Next(m, e), s) <==> NoRowOf(m, s) && (e.Done? ==> e.status != s)
  {
    var m' := Next(m, e);
    if e.Done? && e.id in m.pending {
      var i := m.pending[e.id];
      assert m'.rows[i].status == e.status && m.rows[i].status == Running;
      assert forall r :: 0 <= r < |m.rows| && r != i ==> m'.rows[r] == m.rows[r];
    } else if e.Done? || e.Start? {
      assert m'.rows[|m.rows|].status == if e.Done? then e.status else Running;
      assert forall r :: 0 <= r < |m.rows| ==> m'.rows[r] == m.rows[r];
    }
  }

  lemma StatusStep(es: seq<Event>, e: Event, s: Status)
    requires AllWellFormed(es) && s != Running
    requires NoRowOf(Run(es), s) <==> NoDoneOf(es, s)
    ensures NoRowOf(Next(Run(es), e), s) <==> NoDoneOf(es + [e], s)
  {
    hide *;
    PendingThroughout(es);
    DoneGrows(es, e, s);
    RowsGrow(Run(es), e, s);
  }

  /** Which starts are lost when the log grows by `e`. */
  lemma LostStarts(es: seq<Event>, e: Event)
    ensures NoLostStart(es + [e]) <==>
            NoLostStart(es) && forall i :: Open(es, i) ==> !e.Context? && !(e.Start? && e.id == es[i].id)
  {
    var fs := es + [e];
    Extend(es, e);
    forall i | 0 <= i < |es| && es[i].Start?
      ensures Closed(fs, i) <==> Closed(es, i) || (Open(es, i) && e.Done? && e.id == es[i].id)
      ensures fs[i] == es[i] && !(Open(es, i) && Closed(es, i))
    {
      if j :| Closes(es, i, j) { assert Closes(fs, i, j) && es[j].Concerns(es[i].id); }
      if j :| Closes(fs, i, j) { assert j < |es| ==> Closes(es, i, j); }
      if Open(es, i) && e.Done? && e.id == es[i].id { assert Closes(fs, i, |es|); }
    }
    assert fs[|es|] == e;
  }

  /** Which running rows stop being pending when the log grows by `e`. */
  lemma LostRows(m: Machine, e: Event)
    requires PendingOk(m) && e.WellFormed()
    ensures RunningIsPending(Next(m, e)) <==>
            RunningIsPending(m) && (e.Context? ==> m.pending == map[]) && (e.Start? ==> e.id !in m.pending)
  {
    var m' := Next(m, e);
    match e
    case Topology(_) =>
    case Other =>
    case Context(_) =>
      if m.pending != map[] {
        var x :| x in m.pending;
        assert m'.rows[m.pending[x]].status == Running;
      } else {
        assert m'.pending == m.pending;
      }
    case Start(x, _) => LostRowsAtStart(m, e);
    case Done(_, x) => LostRowsAtDone(m, e);
  }

  lemma LostRowsAtStart(m: Machine, e: Event)
    requires PendingOk(m) && e.Start?
    ensures RunningIsPending(Next(m, e)) <==> RunningIsPending(m) && e.id !in m.pending
  {
    var m', n := Next(m, e), |m.rows|;
    assert m'.pending[e.id] == n && n in m'.pending.Values;
    forall r | 0 <= r < n
      ensures r in m'.pending.Values <==> r in m.pending.Values && !(e.id in m.pending && m.pending[e.id] == r)
    {
      if y :| y in m.pending && m.pending[y] == r && y != e.id { assert m'.pending[y] == r; }
      if y :| y in m'.pending && m'.pending[y] == r { assert y != e.id && m.pending[y] == r; }
    }
    if e.id in m.pending {
      assert m'.rows[m.pending[e.id]].status == Running;
    }
    assert forall r :: 0 <= r < n ==> m'.rows[r] == m.rows[r];
  }

  lemma LostRowsAtDone(m: Machine, e: Event)
    requires PendingOk(m) && e.Done? && e.WellFormed()
    ensures RunningIsPending(Next(m, e)) <==> RunningIsPending(m)
  {
    var m', n := Next(m, e), |m.rows|;
    if e.id in m.pending {
      var i := m.pending[e.id];
      OthersStayPending(m.pending, e.id);
      assert m'.rows == m.rows[i := m.rows[i].(status := e.status)] && m'.pending == m.pending - {e.id};
      hide Next, PendingOk;
      assert forall r :: 0 <= r < n && r != i ==> m'.rows[r] == m.rows[r];
    } else {
      assert m'.pending == m.pending && forall r :: 0 <= r < n ==> m'.rows[r] == m.rows[r];
    }
  }

  lemma OthersStayPending(pending: map<string, nat>, x: string)
    requires x in pending
    ensures pending[x] in pending.Values
    ensures forall r :: r != pending[x] ==> (r in (pending - {x}).Values <==> r in pending.Values)
  {
    var rest := pending - {x};
    forall r | r != pending[x] ensures r in rest.Values <==> r in pending.Values {
      if y :| y in pending && pending[y] == r { assert rest[y] == r; }
    }
  }

  lemma LostStep(es: seq<Event>, e: Event)
    requires AllWellFormed(es) && e.WellFormed() && PendingIsOpen(es, Run(es))
    requires RunningIsPending(Run(es)) <==> NoLostStart(es)
    ensures RunningIsPending(Next(Run(es), e)) <==> NoLostStart(es + [e])
  {
    var m := Run(es);
    PendingThroughout(es);
    LostStarts(es, e);
    LostRows(m, e);
    assert m.pending == map[] <==> forall x :: x !in m.pending;
    if e.Context? && m.pending != map[] {
      var x :| x in m.pending;
      var i :| Open(es, i) && es[i].id == x;
    }
    if e.Start? && e.id in m.pending {
      var i :| Open(es, i) && es[i].id == e.id;
    }
  }

  lemma {:induction false} TracksThroughout(es: seq<Event>)
    requires AllWellFormed(es)
    ensures Tracks(es, Run(es))
  {
    if es != [] {
      var front, e := es[..|es| - 1], es[|es| - 1];
      assert front + [e] == es;
      TracksThroughout(front);
      PendingIsOpenThroughout(front);
      ExpectedStep(front, e);
      forall s | s != Running ensures NoRowOf(Run(es), s) <==> NoDoneOf(es, s) {
        StatusStep(front, e, s);
      }
      LostStep(front, e);
      CaseStep(front, e);
    }
  }

  lemma CaseStep(es: seq<Event>, e: Event)
    requires Run(es).rows != [] <==> SomeCase(es)
    ensures Next(Run(es), e).rows != [] <==> SomeCase(es + [e])
  {
    var fs := es + [e];
    assert fs[|es|] == e && forall k :: 0 <= k < |es| ==> fs[k] == es[k];
  }

  lemma {:induction false} NoneCounted(rows: seq<Row>, s: Status)
    ensures CountStatus(rows, s) == 0 <==> forall r :: 0 <= r < |rows| ==> rows[r].status != s
  {
    if rows != [] {
      NoneCounted(rows[..|rows| - 1], s);
    }
  }

  /** Nothing runs at the end exactly when every start is closed. */
  lemma NothingRuns(es: seq<Event>)
    requires AllWellFormed(es)
    ensures CountStatus(Run(es).rows, Running) == 0 <==> AllClosed(es)
  {
    var m := Run(es);
    NoneCounted(m.rows, Running);
    TracksThroughout(es);
    PendingThroughout(es);
    PendingIsOpenThroughout(es);
    forall i | Open(es, i)
      ensures !Closed(es, i)
      ensures exists r :: 0 <= r < |m.rows| && m.rows[r].status == Running
    {
      assert forall j :: i < j < |es| ==> !es[j].Concerns(es[i].id);
      assert m.rows[m.pending[es[i].id]].status == Running;
    }
    if RunningIsPending(m) {
      forall r | 0 <= r < |m.rows| && m.rows[r].status == Running ensures exists i :: Open(es, i) {
        assert r in m.pending.Values;
        var x :| x in m.pending && m.pending[x] == r;
        var i :| Open(es, i) && es[i].id == x;
      }
    }
  }

  lemma CloserIsUnique(es: seq<Event>, i: int, j: int, j': int)
    requires Closes(es, i, j) && Closes(es, i, j')
    ensures j == j'
  {
    assert es[j].Concerns(es[i].id) && es[j'].Concerns(es[i].id);
  }

  /** Without a matrix file the report is valid exactly when the log is clean. */
  lemma ValidExactlyOnCleanLogs(es: seq<Event>)
    requires AllWellFormed(es)
    ensures Verdict(Run(es), false) <==> CleanLog(es)
  {
    var m := Run(es);
    TracksThroughout(es);
    NothingRuns(es);
    NoneCounted(m.rows, Fail);
    assert NoRowOf(m, Fail) <==> NoDoneOf(es, Fail);
    if CleanLog(es) {
      forall j | 0 <= j < |es| && es[j].Done? ensures es[j].status != Fail {
        var i :| Closes(es, i, j);
        var j' :| Closes(es, i, j') && es[j'].status != Fail;
        CloserIsUnique(es, i, j, j');
      }
    }
    if Verdict(m, false) {
      forall i | 0 <= i < |es| && es[i].Start? ensures exists j :: Closes(es, i, j) && es[j].status != Fail {
        var j :| Closes(es, i, j);
      }
    }
  }

  // ----- what the counts alone can tell

  /** The count test of `record`: some pass, no failure, nothing running. */
  predicate CountsAccepted(rows: seq<Row>) {
    CountStatus(rows, Pass) > 0 && CountStatus(rows, Fail) == 0 && CountStatus(rows, Running) == 0
  }

  /** The counts accept exactly the logs with a pass, without a failure and with
      every start closed.  They do not see a done that no start announced. */
  lemma CountsAcceptExactly(es: seq<Event>)
    requires AllWellFormed(es)
    ensures CountsAccepted(Run(es).rows) <==>
            !NoDoneOf(es, Pass) && NoDoneOf(es, Fail) && AllClosed(es)
  {
    var m := Run(es);
    TracksThroughout(es);
    NothingRuns(es);
    NoneCounted(m.rows, Pass);
    NoneCounted(m.rows, Fail);
    assert NoRowOf(m, Fail) <==> NoDoneOf(es, Fail);
    assert NoRowOf(m, Pass) <==> NoDoneOf(es, Pass);
  }

  /** So the counts accept a log that the report itself calls invalid. */
  lemma CountsMissUnstartedCase()
    ensures var es := [Done(Pass, "A-1")]; CountsAccepted(Run(es).rows) && !Verdict(Run(es), false)
  {
    var es := [Done(Pass, "A-1")];
    assert es[..0] == [];
    var rows := Run(es).rows;
    assert |rows| == 1 && rows[..0] == [];
  }
}
