/** The scanner restart diagnostic: the rounds of a fixed-budget worker, what the
    diagnostic accepts of them, and what an accepted run is known to have done. */
module RestartTrace {

  /** A text field of a report: left out, `null`, or a string. */
  datatype Field = Absent | Null | Str(text: string)

  /** One round's report, once every field has the type the checks ask for.  A report with a
      counter that is no integer, a flag that is no boolean or a marker that is neither text nor
      null is refused by the diagnostic and stands as `Unreadable` among the workers' results.
      `committed`, `indexed`, `indexComplete` and `parent` are the fields named
      `raw_page_index_…`.  `marked` says that one of the keys `fixture`, `fixture_only`,
      `dry_run` and `synthetic` is true; the diagnostic ignores it. */
  datatype Report = Report(
    schema: int, round: int, pid: int, objectsExpected: int, rawEntryBudget: int,
    rawEntries: int, rawNameBytes: int, objectsBefore: int, objectsRetained: int,
    versionsRetained: int, bytesRetained: int, objectsProcessed: int,
    committed: int, indexed: int,
    first: Field, last: Field, parent: Field,
    indexComplete: bool, snapshotComplete: bool, outcome: string, marked: bool)

  function Utf8Length(s: string): nat {
    if s == "" then 0
    else
      var c := s[0] as int;
      (if c < 0x80 then 1 else if c < 0x800 then 2 else if c < 0x10000 then 3 else 4) + Utf8Length(s[1..])
  }

  predicate Named(f: Field) { f.Str? && 0 < Utf8Length(f.text) <= 512 }

  predicate Counter(n: int) { 0 <= n <= 1048576 }

  predicate Counters(r: Report) {
    && Counter(r.rawEntries) && Counter(r.rawNameBytes) && Counter(r.objectsBefore)
    && Counter(r.objectsRetained) && Counter(r.versionsRetained) && Counter(r.bytesRetained)
    && Counter(r.objectsProcessed) && Counter(r.committed) && Counter(r.indexed)
  }

  predicate Marker(r: Report, f: Field) {
    (r.rawEntries == 0 && r.objectsProcessed > 0 && !f.Str?) || Named(f)
  }

  predicate Outcome(o: string) { o == "complete" || o == "partial" || o == "cancelled_without_cache" }

  predicate ValidReport(r: Report, round: int, pid: int, objects: int, budget: int) {
    && r.schema == 1 && r.round == round && r.pid == pid && r.objectsExpected == objects && r.rawEntryBudget == budget
    && Counters(r)
    && (r.rawEntries > 0 || r.objectsProcessed > 0)
    && r.rawEntries <= budget && r.objectsProcessed <= budget
    && Marker(r, r.first) && Marker(r, r.last)
    && (r.parent.Null? || Named(r.parent))
    && Outcome(r.outcome)
    && r.committed <= r.indexed
    && (r.parent == Str("bucket") ==> r.indexed <= objects)
    && r.objectsRetained <= r.objectsBefore + r.objectsProcessed
  }

  predicate FullyRetained(r: Report, objects: int) {
    r.objectsRetained == objects && r.versionsRetained == objects && r.bytesRetained == objects
  }

  predicate Converged(r: Report, objects: int) {
    r.snapshotComplete && r.outcome == "complete" && FullyRetained(r, objects)
  }

  predicate IndexProgressed(p: Report, r: Report) {
    p.parent == r.parent && (r.committed > p.committed || (r.indexComplete && !p.indexComplete))
  }

  predicate Replays(p: Report, r: Report) {
    && p.rawEntries != 0 && r.rawEntries != 0
    && p.first.Str? && r.first.Str? && p.last.Str? && r.last.Str?
    && p.first == r.first && p.last == r.last
    && p.objectsRetained == r.objectsBefore && r.objectsRetained == p.objectsRetained
    && !IndexProgressed(p, r)
  }

  predicate CompleteRecheck(p: Report, r: Report, objects: int) {
    FullyRetained(p, objects) && Converged(r, objects)
  }

  // ----- what the diagnostic accepts

  predicate Follows(p: Report, r: Report, objects: int) {
    && r.objectsBefore == p.objectsRetained
    && r.objectsRetained >= p.objectsRetained
    && (Replays(p, r) ==> CompleteRecheck(p, r, objects))
    && (r.parent == p.parent && r.committed < p.committed ==> p.indexComplete)
  }

  predicate Enumerated(r: Report) { r.rawEntries > 0 || r.indexed > 0 }
  predicate CommittedPage(r: Report) { r.parent == Str("bucket") && r.committed > 0 }
  predicate Classified(r: Report) { r.objectsProcessed > 0 }
  predicate Persisted(r: Report) { r.objectsRetained > r.objectsBefore }

  ghost predicate Linked(reports: seq<Report>, objects: int, budget: int) {
    && (forall i :: 0 <= i < |reports| ==> ValidReport(reports[i], i, reports[i].pid, objects, budget))
    && (forall i, j :: 0 <= i && j == i + 1 < |reports| ==> Follows(reports[i], reports[j], objects))
  }

  ghost predicate Any(reports: seq<Report>, P: Report -> bool) {
    exists i :: 0 <= i < |reports| && P(reports[i])
  }

  ghost predicate Progressed(reports: seq<Report>) {
    && Any(reports, Enumerated) && Any(reports, CommittedPage)
    && Any(reports, Classified) && Any(reports, Persisted)
  }

  ghost predicate Accepts(reports: seq<Report>, objects: int, budget: int, requireConverged: bool) {
    && reports != [] && Linked(reports, objects, budget) && Progressed(reports)
    && (requireConverged ==> Converged(reports[|reports| - 1], objects))
  }

  /** `validate_recoverable_quantum`, with its flags and `previous`. */
  method ValidateRecoverableQuantum(reports: seq<Report>, objects: int, budget: int, requireConverged: bool)
    returns (ok: bool)
    ensures ok <==> Accepts(reports, objects, budget, requireConverged)
  {
    if reports == [] {
      return false;
    }
    hide *;
    var enumerated, committed, classified, persisted := false, false, false, false;
    var previous := reports[0];
    NothingYet(reports, objects, budget);
    for i := 0 to |reports|
      invariant i > 0 ==> previous == reports[i - 1]
      invariant Linked(reports[..i], objects, budget)
      invariant Flags(reports[..i], enumerated, committed, classified, persisted)
    {
      var report := reports[i];
      OneRound(reports, objects, budget, i);
      FlagsStep(reports, i, enumerated, committed, classified, persisted);
      if !ValidReport(report, i, report.pid, objects, budget) {
        NotAccepted(reports, objects, budget, requireConverged);
        return false;
      }
      committed := committed || CommittedPage(report);
      if i > 0 && !Follows(previous, report, objects) {
        NotAccepted(reports, objects, budget, requireConverged);
        return false;
      }
      enumerated := enumerated || Enumerated(report);
      classified := classified || Classified(report);
      persisted := persisted || Persisted(report);
      previous := report;
    }
    assert reports[..|reports|] == reports;
    FlagsDecide(reports, objects, budget, requireConverged, enumerated, committed, classified, persisted);
    return enumerated && committed && classified && persisted
      && (requireConverged ==> Converged(reports[|reports| - 1], objects));
  }

  /** What the four flags say of the rounds seen. */
  ghost predicate Flags(reports: seq<Report>, enumerated: bool, committed: bool, classified: bool, persisted: bool) {
    && (enumerated <==> Any(reports, Enumerated)) && (committed <==> Any(reports, CommittedPage))
    && (classified <==> Any(reports, Classified)) && (persisted <==> Any(reports, Persisted))
  }

  lemma NothingYet(reports: seq<Report>, objects: int, budget: int)
    ensures Linked(reports[..0], objects, budget) && Flags(reports[..0], false, false, false, false)
  {
  }

  lemma FlagsStep(reports: seq<Report>, i: nat, enumerated: bool, committed: bool, classified: bool, persisted: bool)
    requires i < |reports| && Flags(reports[..i], enumerated, committed, classified, persisted)
    ensures var r := reports[i];
            Flags(reports[..i + 1], enumerated || Enumerated(r), committed || CommittedPage(r),
                  classified || Classified(r), persisted || Persisted(r))
  {
    hide Any, Enumerated, CommittedPage, Classified, Persisted;
    AnyStep(reports, i, Enumerated);
    AnyStep(reports, i, CommittedPage);
    AnyStep(reports, i, Classified);
    AnyStep(reports, i, Persisted);
  }

  lemma NotAccepted(reports: seq<Report>, objects: int, budget: int, requireConverged: bool)
    requires !Linked(reports, objects, budget)
    ensures !Accepts(reports, objects, budget, requireConverged)
  {
    hide Linked;
  }

  lemma FlagsDecide(reports: seq<Report>, objects: int, budget: int, requireConverged: bool,
                    enumerated: bool, committed: bool, classified: bool, persisted: bool)
    requires reports != [] && Linked(reports, objects, budget) && Flags(reports, enumerated, committed, classified, persisted)
    ensures Accepts(reports, objects, budget, requireConverged) <==>
            && enumerated && committed && classified && persisted
            && (requireConverged ==> Converged(reports[|reports| - 1], objects))
  {
    hide Linked, Any, Converged;
  }

  lemma OneRound(reports: seq<Report>, objects: int, budget: int, i: nat)
    requires i < |reports|
    ensures Linked(reports[..i + 1], objects, budget) <==>
            && Linked(reports[..i], objects, budget)
            && ValidReport(reports[i], i, reports[i].pid, objects, budget)
            && (i > 0 ==> Follows(reports[i - 1], reports[i], objects))
    ensures Linked(reports, objects, budget) ==> Linked(reports[..i + 1], objects, budget)
  {
    hide ValidReport, Follows;
    var a, b := reports[..i], reports[..i + 1];
    if Linked(b, objects, budget) {
      assert b[i] == reports[i] && (i > 0 ==> b[i - 1] == reports[i - 1]);
      assert forall k :: 0 <= k < i ==> a[k] == b[k];
    }
  }

  lemma AnyStep(reports: seq<Report>, i: nat, P: Report -> bool)
    requires i < |reports|
    ensures Any(reports[..i + 1], P) <==> Any(reports[..i], P) || P(reports[i])
  {
    var a, b := reports[..i], reports[..i + 1];
    assert b[i] == reports[i];
    if k :| 0 <= k < |a| && P(a[k]) {
      assert b[k] == a[k];
    }
    if k :| 0 <= k < |b| && P(b[k]) {
      assert k < i ==> a[k] == b[k];
    }
  }

  // ----- what every accepted trace has done

  lemma {:induction false} RetainedNeverDecreases(reports: seq<Report>, objects: int, budget: int, i: nat, j: nat)
    requires Linked(reports, objects, budget) && i <= j < |reports|
    ensures reports[i].objectsRetained <= reports[j].objectsRetained
  {
    if i < j {
      RetainedNeverDecreases(reports, objects, budget, i, j - 1);
      assert Follows(reports[j - 1], reports[j], objects);
    }
  }

  function Processed(reports: seq<Report>): int {
    if reports == [] then 0 else Processed(reports[..|reports| - 1]) + reports[|reports| - 1].objectsProcessed
  }

  /** What was gained over a run was paid for by processed objects, and so by the budget. */
  lemma {:induction false} RetentionIsPaidFor(reports: seq<Report>, objects: int, budget: int)
    requires Linked(reports, objects, budget) && reports != []
    ensures reports[|reports| - 1].objectsRetained - reports[0].objectsBefore <= Processed(reports) <= |reports| * budget
  {
    hide Linked, ValidReport, Follows;
    var n := |reports| - 1;
    LastRound(reports, objects, budget);
    var shorter := reports[..n];
    if n > 0 {
      assert shorter[n - 1] == reports[n - 1] && shorter[0] == reports[0];
      RetentionIsPaidFor(shorter, objects, budget);
      OneMore(n, budget);
    } else {
      assert shorter == [];
    }
  }

  lemma LastRound(reports: seq<Report>, objects: int, budget: int)
    requires Linked(reports, objects, budget) && reports != []
    ensures var n := |reports| - 1;
            && Linked(reports[..n], objects, budget)
            && reports[n].objectsProcessed <= budget
            && reports[n].objectsRetained <= reports[n].objectsBefore + reports[n].objectsProcessed
            && (n > 0 ==> reports[n].objectsBefore == reports[n - 1].objectsRetained)
  {
    var n := |reports| - 1;
    assert ValidReport(reports[n], n, reports[n].pid, objects, budget);
    assert n > 0 ==> Follows(reports[n - 1], reports[n], objects);
    hide ValidReport, Follows;
    assert forall k :: 0 <= k < n ==> reports[..n][k] == reports[k];
  }

  lemma OneMore(n: nat, budget: int)
    ensures (n + 1) * budget == n * budget + budget
  {
  }

  /** While the parent stays the same and the index is incomplete, committed entries never decrease. */
  lemma {:induction false} CommittedNeverDecreases(reports: seq<Report>, objects: int, budget: int, i: nat, j: nat)
    requires Linked(reports, objects, budget) && i <= j < |reports|
    requires forall k :: i <= k <= j ==> reports[k].parent == reports[i].parent
    requires forall k :: i <= k < j ==> !reports[k].indexComplete
    ensures reports[i].committed <= reports[j].committed
  {
    if i < j {
      CommittedNeverDecreases(reports, objects, budget, i, j - 1);
      assert Follows(reports[j - 1], reports[j], objects);
    }
  }

  /** Some object was expected and the budget was positive in every accepted, converged trace. */
  lemma AcceptedIsNotTrivial(reports: seq<Report>, objects: int, budget: int)
    requires Accepts(reports, objects, budget, true)
    ensures 1 <= objects <= 1048576 && 1 <= budget
  {
    var n := |reports| - 1;
    var i :| 0 <= i < |reports| && Persisted(reports[i]);
    assert ValidReport(reports[i], i, reports[i].pid, objects, budget);
    assert ValidReport(reports[n], n, reports[n].pid, objects, budget);
    RetainedNeverDecreases(reports, objects, budget, i, n);
  }

  // ----- the round loop

  datatype Worker = TimedOut | Failed(status: int) | Oversized | Unreadable | Finished(pid: int, report: Report)

  /** Round `i` ended with a readable report that passes for its worker. */
  predicate Good(worker: nat -> Worker, i: nat, objects: int, budget: int) {
    worker(i).Finished? && ValidReport(worker(i).report, i, worker(i).pid, objects, budget)
  }

  /** `reports` is what the first rounds wrote, none but possibly the last having converged. */
  ghost predicate Written(worker: nat -> Worker, reports: seq<Report>, objects: int, budget: int) {
    && (forall i: nat :: i < |reports| ==> Good(worker, i, objects, budget) && reports[i] == worker(i).report)
    && (forall i: nat :: i < |reports| - 1 ==> !Converged(reports[i], objects))
  }

  ghost predicate Passes(worker: nat -> Worker, reports: seq<Report>, rounds: nat, objects: int, budget: int) {
    |reports| <= rounds && Written(worker, reports, objects, budget) && Accepts(reports, objects, budget, true)
  }

  ghost predicate Unmet(worker: nat -> Worker, reports: seq<Report>, rounds: nat, objects: int, budget: int) {
    && |reports| == rounds && Written(worker, reports, objects, budget) && Accepts(reports, objects, budget, false)
    && !Converged(reports[rounds - 1], objects)
  }

  ghost predicate SomeReplay(reports: seq<Report>) {
    exists i, j :: 0 <= i && j == i + 1 < |reports| && Replays(reports[i], reports[j])
  }

  /** `run`: 0 after a converged round, 1 after all rounds without one, 2 for every error. */
  method Run(worker: nat -> Worker, rounds: nat, objects: int, budget: int)
    returns (exit: int, reports: seq<Report>, replayed: bool)
    ensures exit == 0 || exit == 1 || exit == 2
    ensures exit == 0 ==> Passes(worker, reports, rounds, objects, budget)
    ensures exit == 1 ==> Unmet(worker, reports, rounds, objects, budget)
    ensures exit == 0 <==> exists s :: Passes(worker, s, rounds, objects, budget)
    ensures exit == 1 <==> exists s :: Unmet(worker, s, rounds, objects, budget)
    ensures exit != 2 ==> (replayed <==> SomeReplay(reports))
  {
    hide ValidReport, Converged, Replays, Linked, Progressed;
    reports, replayed := [], false;
    for round := 0 to rounds
      invariant |reports| == round
      invariant Written(worker, reports, objects, budget)
      invariant round > 0 ==> !Converged(reports[round - 1], objects)
      invariant replayed <==> SomeReplay(reports)
    {
      var w := worker(round);
      if !w.Finished? || !ValidReport(w.report, round, w.pid, objects, budget) {
        ErrorEnds(worker, reports, rounds, objects, budget);
        return 2, reports, replayed;
      }
      ReplayStep(reports, w.report);
      if reports != [] && Replays(reports[|reports| - 1], w.report) {
        replayed := true;
      }
      reports := reports + [w.report];
      if Converged(w.report, objects) {
        var ok := ValidateRecoverableQuantum(reports, objects, budget, true);
        if ok {
          PassingIsNotUnmet(worker, reports, rounds, objects, budget);
        } else {
          ConvergedEnds(worker, reports, rounds, objects, budget);
        }
        return if ok then 0 else 2, reports, replayed;
      }
    }
    var ok := ValidateRecoverableQuantum(reports, objects, budget, false);
    if ok {
      UnmetIsNotPassing(worker, reports, rounds, objects, budget);
    } else {
      ExhaustedEnds(worker, reports, rounds, objects, budget);
    }
    return if ok then 1 else 2, reports, replayed;
  }

  lemma ReplayStep(reports: seq<Report>, r: Report)
    ensures SomeReplay(reports + [r]) <==> SomeReplay(reports) || (reports != [] && Replays(reports[|reports| - 1], r))
  {
    hide Replays;
    var longer := reports + [r];
    if SomeReplay(reports) {
      var i, j :| 0 <= i && j == i + 1 < |reports| && Replays(reports[i], reports[j]);
      assert Replays(longer[i], longer[j]);
    }
    if reports != [] && Replays(reports[|reports| - 1], r) {
      assert Replays(longer[|reports| - 1], longer[|reports|]);
    }
  }

  /** Two written traces agree where both have a round. */
  lemma SameRounds(worker: nat -> Worker, a: seq<Report>, b: seq<Report>, objects: int, budget: int)
    requires Written(worker, a, objects, budget) && Written(worker, b, objects, budget) && |a| <= |b|
    ensures a == b[..|a|]
  {
    hide Good, Converged;
  }

  /** No history of the workers both passes and stays unmet. */
  lemma NeverBoth(worker: nat -> Worker, a: seq<Report>, b: seq<Report>, rounds: nat, objects: int, budget: int)
    requires Passes(worker, a, rounds, objects, budget)
    ensures !Unmet(worker, b, rounds, objects, budget)
  {
    hide Good, Converged, Linked, Progressed;
    if Written(worker, b, objects, budget) && |b| == rounds {
      SameRounds(worker, a, b, objects, budget);
      assert b[|a| - 1] == a[|a| - 1];
    }
  }

  lemma PassingIsNotUnmet(worker: nat -> Worker, reports: seq<Report>, rounds: nat, objects: int, budget: int)
    requires Passes(worker, reports, rounds, objects, budget)
    ensures forall s :: !Unmet(worker, s, rounds, objects, budget)
  {
    hide *;
    forall s ensures !Unmet(worker, s, rounds, objects, budget) {
      NeverBoth(worker, reports, s, rounds, objects, budget);
    }
  }

  lemma UnmetIsNotPassing(worker: nat -> Worker, reports: seq<Report>, rounds: nat, objects: int, budget: int)
    requires Unmet(worker, reports, rounds, objects, budget)
    ensures forall s :: !Passes(worker, s, rounds, objects, budget)
  {
    hide *;
    forall s ensures !Passes(worker, s, rounds, objects, budget) {
      if Passes(worker, s, rounds, objects, budget) {
        NeverBoth(worker, s, reports, rounds, objects, budget);
      }
    }
  }

  lemma ErrorEnds(worker: nat -> Worker, reports: seq<Report>, rounds: nat, objects: int, budget: int)
    requires |reports| < rounds && Written(worker, reports, objects, budget) && !Good(worker, |reports|, objects, budget)
    requires reports != [] ==> !Converged(reports[|reports| - 1], objects)
    ensures forall s :: !Passes(worker, s, rounds, objects, budget) && !Unmet(worker, s, rounds, objects, budget)
  {
    hide Good, Converged, Linked, Progressed;
    forall s ensures !Passes(worker, s, rounds, objects, budget) && !Unmet(worker, s, rounds, objects, budget) {
      if Written(worker, s, objects, budget) && s != [] {
        if |s| <= |reports| {
          SameRounds(worker, s, reports, objects, budget);
          assert s[|s| - 1] == reports[|s| - 1];
        }
      }
    }
  }

  lemma ConvergedEnds(worker: nat -> Worker, reports: seq<Report>, rounds: nat, objects: int, budget: int)
    requires 0 < |reports| <= rounds && Written(worker, reports, objects, budget)
    requires Converged(reports[|reports| - 1], objects) && !Accepts(reports, objects, budget, true)
    ensures forall s :: !Passes(worker, s, rounds, objects, budget) && !Unmet(worker, s, rounds, objects, budget)
  {
    hide Good, Converged, Linked, Progressed;
    forall s ensures !Passes(worker, s, rounds, objects, budget) && !Unmet(worker, s, rounds, objects, budget) {
      if Written(worker, s, objects, budget) && s != [] {
        if |s| <= |reports| {
          SameRounds(worker, s, reports, objects, budget);
          assert s[|s| - 1] == reports[|s| - 1];
          assert |s| == |reports| ==> s == reports;
        } else {
          SameRounds(worker, reports, s, objects, budget);
        }
      }
    }
  }

  lemma ExhaustedEnds(worker: nat -> Worker, reports: seq<Report>, rounds: nat, objects: int, budget: int)
    requires |reports| == rounds && Written(worker, reports, objects, budget) && !Accepts(reports, objects, budget, false)
    requires reports != [] ==> !Converged(reports[|reports| - 1], objects)
    ensures forall s :: !Passes(worker, s, rounds, objects, budget) && !Unmet(worker, s, rounds, objects, budget)
  {
    hide Good, Converged, Linked, Progressed;
    forall s ensures !Passes(worker, s, rounds, objects, budget) && !Unmet(worker, s, rounds, objects, budget) {
      if Written(worker, s, objects, budget) && s != [] && |s| <= rounds {
        SameRounds(worker, s, reports, objects, budget);
        assert s[|s| - 1] == reports[|s| - 1];
        assert |s| == |reports| ==> s == reports;
      }
    }
  }

  /** A passing run replays a raw window at most in its last pair, as a complete recheck. */
  lemma PassingRunReplaysOnlyAsRecheck(worker: nat -> Worker, reports: seq<Report>, rounds: nat, objects: int, budget: int, i: nat)
    requires Passes(worker, reports, rounds, objects, budget)
    requires i + 1 < |reports| && Replays(reports[i], reports[i + 1])
    ensures i + 1 == |reports| - 1 && CompleteRecheck(reports[i], reports[i + 1], objects)
  {
    var j := i + 1;
    assert Follows(reports[i], reports[j], objects);
  }

  /** A run that ends with exit 1 has replayed nothing, so its report never names a replay. */
  lemma UnmetRunNeverReplays(worker: nat -> Worker, reports: seq<Report>, rounds: nat, objects: int, budget: int)
    requires Unmet(worker, reports, rounds, objects, budget)
    ensures !SomeReplay(reports)
  {
    hide Replays, Converged, ValidReport, Any;
    forall i, j | 0 <= i && j == i + 1 < |reports| ensures !Replays(reports[i], reports[j]) {
      assert Follows(reports[i], reports[j], objects);
      assert !Converged(reports[j], objects);
    }
  }
}
