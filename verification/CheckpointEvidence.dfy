/** The checkpoint and crash evidence assembled from a restart trace, and the
    release checks that judge it. */
module CheckpointEvidence {
  import opened Text
  import opened RestartTrace

  /** The fields the descriptor takes from `summarize`. */
  datatype Summary = Summary(
    objectsExpected: int, rawEntryBudget: int, maxRawEntries: int, maxObjectsProcessed: int,
    attempts: int, objectsProcessed: int, objectsRetained: int, versionsRetained: int, bytesRetained: int,
    restartRounds: int, indexComplete: bool, frontierRetained: bool)

  /** `max(... for report in reports)`. */
  function Max(reports: seq<Report>, f: Report -> int): (m: int)
    requires reports != []
    ensures exists i :: 0 <= i < |reports| && m == f(reports[i])
    ensures forall i :: 0 <= i < |reports| ==> f(reports[i]) <= m
  {
    if |reports| == 1 then assert f(reports[0]) == f(reports[0]); f(reports[0])
    else
      var n := |reports| - 1;
      var m := Max(reports[..n], f);
      assert forall i :: 0 <= i < n ==> reports[..n][i] == reports[i];
      if m < f(reports[n]) then f(reports[n]) else m
  }

  function RawEntries(r: Report): int { r.rawEntries }
  function ObjectsProcessed(r: Report): int { r.objectsProcessed }
  function Committed(r: Report): int { r.committed }
  function Indexed(r: Report): int { r.indexed }

  /** The checks `load_reports` makes of one report: it is measured, and its fields are sane. */
  predicate Loadable(r: Report, round: int) {
    && !r.marked
    && r.schema == 1 && r.round == round
    && r.pid >= 1 && r.objectsExpected >= 1 && r.rawEntryBudget >= 1
    && r.rawEntries >= 0 && r.rawNameBytes >= 0 && r.objectsBefore >= 0 && r.objectsRetained >= 0
    && r.versionsRetained >= 0 && r.bytesRetained >= 0 && r.objectsProcessed >= 0
    && r.committed >= 0 && r.indexed >= 0
    && Outcome(r.outcome)
  }

  ghost predicate Loads(reports: seq<Report>) {
    reports != [] && forall i :: 0 <= i < |reports| ==> Loadable(reports[i], i)
  }

  predicate FinalConverged(final: Report) {
    final.objectsExpected >= 1 && final.rawEntryBudget >= 1 && Converged(final, final.objectsExpected)
  }

  predicate Observed(reports: seq<Report>) {
    && (forall i :: 0 <= i < |reports| ==> reports[i].pid >= 1)
    && |reports| >= 2
    && (exists i :: 0 <= i < |reports| && reports[i].rawEntries > 0)
    && (exists i :: 0 <= i < |reports| && reports[i].committed > 0)
    && (exists i :: 0 <= i < |reports| && reports[i].objectsProcessed > 0)
  }

  ghost predicate Bounded(reports: seq<Report>, budget: int) {
    && (forall i :: 0 <= i < |reports| ==> reports[i].rawEntries <= budget && reports[i].objectsProcessed <= budget)
    && (forall i, j :: 0 <= i && j == i + 1 < |reports| ==> reports[j].objectsBefore == reports[i].objectsRetained)
  }

  ghost predicate Summarizable(reports: seq<Report>) {
    && reports != [] && FinalConverged(reports[|reports| - 1]) && Observed(reports)
    && Bounded(reports, reports[|reports| - 1].rawEntryBudget)
  }

  /** What the fields of a summary say about the trace. */
  ghost predicate Describes(s: Summary, reports: seq<Report>)
    requires reports != []
  {
    var objects := reports[|reports| - 1].objectsExpected;
    && s.objectsExpected == objects && s.rawEntryBudget == reports[|reports| - 1].rawEntryBudget
    && s.maxRawEntries == Max(reports, RawEntries) && s.maxObjectsProcessed == Max(reports, ObjectsProcessed)
    && s.attempts == Processed(reports)
    && s.objectsProcessed == s.objectsRetained == s.versionsRetained == s.bytesRetained == objects
    && s.restartRounds == |reports|
    && (s.indexComplete <==> SomeCommitted(reports, objects) && SomeIndexed(reports, objects))
    && s.frontierRetained
  }

  ghost predicate SomeCommitted(reports: seq<Report>, objects: int) {
    exists i :: 0 <= i < |reports| && reports[i].committed >= objects
  }

  ghost predicate SomeIndexed(reports: seq<Report>, objects: int) {
    exists i :: 0 <= i < |reports| && reports[i].indexed >= objects
  }

  /** `summarize`.  At least two rounds means at least two reports here: two
      processes cannot have written fewer. */
  method Summarize(reports: seq<Report>) returns (r: Option<Summary>)
    requires reports != []
    ensures r.Some? <==> Summarizable(reports)
    ensures r.Some? ==> Describes(r.value, reports)
  {
    hide Observed, Bounded, Max, Processed, SomeCommitted, SomeIndexed;
    var final := reports[|reports| - 1];
    if !FinalConverged(final) || !Observed(reports) {
      return None;
    }
    var ok, frontier := CheckRounds(reports, final.rawEntryBudget);
    if !ok {
      return None;
    }
    AtLeastTwo(reports);
    IndexMaxima(reports, final.objectsExpected);
    return Some(Summary(
      final.objectsExpected, final.rawEntryBudget, Max(reports, RawEntries), Max(reports, ObjectsProcessed), Processed(reports),
      final.objectsRetained, final.objectsRetained, final.versionsRetained, final.bytesRetained, |reports|,
      Max(reports, Committed) >= final.objectsExpected && Max(reports, Indexed) >= final.objectsExpected, frontier));
  }

  lemma AtLeastTwo(reports: seq<Report>)
    requires Observed(reports)
    ensures |reports| >= 2
  {
  }

  lemma IndexMaxima(reports: seq<Report>, objects: int)
    requires reports != []
    ensures Max(reports, Committed) >= objects <==> SomeCommitted(reports, objects)
    ensures Max(reports, Indexed) >= objects <==> SomeIndexed(reports, objects)
  {
    if i :| 0 <= i < |reports| && reports[i].committed >= objects {
      assert Committed(reports[i]) <= Max(reports, Committed);
    }
    if i :| 0 <= i < |reports| && reports[i].indexed >= objects {
      assert Indexed(reports[i]) <= Max(reports, Indexed);
    }
  }

  /** The loop with `previous` and `frontier_retained`. */
  method CheckRounds(reports: seq<Report>, budget: int) returns (ok: bool, frontier: bool)
    requires reports != []
    ensures ok <==> Bounded(reports, budget)
    ensures ok ==> (frontier <==> |reports| >= 2)
  {
    hide Bounded;
    frontier := false;
    var previous := reports[0];
    BoundedStep(reports, budget, 0);
    for i := 0 to |reports|
      invariant i > 0 ==> previous == reports[i - 1]
      invariant Bounded(reports[..i], budget)
      invariant frontier <==> i >= 2
    {
      var report := reports[i];
      BoundedStep(reports, budget, i);
      if report.rawEntries > budget || report.objectsProcessed > budget {
        return false, frontier;
      }
      if i > 0 {
        if report.objectsBefore != previous.objectsRetained {
          return false, frontier;
        }
        frontier := frontier || report.objectsBefore >= previous.objectsRetained;
      }
      previous := report;
    }
    assert reports[..|reports|] == reports;
    return true, frontier;
  }

  lemma BoundedStep(reports: seq<Report>, budget: int, i: nat)
    requires i < |reports|
    ensures Bounded(reports[..i + 1], budget) <==>
            && Bounded(reports[..i], budget)
            && reports[i].rawEntries <= budget && reports[i].objectsProcessed <= budget
            && (i > 0 ==> reports[i].objectsBefore == reports[i - 1].objectsRetained)
    ensures Bounded(reports, budget) ==> Bounded(reports[..i + 1], budget)
    ensures Bounded(reports[..0], budget)
  {
    var a, b := reports[..i], reports[..i + 1];
    assert b[i] == reports[i] && (i > 0 ==> b[i - 1] == reports[i - 1]);
    assert forall k :: 0 <= k < i ==> a[k] == b[k];
  }

  // ----- the release checks

  predicate Between(low: int, n: int, high: int) { low <= n <= high }

  const INT64_MAX := 0x7fff_ffff_ffff_ffff

  /** The G02 checks of `bounded_checkpoint_oracle` and `independent_version_inventory`. */
  predicate PassesG02(s: Summary) {
    && Between(1, s.rawEntryBudget, 4096) && Between(1, s.maxRawEntries, 4096) && Between(1, s.maxObjectsProcessed, 4096)
    && s.maxRawEntries <= s.rawEntryBudget && s.maxObjectsProcessed <= s.rawEntryBudget
    && Between(1, s.objectsExpected, INT64_MAX) && Between(1, s.objectsRetained, INT64_MAX)
    && Between(1, s.versionsRetained, INT64_MAX) && Between(1, s.bytesRetained, INT64_MAX)
    && s.objectsRetained == s.objectsExpected && s.versionsRetained == s.objectsExpected
    && s.bytesRetained == s.objectsExpected
  }

  /** The R-E checks of the restart, enumeration and classification evidence. */
  predicate PassesRE(s: Summary) {
    && Between(2, s.restartRounds, 64) && Between(1, s.rawEntryBudget, 4096)
    && s.indexComplete && s.frontierRetained
    && Between(1, s.objectsProcessed, INT64_MAX) && Between(1, s.objectsRetained, INT64_MAX)
    && Between(1, s.versionsRetained, INT64_MAX) && Between(1, s.bytesRetained, INT64_MAX)
    && s.objectsProcessed <= s.objectsRetained
    && s.versionsRetained == s.objectsRetained && s.bytesRetained == s.objectsRetained
  }

  /** What the summary asks of an accepted, converged trace beyond acceptance. */
  ghost predicate Seen(reports: seq<Report>) {
    && |reports| >= 2
    && (forall i :: 0 <= i < |reports| ==> reports[i].pid >= 1)
    && (exists i :: 0 <= i < |reports| && reports[i].rawEntries > 0)
  }

  /** What loading and summarising ask of it together. */
  ghost predicate Restarted(reports: seq<Report>) {
    Seen(reports) && forall i :: 0 <= i < |reports| ==> !reports[i].marked
  }

  /** An accepted, converged trace loads and summarises exactly when it restarted. */
  lemma AcceptedSummarises(reports: seq<Report>, objects: int, budget: int)
    requires Accepts(reports, objects, budget, true)
    ensures Loads(reports) && Summarizable(reports) <==> Restarted(reports)
  {
    AcceptedIsNotTrivial(reports, objects, budget);
    AcceptedIsBounded(reports, objects, budget);
    AcceptedIsObserved(reports, objects, budget);
    var n := |reports| - 1;
    assert reports[n].objectsExpected == objects && reports[n].rawEntryBudget == budget by { Fields(reports, objects, budget, n); }
    assert FinalConverged(reports[n]);
    hide Accepts, Bounded, FinalConverged;
    forall i | 0 <= i < |reports| ensures Loadable(reports[i], i) <==> reports[i].pid >= 1 && !reports[i].marked {
      Fields(reports, objects, budget, i);
    }
  }

  lemma Fields(reports: seq<Report>, objects: int, budget: int, i: nat)
    requires Accepts(reports, objects, budget, true) && i < |reports|
    ensures var r := reports[i];
            && r.objectsExpected == objects && r.rawEntryBudget == budget
            && (Loadable(r, i) <==> r.pid >= 1 && !r.marked)
            && r.rawEntries <= budget && r.objectsProcessed <= budget && r.committed <= r.indexed
  {
    AcceptedIsNotTrivial(reports, objects, budget);
    assert ValidReport(reports[i], i, reports[i].pid, objects, budget);
  }

  lemma AcceptedIsBounded(reports: seq<Report>, objects: int, budget: int)
    requires Accepts(reports, objects, budget, true)
    ensures Bounded(reports, budget)
  {
    forall i | 0 <= i < |reports| ensures reports[i].rawEntries <= budget && reports[i].objectsProcessed <= budget {
      Fields(reports, objects, budget, i);
    }
    forall i, j | 0 <= i && j == i + 1 < |reports| ensures reports[j].objectsBefore == reports[i].objectsRetained {
      assert Follows(reports[i], reports[j], objects);
    }
  }

  lemma AcceptedIsObserved(reports: seq<Report>, objects: int, budget: int)
    requires Accepts(reports, objects, budget, true)
    ensures Observed(reports) <==> Seen(reports)
  {
    var i :| 0 <= i < |reports| && CommittedPage(reports[i]);
    var j :| 0 <= j < |reports| && Classified(reports[j]);
    assert reports[i].committed > 0 && reports[j].objectsProcessed > 0;
  }

  /** The evidence of an accepted, restarted trace passes G02 exactly under the
      checker's budget limit, and R-E exactly when, within its limits on budget and
      rounds, some round had committed a page entry for every expected object. */
  lemma EvidenceIsJudged(reports: seq<Report>, objects: int, budget: int, s: Summary)
    requires Accepts(reports, objects, budget, true) && Restarted(reports) && Describes(s, reports)
    ensures PassesG02(s) <==> budget <= 4096
    ensures PassesRE(s) <==> budget <= 4096 && |reports| <= 64 && SomeCommitted(reports, objects)
  {
    hide Accepts, Restarted, SomeCommitted, SomeIndexed, Max, Loadable, Processed, PassesG02, PassesRE;
    Nonempty(reports, objects, budget);
    AcceptedIsNotTrivial(reports, objects, budget);
    Fields(reports, objects, budget, |reports| - 1);
    MaximaInRange(reports, objects, budget);
    IndexFollowsCommit(reports, objects, budget);
    Numbers(s, objects, budget);
  }

  /** A passing diagnostic run within the command line's limits always passes G02 once
      it restarted, and R-E exactly when the whole raw page index was committed. */
  lemma PassingRunIsJudged(worker: nat -> Worker, reports: seq<Report>, rounds: nat, objects: int, budget: int, s: Summary)
    requires rounds <= 64 && budget <= 4096 && Passes(worker, reports, rounds, objects, budget)
    requires Restarted(reports) && Describes(s, reports)
    ensures Summarizable(reports) && PassesG02(s)
    ensures PassesRE(s) <==> SomeCommitted(reports, objects)
  {
    hide Accepts, Summarizable, PassesG02, PassesRE, SomeCommitted, Describes, Restarted, Loads;
    AcceptedSummarises(reports, objects, budget);
    EvidenceIsJudged(reports, objects, budget, s);
  }

  lemma Nonempty(reports: seq<Report>, objects: int, budget: int)
    requires Accepts(reports, objects, budget, true) && Restarted(reports)
    ensures |reports| >= 2
  {
  }

  lemma Numbers(s: Summary, objects: int, budget: int)
    requires 1 <= objects <= 1048576 && 1 <= s.maxRawEntries <= budget && 1 <= s.maxObjectsProcessed <= budget
    requires s.rawEntryBudget == budget && s.objectsExpected == objects
    requires s.objectsProcessed == s.objectsRetained == s.versionsRetained == s.bytesRetained == objects
    ensures PassesG02(s) <==> budget <= 4096
    ensures PassesRE(s) <==> budget <= 4096 && 2 <= s.restartRounds <= 64 && s.indexComplete && s.frontierRetained
  {
  }

  lemma MaximaInRange(reports: seq<Report>, objects: int, budget: int)
    requires Accepts(reports, objects, budget, true) && Restarted(reports)
    ensures 1 <= Max(reports, RawEntries) <= budget && 1 <= Max(reports, ObjectsProcessed) <= budget
  {
    var i :| 0 <= i < |reports| && reports[i].rawEntries > 0;
    var j :| 0 <= j < |reports| && Classified(reports[j]);
    assert RawEntries(reports[i]) > 0 && ObjectsProcessed(reports[j]) > 0;
    var k :| 0 <= k < |reports| && Max(reports, RawEntries) == RawEntries(reports[k]);
    var l :| 0 <= l < |reports| && Max(reports, ObjectsProcessed) == ObjectsProcessed(reports[l]);
    Fields(reports, objects, budget, k);
    Fields(reports, objects, budget, l);
  }

  lemma IndexFollowsCommit(reports: seq<Report>, objects: int, budget: int)
    requires Accepts(reports, objects, budget, true)
    ensures SomeCommitted(reports, objects) ==> SomeIndexed(reports, objects)
  {
    if i :| 0 <= i < |reports| && reports[i].committed >= objects {
      Fields(reports, objects, budget, i);
      assert reports[i].indexed >= objects;
    }
  }

  // ----- a trace that passes everything

  lemma {:induction false} Utf8Bounds(s: string)
    ensures |s| <= Utf8Length(s) <= 4 * |s|
  {
    if s != "" {
      Utf8Bounds(s[1..]);
    }
  }

  function SampleRound(i: int): Report {
    Report(1, i, 100 + i, 2, 1, 1, 1, i, i + 1, i + 1, i + 1, 1, i + 1, i + 1, Str("a"), Str("b"), Str("bucket"),
           i == 1, i == 1, if i == 1 then "complete" else "partial", false)
  }

  lemma SampleRoundIsValid(i: int)
    requires 0 <= i <= 1
    ensures ValidReport(SampleRound(i), i, 100 + i, 2, 1)
  {
    Utf8Bounds("a");
    Utf8Bounds("b");
    Utf8Bounds("bucket");
  }

  /** Two objects found one by one in two rounds: accepted, summarised and passing both gates. */
  lemma SampleTracePasses() returns (reports: seq<Report>)
    ensures Accepts(reports, 2, 1, true) && Restarted(reports) && Summarizable(reports)
    ensures forall s :: Describes(s, reports) ==> PassesG02(s) && PassesRE(s)
  {
    hide Accepts, ValidReport;
    reports := [SampleRound(0), SampleRound(1)];
    SampleRoundIsValid(0);
    SampleRoundIsValid(1);
    SampleIsAccepted(reports);
    assert reports[1].committed >= 2 && reports[0].rawEntries > 0;
    assert SomeCommitted(reports, 2) && Restarted(reports);
    hide *;
    AcceptedSummarises(reports, 2, 1);
    forall s | Describes(s, reports) ensures PassesG02(s) && PassesRE(s) {
      EvidenceIsJudged(reports, 2, 1, s);
    }
  }

  lemma SampleIsAccepted(reports: seq<Report>)
    requires reports == [SampleRound(0), SampleRound(1)]
    requires ValidReport(SampleRound(0), 0, 100, 2, 1) && ValidReport(SampleRound(1), 1, 101, 2, 1)
    ensures Accepts(reports, 2, 1, true)
  {
    hide ValidReport;
    assert Follows(reports[0], reports[1], 2);
    var r := reports[0];
    assert Enumerated(r) && CommittedPage(r) && Classified(r) && Persisted(r);
    assert Converged(reports[1], 2);
  }
}
