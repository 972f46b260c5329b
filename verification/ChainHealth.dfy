/** Collection, merging and publication of the functional-chain dashboard
    (`functional_chain_health.py`).  Timestamps are integers; GitHub's answers
    and the verdict on one run's evidence are inputs. */
module ChainHealth {
  import StableSort

  import opened Text

  /** A verified complete success.  `run` stands for all fields that identify it. */
  datatype Entry = Entry(run: int, completed: int, expires: int, isFresh: bool, retained: bool)

  datatype Document = Document(schema: int, observed: int, entries: map<string, Entry>)

  // ----- collecting

  /** What the inspection of a successful run gives. */
  datatype Evidence = Complete(source: string, entry: Entry) | Rejected

  /** The fields by which a listed attempt is compared with a later listing. */
  datatype Listing = Listing(id: int, attempt: int, status: string, conclusion: string, head: string, started: int)

  /** A listed attempt, the conclusion it has when fetched on its own, and what its
      artifacts prove. */
  datatype Attempt = Attempt(listing: Listing, conclusion: string, evidence: Evidence)
  {
    predicate Succeeded() { conclusion == "success" }

    predicate Verified() { Succeeded() && evidence.Complete? }
  }

  function Listings(runs: seq<Attempt>): seq<Listing> {
    seq(|runs|, k requires 0 <= k < |runs| => runs[k].listing)
  }

  datatype Verification = NoAttempt | NotComplete | Invalid | Verified(source: string)

  datatype Health = Health(latest: Verification, inspected: bool, entries: map<string, Entry>, healthy: bool)

  const HEADS := "refs/heads/"

  function BranchName(r: string): string { if HEADS <= r then r[|HEADS|..] else r }

  function NewestFirst(runs: seq<Attempt>): (r: seq<Attempt>)
    ensures multiset(r) == multiset(runs)
  {
    StableSort.Sort(runs, Age)
  }

  function Age(a: Attempt): int { -a.listing.started }

  /** The attempts that started at one time, in the order they stand. */
  ghost function StartedAt(runs: seq<Attempt>, started: int): seq<Attempt> { StableSort.WithKey(runs, Age, -started) }

  /** Attempts are examined from the newest start to the oldest, and those that started
      together in the order they were listed. */
  lemma NewestFirstKeepsListingOrder(listed: seq<Attempt>, started: int)
    ensures StartedAt(NewestFirst(listed), started) == StartedAt(listed, started)
    ensures var runs := NewestFirst(listed);
            forall i, j :: 0 <= i < j < |runs| ==> runs[i].listing.started >= runs[j].listing.started
  {
    hide StableSort.Sort, StableSort.WithKey;
    StableSort.SortIsStable(listed, Age, -started);
    NewestFirstIsSorted(listed);
  }

  lemma NewestFirstIsSorted(listed: seq<Attempt>)
    ensures var runs := NewestFirst(listed);
            forall i, j :: 0 <= i < j < |runs| ==> runs[i].listing.started >= runs[j].listing.started
  {
    hide StableSort.Sort;
    var runs := NewestFirst(listed);
    forall i, j | 0 <= i < j < |runs| ensures runs[i].listing.started >= runs[j].listing.started {
      assert Age(runs[i]) <= Age(runs[j]);
    }
  }

  predicate SuccessOf(a: Attempt, source: string) { a.Verified() && BranchName(a.evidence.source) == source }

  function CompletedAt(a: Attempt): int
    requires a.Verified()
  {
    a.evidence.entry.completed
  }

  /** `runs[k]` is the verified success that stands for `source`: none of its
      kind completed later, and it is the first of those that completed then. */
  ghost predicate Stands(runs: seq<Attempt>, k: int, source: string) {
    && 0 <= k < |runs| && SuccessOf(runs[k], source)
    && forall j :: 0 <= j < |runs| && SuccessOf(runs[j], source) ==>
         CompletedAt(runs[j]) <= CompletedAt(runs[k]) && (j < k ==> CompletedAt(runs[j]) < CompletedAt(runs[k]))
  }

  ghost predicate Chosen(runs: seq<Attempt>, source: string, e: Entry) {
    exists k :: Stands(runs, k, source) && e == runs[k].evidence.entry
  }

  ghost predicate BestOf(runs: seq<Attempt>, entries: map<string, Entry>) {
    && (forall s :: s in entries ==> Chosen(runs, s, entries[s]))
    && (forall s, k :: 0 <= k < |runs| && SuccessOf(runs[k], s) ==> s in entries)
  }

  /** One more attempt, for one source. */
  lemma ChosenStep(runs: seq<Attempt>, a: Attempt, s: string, e: Entry)
    requires Chosen(runs, s, e)
    ensures Chosen(runs + [a], s, if SuccessOf(a, s) && CompletedAt(a) > e.completed then a.evidence.entry else e)
  {
    hide BranchName;
    var k :| Stands(runs, k, s) && e == runs[k].evidence.entry;
    var b := runs + [a];
    assert forall j :: 0 <= j < |runs| ==> b[j] == runs[j];
    assert Stands(b, if SuccessOf(a, s) && CompletedAt(a) > e.completed then |runs| else k, s);
  }

  lemma ChosenFirst(runs: seq<Attempt>, a: Attempt, s: string)
    requires SuccessOf(a, s) && forall j :: 0 <= j < |runs| ==> !SuccessOf(runs[j], s)
    ensures Chosen(runs + [a], s, a.evidence.entry)
  {
    hide BranchName;
    var b := runs + [a];
    assert forall j :: 0 <= j < |runs| ==> b[j] == runs[j];
    assert Stands(b, |runs|, s);
  }

  function Record(entries: map<string, Entry>, a: Attempt): map<string, Entry> {
    if !a.Verified() then entries
    else
      var s, e := BranchName(a.evidence.source), a.evidence.entry;
      if s !in entries || e.completed > entries[s].completed then entries[s := e] else entries
  }

  lemma BestOfStep(runs: seq<Attempt>, a: Attempt, entries: map<string, Entry>)
    requires BestOf(runs, entries)
    ensures BestOf(runs + [a], Record(entries, a))
  {
    var b, entries' := runs + [a], Record(entries, a);
    assert forall j :: 0 <= j < |runs| ==> b[j] == runs[j];
    hide Chosen;
    forall s | s in entries' ensures Chosen(b, s, entries'[s]) {
      if s in entries {
        ChosenStep(runs, a, s, entries[s]);
      } else {
        ChosenFirst(runs, a, s);
      }
    }
  }

  lemma NothingChosen(runs: seq<Attempt>)
    requires runs == []
    ensures BestOf(runs, map[])
  {
  }

  function FreshAt(observed: int, e: Entry): Entry { e.(isFresh := observed <= e.expires) }

  /** What the report says of the latest attempt. */
  function VerificationOf(a: Attempt): Verification {
    if !a.Succeeded() then NotComplete
    else if a.evidence.Rejected? then Invalid
    else Verified(BranchName(a.evidence.source))
  }

  method Collect(listed: seq<Attempt>, refreshed: seq<Listing>, observed: int, active: bool, sourceRef: string)
    returns (result: Option<Health>)
    ensures result.None? <==> BranchName(sourceRef) == "" || multiset(Listings(listed)) != multiset(refreshed)
    ensures result.Some? ==>
              var runs, h := NewestFirst(listed), result.value;
              && (exists best :: BestOf(runs, best) && h.entries == map s | s in best :: FreshAt(observed, best[s]))
              && (h.inspected <==> forall k :: 0 <= k < |runs| && runs[k].Succeeded() ==> runs[k].Verified())
              && h.latest == (if runs == [] then NoAttempt else VerificationOf(runs[0]))
              && FlagsFresh(Document(1, observed, h.entries))
              && (h.healthy <==>
                  var ref := BranchName(sourceRef);
                  && active && runs != [] && runs[0].Verified() && BranchName(runs[0].evidence.source) == ref
                  && ref in h.entries && observed <= h.entries[ref].expires)
  {
    hide BestOf, NewestFirst;
    var ref := BranchName(sourceRef);
    if ref == "" {
      return None;
    }
    var runs := NewestFirst(listed);
    NothingChosen(runs[..0]);
    var latest := NoAttempt;
    var inspected := true;
    var entries: map<string, Entry> := map[];
    for index := 0 to |runs|
      invariant BestOf(runs[..index], entries)
      invariant inspected <==> forall k :: 0 <= k < index && runs[k].Succeeded() ==> runs[k].Verified()
      invariant index == 0 ==> latest == NoAttempt
      invariant index > 0 ==> latest == VerificationOf(runs[0])
    {
      var run := runs[index];
      ghost var before := entries;
      if index == 0 {
        latest := NotComplete;
      }
      if run.Succeeded() {
        match run.evidence
        case Rejected =>
          if index == 0 {
            latest := Invalid;
          }
          inspected := false;
        case Complete(name, entry) =>
          var source := BranchName(name);
          if index == 0 {
            latest := Verified(source);
          }
          if source !in entries || entry.completed > entries[source].completed {
            entries := entries[source := entry];
          }
      }
      BestOfStep(runs[..index], run, before);
      assert runs[..index + 1] == runs[..index] + [run];
    }
    assert runs[..|runs|] == runs;
    if multiset(Listings(listed)) != multiset(refreshed) {
      return None;
    }
    var current := map s | s in entries :: FreshAt(observed, entries[s]);
    var healthy := active && latest == Verified(ref) && ref in current && current[ref].isFresh;
    return Some(Health(latest, inspected, current, healthy));
  }

  // ----- merging

  /** The later of two successes; the newly collected one wins a tie. */
  function Later(observed: int, current: map<string, Entry>, previous: map<string, Entry>, s: string): Entry
    requires s in current || s in previous
  {
    if s in previous && (s !in current || previous[s].completed > current[s].completed)
    then FreshAt(observed, previous[s]).(retained := true)
    else current[s]
  }

  function Merge(observed: int, current: map<string, Entry>, previous: map<string, Entry>): (r: map<string, Entry>)
    ensures r.Keys == current.Keys + previous.Keys
  {
    map s | s in current.Keys + previous.Keys :: Later(observed, current, previous, s)
  }

  predicate Mergeable(observed: int, previous: Document) {
    previous.schema == 1 && previous.observed <= observed
  }

  /** The collected result, which merging updates in place. */
  class Observation {
    const observed: int
    var entries: map<string, Entry>

    constructor (observed: int, entries: map<string, Entry>)
      ensures this.observed == observed && this.entries == entries
    {
      this.observed, this.entries := observed, entries;
    }

    method MergeHistory(previous: Document) returns (ok: bool)
      modifies this
      ensures ok <==> Mergeable(observed, previous)
      ensures entries == if ok then Merge(observed, old(entries), previous.entries) else old(entries)
    {
      if previous.schema != 1 || previous.observed > observed {
        return false;
      }
      var rest := previous.entries.Keys;
      while rest != {}
        invariant rest <= previous.entries.Keys
        invariant entries == Merge(observed, old(entries), previous.entries - rest)
      {
        var source :| source in rest;
        var value := previous.entries[source];
        if source !in entries || value.completed > entries[source].completed {
          value := value.(isFresh := observed <= value.expires, retained := true);
          entries := entries[source := value];
        }
        rest := rest - {source};
      }
      assert previous.entries - {} == previous.entries;
      return true;
    }
  }

  // ----- publishing under a compare-and-swap on the content digest

  /** What merging keeps of an entry: everything but the two flags. */
  predicate SameSuccess(a: Entry, b: Entry) { a.run == b.run && a.completed == b.completed && a.expires == b.expires }

  ghost predicate FlagsFresh(d: Document) {
    forall s :: s in d.entries ==> (d.entries[s].isFresh <==> d.observed <= d.entries[s].expires)
  }

  /** A publisher holds what it collected; `collected` satisfies `FlagsFresh` because
      `Collect` computes every flag from its own observation time. */
  datatype Phase =
    | Collected
    | HasRead(existing: Document, digest: int)
    | HasMerged(merged: Document, digest: int)
    | Published
    | GaveUp

  datatype Publisher = Publisher(collected: Document, phase: Phase)

  datatype State = State(dashboard: Document, publishers: seq<Publisher>)

  /** Different documents have different digests, so a digest that was read is
      stale exactly when the document has changed. */
  ghost predicate Collisionless(digest: Document -> int) {
    forall a, b :: digest(a) == digest(b) ==> a == b
  }

  ghost predicate Init(s: State) {
    forall p :: 0 <= p < |s.publishers| ==>
      s.publishers[p].phase == Collected && s.publishers[p].collected.schema == 1 && FlagsFresh(s.publishers[p].collected)
  }

  function Put(s: State, p: nat, phase: Phase): State
    requires p < |s.publishers|
  {
    s.(publishers := s.publishers[p := s.publishers[p].(phase := phase)])
  }

  function MergedDocument(collected: Document, existing: Document): Document {
    collected.(entries := Merge(collected.observed, collected.entries, existing.entries))
  }

  ghost predicate Moves(digest: Document -> int, s: State, s': State, p: nat)
    requires p < |s.publishers|
  {
    var me := s.publishers[p];
    match me.phase
    case Collected => s' == Put(s, p, HasRead(s.dashboard, digest(s.dashboard)))
    case HasRead(existing, d) =>
      s' == if Mergeable(me.collected.observed, existing)
            then Put(s, p, HasMerged(MergedDocument(me.collected, existing), d)) else Put(s, p, GaveUp)
    case HasMerged(merged, d) =>
      s' == if d == digest(s.dashboard) then Put(s, p, Published).(dashboard := merged) else Put(s, p, GaveUp)
    case _ => false
  }

  /** Publisher `p` moves on, or gives up or dies before it has published. */
  ghost predicate Steps(digest: Document -> int, s: State, s': State, p: nat)
    requires p < |s.publishers|
  {
    Moves(digest, s, s', p) || (s.publishers[p].phase != Published && s' == Put(s, p, GaveUp))
  }

  ghost predicate Next(digest: Document -> int, s: State, s': State) {
    exists p: nat :: p < |s.publishers| && Steps(digest, s, s', p)
  }

  ghost predicate Behavior(digest: Document -> int, tr: seq<State>) {
    tr != [] && Init(tr[0]) && forall i, j :: 0 <= i && j == i + 1 < |tr| ==> Next(digest, tr[i], tr[j])
  }

  /** A publisher that has merged did so with a document it had read. */
  ghost predicate PublisherOk(digest: Document -> int, me: Publisher) {
    && me.collected.schema == 1 && FlagsFresh(me.collected)
    && (me.phase.HasRead? ==> me.phase.digest == digest(me.phase.existing))
    && (me.phase.HasMerged? ==>
        exists existing :: me.phase.digest == digest(existing) && Mergeable(me.collected.observed, existing)
                           && me.phase.merged == MergedDocument(me.collected, existing))
  }

  ghost predicate PublishersOk(digest: Document -> int, s: State) {
    forall p :: 0 <= p < |s.publishers| ==> PublisherOk(digest, s.publishers[p])
  }

  /** No source disappears, none goes back in time, and neither does the observation. */
  ghost predicate Advances(a: Document, b: Document) {
    && a.observed <= b.observed && a.entries.Keys <= b.entries.Keys
    && forall s :: s in a.entries ==> a.entries[s].completed <= b.entries[s].completed
  }

  lemma MergeAdvances(collected: Document, existing: Document)
    requires Mergeable(collected.observed, existing) && FlagsFresh(collected)
    ensures var merged := MergedDocument(collected, existing);
            Advances(existing, merged) && Advances(collected, merged) && FlagsFresh(merged)
  {
  }

  /** A step that publishes is one publisher's merge with the dashboard it replaces. */
  ghost predicate PublishesOn(s: State, s': State, p: int) {
    && 0 <= p < |s.publishers| && |s'.publishers| == |s.publishers|
    && s.publishers[p].phase != Published && s'.publishers[p] == s.publishers[p].(phase := Published)
    && Mergeable(s.publishers[p].collected.observed, s.dashboard)
    && s'.dashboard == MergedDocument(s.publishers[p].collected, s.dashboard)
    && forall q :: 0 <= q < |s.publishers| && q != p ==> s'.publishers[q] == s.publishers[q]
  }

  /** Every step either leaves the dashboard and the set of successful publishers
      alone or publishes on top of the current dashboard: no update is lost. */
  lemma StepIsAtomic(digest: Document -> int, s: State, s': State)
    requires Collisionless(digest) && PublishersOk(digest, s) && Next(digest, s, s')
    ensures PublishersOk(digest, s') && |s'.publishers| == |s.publishers|
    ensures forall q :: 0 <= q < |s.publishers| ==> s'.publishers[q].collected == s.publishers[q].collected
    ensures || (exists p :: PublishesOn(s, s', p))
            || (s'.dashboard == s.dashboard
                && forall q :: 0 <= q < |s.publishers| ==> (s'.publishers[q].phase.Published? <==> s.publishers[q].phase.Published?))
  {
    hide Steps, PublisherOk, PublishesOn;
    var p: nat :| p < |s.publishers| && Steps(digest, s, s', p);
    assert PublisherOk(digest, s.publishers[p]);
    StepKeepsPublishers(digest, s, s', p);
    StepPublishes(digest, s, s', p);
  }

  lemma StepKeepsPublishers(digest: Document -> int, s: State, s': State, p: nat)
    requires p < |s.publishers| && PublisherOk(digest, s.publishers[p]) && Steps(digest, s, s', p)
    ensures |s'.publishers| == |s.publishers| && s'.publishers == s.publishers[p := s'.publishers[p]]
    ensures s'.publishers[p].collected == s.publishers[p].collected && PublisherOk(digest, s'.publishers[p])
  {
    hide FlagsFresh, MergedDocument;
  }

  /** The digest that was read still fits, so what was read is what is replaced. */
  lemma StepPublishes(digest: Document -> int, s: State, s': State, p: nat)
    requires Collisionless(digest) && p < |s.publishers| && PublisherOk(digest, s.publishers[p]) && Steps(digest, s, s', p)
    requires |s'.publishers| == |s.publishers| && s'.publishers == s.publishers[p := s'.publishers[p]]
    ensures || PublishesOn(s, s', p)
            || (s'.dashboard == s.dashboard && (s'.publishers[p].phase.Published? <==> s.publishers[p].phase.Published?))
  {
    hide FlagsFresh, MergedDocument;
    var me := s.publishers[p];
    if me.phase.HasMerged? && me.phase.digest == digest(s.dashboard) && s'.publishers[p].phase == Published {
      var existing :| me.phase.digest == digest(existing) && Mergeable(me.collected.observed, existing)
                      && me.phase.merged == MergedDocument(me.collected, existing);
      assert existing == s.dashboard;
    }
  }

  ghost predicate CameFrom(d: Document, source: string, e: Entry) {
    source in d.entries && SameSuccess(e, d.entries[source])
  }

  /** The dashboard is the join of where it started and of every collection
      published since: it is at least as advanced as each of them, every entry
      comes from one of them, and the flags fit the last observation. */
  ghost predicate Accounted(start: Document, s: State) {
    && Advances(start, s.dashboard)
    && (forall p :: 0 <= p < |s.publishers| && s.publishers[p].phase.Published? ==>
          Advances(s.publishers[p].collected, s.dashboard) && FlagsFresh(s.dashboard))
    && (forall source :: source in s.dashboard.entries ==>
          CameFrom(start, source, s.dashboard.entries[source]) || FromPublisher(s, source, s.dashboard.entries[source]))
  }

  ghost predicate FromPublisher(s: State, source: string, e: Entry) {
    exists p :: 0 <= p < |s.publishers| && s.publishers[p].phase.Published? && CameFrom(s.publishers[p].collected, source, e)
  }

  lemma AdvancesTrans(a: Document, b: Document, c: Document)
    requires Advances(a, b) && Advances(b, c)
    ensures Advances(a, c)
  {
  }

  lemma AccountedByPublish(start: Document, s: State, s': State, p: int)
    requires Accounted(start, s) && PublishesOn(s, s', p) && FlagsFresh(s.publishers[p].collected)
    ensures Accounted(start, s')
  {
    var mine := s.publishers[p].collected;
    MergeAdvances(mine, s.dashboard);
    AdvancesTrans(start, s.dashboard, s'.dashboard);
    forall q | 0 <= q < |s'.publishers| && s'.publishers[q].phase.Published?
      ensures Advances(s'.publishers[q].collected, s'.dashboard)
    {
      if q != p {
        AdvancesTrans(s.publishers[q].collected, s.dashboard, s'.dashboard);
      }
    }
    forall source | source in s'.dashboard.entries
      ensures CameFrom(start, source, s'.dashboard.entries[source]) || FromPublisher(s', source, s'.dashboard.entries[source])
    {
      var e := s'.dashboard.entries[source];
      if CameFrom(mine, source, e) {
        assert s'.publishers[p].phase.Published?;
        assert FromPublisher(s', source, e);
      } else {
        assert CameFrom(s.dashboard, source, e);
        if !CameFrom(start, source, s.dashboard.entries[source]) {
          var q :| 0 <= q < |s.publishers| && s.publishers[q].phase.Published?
                   && CameFrom(s.publishers[q].collected, source, s.dashboard.entries[source]);
          assert s'.publishers[q] == s.publishers[q] && CameFrom(s'.publishers[q].collected, source, e);
        }
      }
    }
  }

  lemma AccountedByOther(start: Document, s: State, s': State)
    requires Accounted(start, s) && s'.dashboard == s.dashboard && |s'.publishers| == |s.publishers|
    requires forall q :: 0 <= q < |s.publishers| ==> s'.publishers[q].collected == s.publishers[q].collected
    requires forall q :: 0 <= q < |s.publishers| ==> (s'.publishers[q].phase.Published? <==> s.publishers[q].phase.Published?)
    ensures Accounted(start, s')
  {
    forall source, e | FromPublisher(s, source, e) ensures FromPublisher(s', source, e) {
      var q :| 0 <= q < |s.publishers| && s.publishers[q].phase.Published? && CameFrom(s.publishers[q].collected, source, e);
      assert s'.publishers[q].phase.Published?;
    }
  }

  /** Over any interleaving, no publication is lost. */
  lemma {:induction false} DashboardIsTheJoin(digest: Document -> int, tr: seq<State>, n: nat)
    requires Collisionless(digest) && Behavior(digest, tr) && n < |tr|
    ensures PublishersOk(digest, tr[n]) && Accounted(tr[0].dashboard, tr[n])
  {
    if n > 0 {
      DashboardIsTheJoin(digest, tr, n - 1);
      var s, s' := tr[n - 1], tr[n];
      assert Next(digest, tr[n - 1], tr[n]);
      StepIsAtomic(digest, s, s');
      hide Accounted, Next, Behavior, Collisionless;
      if p :| PublishesOn(s, s', p) {
        assert PublisherOk(digest, s.publishers[p]);
        AccountedByPublish(tr[0].dashboard, s, s', p);
      } else {
        AccountedByOther(tr[0].dashboard, s, s');
      }
    }
  }

  /** From any state to any later one the observation time, the set of sources
      and each source's completion time never go back. */
  lemma {:induction false} DashboardNeverGoesBack(digest: Document -> int, tr: seq<State>, n: nat, m: nat)
    requires Collisionless(digest) && Behavior(digest, tr) && n <= m < |tr|
    ensures Advances(tr[n].dashboard, tr[m].dashboard)
    decreases m - n
  {
    if n < m {
      DashboardIsTheJoin(digest, tr, n);
      assert Next(digest, tr[n], tr[n + 1]);
      var s, s' := tr[n], tr[n + 1];
      StepIsAtomic(digest, s, s');
      if p :| PublishesOn(s, s', p) {
        assert PublisherOk(digest, s.publishers[p]);
        MergeAdvances(s.publishers[p].collected, s.dashboard);
      }
      DashboardNeverGoesBack(digest, tr, n + 1, m);
      AdvancesTrans(tr[n].dashboard, tr[n + 1].dashboard, tr[m].dashboard);
    }
  }
}
