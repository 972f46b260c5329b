/** Aggregation of the twelve functional suites into one verdict. */
module ChainEvidence {
  import opened Text

  /** A lane, artifact or file stem by name.  `Other` is any name but the twelve suites. */
  datatype Lane =
    | Upgrade | S3 | Kms | Tier | Storage | Heal | Pool | Security | Replication | FaultTolerance | Table | Performance
    | Other(name: string)

  const SUITES: seq<Lane> :=
    [Upgrade, S3, Kms, Tier, Storage, Heal, Pool, Security, Replication, FaultTolerance, Table, Performance]

  datatype Record = Record(schema: int, suite: Lane, chain: string, valid: bool, reportDigest: string, counts: map<string, int>)

  predicate Digest(s: string) {
    |s| == 64 && forall i :: 0 <= i < 64 ==> '0' <= s[i] <= '9' || 'a' <= s[i] <= 'f'
  }

  /** A lane's record that proves a complete pass of one suite in one chain. */
  predicate Passing(r: Record, chain: string, suite: Lane) {
    && r.schema == 1 && r.suite == suite && r.chain == chain
    && r.valid && Digest(r.reportDigest)
    && r.counts.Keys == {"PASS", "FAIL", "SKIP", "UNSUPPORTED", "RUNNING"}
    && (forall k :: k in r.counts ==> r.counts[k] >= 0)
    && r.counts["PASS"] > 0 && r.counts["FAIL"] == r.counts["RUNNING"] == 0
  }

  function SuitesOf(records: seq<Record>): seq<Lane> {
    seq(|records|, i requires 0 <= i < |records| => records[i].suite)
  }

  ghost predicate Paired(chain: string, records: seq<Record>, n: nat) {
    n <= |records| && n <= |SUITES| && forall i :: 0 <= i < n ==> Passing(records[i], chain, SUITES[i])
  }

  /** `validate_records`: names are compared with `expected`, records are paired with SUITES. */
  method ValidateRecords(chain: string, records: seq<Record>, expected: seq<Lane>) returns (ok: bool)
    ensures ok <==>
      && SuitesOf(records) == expected
      && Paired(chain, records, if |records| < |SUITES| then |records| else |SUITES|)
  {
    if |records| != |expected| || SuitesOf(records) != expected {
      return false;
    }
    hide Passing, Paired, SuitesOf;
    var n := if |records| < |SUITES| then |records| else |SUITES|;
    NothingPaired(chain, records);
    for i := 0 to n
      invariant Paired(chain, records, i)
    {
      PairedStep(chain, records, i, n);
      if !Passing(records[i], chain, SUITES[i]) {
        return false;
      }
    }
    return true;
  }

  lemma NothingPaired(chain: string, records: seq<Record>)
    ensures Paired(chain, records, 0)
  {
  }

  lemma PairedStep(chain: string, records: seq<Record>, i: nat, n: nat)
    requires i < n <= |records| && n <= |SUITES| && Paired(chain, records, i)
    ensures Paired(chain, records, i + 1) <==> Passing(records[i], chain, SUITES[i])
    ensures Paired(chain, records, n) ==> Paired(chain, records, i + 1)
  {
    hide Passing;
  }

  /** `[suite for suite in s if suite not in skipped]`. */
  function Without(s: seq<Lane>, skipped: set<Lane>): (r: seq<Lane>)
    ensures |r| <= |s|
  {
    if s == [] then []
    else Without(s[..|s| - 1], skipped) + (if s[|s| - 1] in skipped then [] else [s[|s| - 1]])
  }

  lemma {:induction false} WithoutMembers(s: seq<Lane>, skipped: set<Lane>, x: Lane)
    ensures x in Without(s, skipped) <==> x in s && x !in skipped
  {
    if s != [] {
      WithoutMembers(s[..|s| - 1], skipped, x);
      assert s == s[..|s| - 1] + [s[|s| - 1]];
    }
  }

  /** From some position on all lanes are skipped, before it none. */
  ghost predicate SkipsFrom(s: seq<Lane>, skipped: set<Lane>, n: nat) {
    n <= |s| && forall i :: 0 <= i < |s| ==> (s[i] in skipped <==> n <= i)
  }

  ghost predicate Distinct(s: seq<Lane>) { forall i, j :: 0 <= i < j < |s| ==> s[i] != s[j] }

  lemma SuitesDistinct()
    ensures |SUITES| == 12 && Distinct(SUITES)
  {
  }

  lemma {:induction false} SkippingASuffixLeavesAPrefix(s: seq<Lane>, skipped: set<Lane>, n: nat)
    requires SkipsFrom(s, skipped, n)
    ensures Without(s, skipped) == s[..n]
  {
    if s != [] {
      var m := |s| - 1;
      if n <= m {
        SkippingASuffixLeavesAPrefix(s[..m], skipped, n);
        assert s[..m][..n] == s[..n] && s[..n] + [] == s[..n];
      } else {
        SkippingASuffixLeavesAPrefix(s[..m], skipped, m);
        assert s[..m][..m] == s[..m] && s[..m] + [s[m]] == s[..n];
      }
    }
  }

  lemma LeavingAPrefixSkipsASuffix(s: seq<Lane>, skipped: set<Lane>)
    requires Distinct(s) && Without(s, skipped) == s[..|Without(s, skipped)|]
    ensures SkipsFrom(s, skipped, |Without(s, skipped)|)
  {
    var n := |Without(s, skipped)|;
    forall i | 0 <= i < |s| ensures s[i] in skipped <==> n <= i {
      WithoutMembers(s, skipped, s[i]);
      if i < n {
        assert s[i] == s[..n][i];
      } else {
        assert forall j :: 0 <= j < n ==> s[..n][j] != s[i];
      }
    }
  }

  // ----- aggregation

  /** The jobs' results by lane, and the evidence directory by file stem; a file that
      does not hold a record is `None`. */
  datatype Inputs = Inputs(needs: map<Lane, string>, directory: map<Lane, Option<Record>>, allowSkipped: seq<Lane>)

  function Skipped(needs: map<Lane, string>): set<Lane> {
    set name | name in needs && needs[name] == "skipped"
  }

  function Allowed(names: seq<Lane>): set<Lane> {
    set name | name in names && name != Other("")
  }

  function AllSuites(): set<Lane> { set s | s in SUITES }

  ghost predicate Guards(i: Inputs) {
    && Allowed(i.allowSkipped) <= AllSuites()
    && i.needs.Keys == AllSuites()
    && Skipped(i.needs) <= Allowed(i.allowSkipped)
    && (forall name :: name in i.needs && name !in Skipped(i.needs) ==> i.needs[name] == "success")
  }

  /** The lanes that ran form a prefix of SUITES, and the directory holds exactly
      their passing records. */
  ghost predicate EvidenceFor(i: Inputs, chain: string, n: nat) {
    && SkipsFrom(SUITES, Skipped(i.needs), n)
    && i.directory.Keys == (set s | s in SUITES[..n])
    && forall k :: 0 <= k < n ==> i.directory[SUITES[k]].Some? && Passing(i.directory[SUITES[k]].value, chain, SUITES[k])
  }

  ghost predicate Accepts(i: Inputs, chain: string) {
    Guards(i) && exists n: nat :: EvidenceFor(i, chain, n)
  }

  method ReadRecords(directory: map<Lane, Option<Record>>, expected: seq<Lane>) returns (r: Option<seq<Record>>)
    requires forall e :: e in expected ==> e in directory
    ensures r.Some? <==> forall k :: 0 <= k < |expected| ==> directory[expected[k]].Some?
    ensures r.Some? ==> |r.value| == |expected|
    ensures r.Some? ==> forall k :: 0 <= k < |expected| ==> directory[expected[k]] == Some(r.value[k])
  {
    var records := [];
    for k := 0 to |expected|
      invariant |records| == k
      invariant forall j :: 0 <= j < k ==> directory[expected[j]] == Some(records[j])
    {
      if directory[expected[k]].None? {
        return None;
      }
      records := records + [directory[expected[k]].value];
    }
    return Some(records);
  }

  /** `aggregate` accepts exactly when the guards hold, the skipped lanes are a suffix of
      SUITES, and every lane before them left a passing record. */
  method Aggregate(i: Inputs, chain: string) returns (r: Option<seq<Record>>)
    ensures r.Some? <==> Accepts(i, chain)
    ensures r.Some? ==> SuitesOf(r.value) == Without(SUITES, Skipped(i.needs))
    ensures r.Some? ==> Paired(chain, r.value, |r.value|)
  {
    hide Passing;
    var allowed, skipped := Allowed(i.allowSkipped), Skipped(i.needs);
    if !(allowed <= AllSuites()) || i.needs.Keys != AllSuites() || !(skipped <= allowed) {
      return None;
    }
    if exists name | name in i.needs :: name !in skipped && i.needs[name] != "success" {
      return None;
    }
    var expected := Without(SUITES, skipped);
    ghost var n := |expected|;
    if i.directory.Keys != set s | s in expected {
      Rejected(i, chain);
      return None;
    }
    r := ReadRecords(i.directory, expected);
    if r.None? {
      Rejected(i, chain);
      return None;
    }
    var ok := ValidateRecords(chain, r.value, expected);
    if ok {
      PairedIsEvidence(i, chain, expected, r.value);
    } else {
      NotPairedIsNoEvidence(i, chain, expected, r.value);
      r := None;
    }
  }

  /** Evidence is always for the lanes that were not skipped. */
  lemma EvidenceIsForExpected(i: Inputs, chain: string, n: nat)
    requires EvidenceFor(i, chain, n)
    ensures Without(SUITES, Skipped(i.needs)) == SUITES[..n]
  {
    SkippingASuffixLeavesAPrefix(SUITES, Skipped(i.needs), n);
  }

  lemma Rejected(i: Inputs, chain: string)
    requires var expected := Without(SUITES, Skipped(i.needs));
             || i.directory.Keys != (set s | s in expected)
             || exists k :: 0 <= k < |expected| && expected[k] in i.directory && i.directory[expected[k]].None?
    ensures !Accepts(i, chain)
  {
    hide Passing, Guards;
    if n: nat :| EvidenceFor(i, chain, n) {
      EvidenceIsThere(i, chain, n);
    }
  }

  lemma EvidenceIsThere(i: Inputs, chain: string, n: nat)
    requires EvidenceFor(i, chain, n)
    ensures var expected := Without(SUITES, Skipped(i.needs));
            && i.directory.Keys == (set s | s in expected)
            && forall k :: 0 <= k < |expected| ==> i.directory[expected[k]].Some?
  {
    hide Passing;
    EvidenceIsForExpected(i, chain, n);
    assert forall k :: 0 <= k < n ==> SUITES[..n][k] == SUITES[k];
  }

  lemma SkippedFrom(i: Inputs, n: nat)
    requires Guards(i) && SkipsFrom(SUITES, Skipped(i.needs), n)
    ensures Skipped(i.needs) == {} <==> n == |SUITES|
  {
    forall x | x in Skipped(i.needs) ensures exists k :: n <= k < |SUITES| && SUITES[k] == x {
      assert x in AllSuites();
    }
    if n < |SUITES| {
      assert SUITES[n] in Skipped(i.needs);
    }
  }

  lemma PairedIsEvidence(i: Inputs, chain: string, expected: seq<Lane>, records: seq<Record>)
    requires expected == Without(SUITES, Skipped(i.needs)) && i.directory.Keys == (set s | s in expected)
    requires |records| == |expected| && SuitesOf(records) == expected && Paired(chain, records, |records|)
    requires forall k :: 0 <= k < |expected| ==> i.directory[expected[k]] == Some(records[k])
    ensures EvidenceFor(i, chain, |expected|)
  {
    hide Passing, Digest;
    SuitesDistinct();
    var n := |expected|;
    forall k | 0 <= k < n ensures expected[k] == SUITES[k] && Passing(records[k], chain, SUITES[k]) {
      assert SuitesOf(records)[k] == records[k].suite;
      PassingSuite(records[k], chain, SUITES[k]);
    }
    assert expected == SUITES[..n];
    LeavingAPrefixSkipsASuffix(SUITES, Skipped(i.needs));
  }

  lemma PassingSuite(r: Record, chain: string, suite: Lane)
    requires Passing(r, chain, suite)
    ensures r.suite == suite
  {
  }

  lemma NotPairedIsNoEvidence(i: Inputs, chain: string, expected: seq<Lane>, records: seq<Record>)
    requires expected == Without(SUITES, Skipped(i.needs)) && |records| == |expected|
    requires i.directory.Keys == (set s | s in expected)
    requires forall k :: 0 <= k < |expected| ==> i.directory[expected[k]] == Some(records[k])
    requires SuitesOf(records) != expected || !Paired(chain, records, |records|)
    ensures !Accepts(i, chain)
  {
    hide Passing, Guards, Paired;
    if n: nat :| EvidenceFor(i, chain, n) {
      EvidenceIsPaired(i, chain, n, records);
    }
  }

  lemma EvidenceIsPaired(i: Inputs, chain: string, n: nat, records: seq<Record>)
    requires EvidenceFor(i, chain, n)
    requires var expected := Without(SUITES, Skipped(i.needs));
             && |records| == |expected| && i.directory.Keys == (set s | s in expected)
             && forall k :: 0 <= k < |expected| ==> i.directory[expected[k]] == Some(records[k])
    ensures SuitesOf(records) == Without(SUITES, Skipped(i.needs)) && Paired(chain, records, |records|)
  {
    hide Passing;
    var expected := Without(SUITES, Skipped(i.needs));
    EvidenceIsForExpected(i, chain, n);
    forall k | 0 <= k < n ensures Passing(records[k], chain, SUITES[k]) && records[k].suite == expected[k] {
      assert expected[k] == SUITES[k];
      PassingSuite(records[k], chain, SUITES[k]);
    }
  }

  // ----- what acceptance means

  /** A skipped lane before one that ran is never accepted, whatever was permitted:
      only trailing lanes can be skipped. */
  lemma OnlyTrailingLanesCanBeSkipped(i: Inputs, chain: string, a: nat, b: nat)
    requires a < b < |SUITES| && SUITES[a] in Skipped(i.needs) && SUITES[b] !in Skipped(i.needs)
    ensures !Accepts(i, chain)
  {
    hide Passing, Guards;
  }

  /** Passing counts: one case, and it passed. */
  function SampleCounts(): map<string, int> {
    map["PASS" := 1, "FAIL" := 0, "SKIP" := 0, "UNSUPPORTED" := 0, "RUNNING" := 0]
  }

  function SampleRecord(suite: Lane): Record {
    Record(1, suite, "chain", true, seq(64, _ => '0'), SampleCounts())
  }

  /** Every suite but the second succeeded with a passing record; the second was skipped by permission. */
  function PermittedSkip(): Inputs {
    Inputs(map s | s in AllSuites() :: if s == S3 then "skipped" else "success",
           map s | s in AllSuites() && s != S3 :: Some(SampleRecord(s)),
           [S3])
  }

  lemma SampleRecordPasses(suite: Lane)
    ensures Passing(SampleRecord(suite), "chain", suite)
  {
    var c := SampleCounts();
    assert c.Keys == {"PASS", "FAIL", "SKIP", "UNSUPPORTED", "RUNNING"};
  }

  /** So a permitted skip with everything else passing is rejected. */
  lemma PermittedSkipIsRejected()
    ensures var i := PermittedSkip();
            && Guards(i) && Skipped(i.needs) == {S3} && i.directory.Keys == AllSuites() - {S3}
            && (forall s :: s in i.directory ==> i.directory[s].Some? && Passing(i.directory[s].value, "chain", s))
            && !Accepts(i, "chain")
  {
    PermittedSkipIsGuarded();
    PermittedSkipPasses();
    SecondSuite();
    hide *;
    OnlyTrailingLanesCanBeSkipped(PermittedSkip(), "chain", 1, 2);
  }

  lemma SecondSuite()
    ensures |SUITES| == 12 && SUITES[1] == S3 && SUITES[2] == Kms && S3 in AllSuites()
  {
    assert S3 in SUITES;
  }

  lemma PermittedSkipIsGuarded()
    ensures Guards(PermittedSkip()) && Skipped(PermittedSkip().needs) == {S3}
  {
    SecondSuite();
    hide AllSuites, SampleRecord;
    var i := PermittedSkip();
    assert i.needs[S3] == "skipped";
    assert Skipped(i.needs) == {S3} && Allowed(i.allowSkipped) == {S3};
  }

  lemma PermittedSkipPasses()
    ensures var i := PermittedSkip();
            && i.directory.Keys == AllSuites() - {S3}
            && forall s :: s in i.directory ==> i.directory[s].Some? && Passing(i.directory[s].value, "chain", s)
  {
    hide AllSuites, SampleRecord, Passing;
    var i := PermittedSkip();
    forall s | s in i.directory ensures Passing(i.directory[s].value, "chain", s) {
      SampleRecordPasses(s);
    }
  }

  /** When every lane was skipped with permission, an empty directory is accepted. */
  lemma AllSkippedIsAccepted(i: Inputs, chain: string)
    requires Guards(i) && Skipped(i.needs) == AllSuites()
    ensures Accepts(i, chain) <==> i.directory == map[]
  {
    hide Passing, Guards;
    forall k | 0 <= k < |SUITES| ensures SUITES[k] in Skipped(i.needs) {
      assert SUITES[k] in AllSuites();
    }
    if i.directory == map[] {
      assert EvidenceFor(i, chain, 0);
    } else {
      forall n: nat ensures !EvidenceFor(i, chain, n) {
        assert n > 0 && n <= |SUITES| ==> SUITES[0] in Skipped(i.needs);
      }
    }
  }

  /** `validate_summary` compares with all of SUITES, so of the chains aggregation accepts
      health verifies exactly those that skipped nothing. */
  lemma HealthVerifiesExactlyUnskipped(i: Inputs, chain: string, records: seq<Record>)
    requires Accepts(i, chain) && SuitesOf(records) == Without(SUITES, Skipped(i.needs))
    requires Paired(chain, records, |records|)
    ensures Verified(chain, records) <==> Skipped(i.needs) == {}
  {
    hide Passing, Guards;
    var n: nat :| EvidenceFor(i, chain, n);
    EvidenceIsForExpected(i, chain, n);
    SkippedFrom(i, n);
    assert |SuitesOf(records)| == |records| == n;
    assert n == |SUITES| ==> SUITES[..n] == SUITES;
  }

  /** What `validate_records` with its default asks: all twelve suites, in order, passing. */
  ghost predicate Verified(chain: string, records: seq<Record>) {
    SuitesOf(records) == SUITES && Paired(chain, records, |SUITES|)
  }

  /** A verified chain holds a passing record of every suite. */
  lemma VerifiedCoversEverySuite(chain: string, records: seq<Record>, suite: Lane)
    requires Verified(chain, records) && suite in SUITES
    ensures exists k :: 0 <= k < |records| && Passing(records[k], chain, suite)
  {
    hide Passing;
    var k :| 0 <= k < |SUITES| && SUITES[k] == suite;
    assert |SuitesOf(records)| == |records|;
    assert Passing(records[k], chain, suite);
  }

  // ----- the retained summary

  datatype LaneReport = LaneReport(suite: Lane, result: string, evidence: Option<Record>)

  predicate Identified(file: Option<Record>, chain: Option<string>, suite: Lane) {
    file.Some? && chain.Some? && file.value.chain == chain.value && file.value.suite == suite
  }

  function LaneFor(i: Inputs, chain: Option<string>, suite: Lane): LaneReport {
    LaneReport(suite, if suite in i.needs then i.needs[suite] else "missing",
               if suite in i.directory && Identified(i.directory[suite], chain, suite) then i.directory[suite] else None)
  }

  function WithoutPrepare(i: Inputs): Inputs {
    Inputs(i.needs - {Other("prepare")}, i.directory, [])
  }

  /** Every suite ran, succeeded and left a passing record, and nothing else is there. */
  ghost predicate AllPassed(i: Inputs, chain: string) {
    && i.needs.Keys - {Other("prepare")} == AllSuites() == i.directory.Keys
    && forall s :: s in SUITES ==>
         i.needs[s] == "success" && i.directory[s].Some? && Passing(i.directory[s].value, chain, s)
  }

  /** `summarize`: every lane is retained, and `complete` means that all twelve suites passed. */
  method Summarize(i: Inputs, chain: Option<string>) returns (lanes: seq<LaneReport>, complete: bool)
    ensures |lanes| == |SUITES|
    ensures forall k :: 0 <= k < |SUITES| ==> lanes[k] == LaneFor(i, chain, SUITES[k])
    ensures complete <==> chain.Some? && AllPassed(i, chain.value)
  {
    hide Passing, Accepts, AllPassed;
    lanes := [];
    for k := 0 to |SUITES|
      invariant |lanes| == k
      invariant forall j :: 0 <= j < k ==> lanes[j] == LaneFor(i, chain, SUITES[j])
    {
      lanes := lanes + [LaneFor(i, chain, SUITES[k])];
    }
    complete := false;
    if chain.Some? {
      var r := Aggregate(WithoutPrepare(i), chain.value);
      complete := r.Some?;
      UnskippedAcceptance(i, chain.value);
    }
  }

  /** With nothing permitted to be skipped, acceptance means that every suite passed. */
  lemma UnskippedAcceptance(i: Inputs, chain: string)
    ensures Accepts(WithoutPrepare(i), chain) <==> AllPassed(i, chain)
  {
    if Accepts(WithoutPrepare(i), chain) {
      AcceptedPassed(i, chain);
    }
    if AllPassed(i, chain) {
      PassedAccepted(i, chain);
    }
  }

  lemma AcceptedPassed(i: Inputs, chain: string)
    requires Accepts(WithoutPrepare(i), chain)
    ensures AllPassed(i, chain)
  {
    hide Passing;
    var j := WithoutPrepare(i);
    var n: nat :| EvidenceFor(j, chain, n);
    assert Allowed(j.allowSkipped) == {} && Skipped(j.needs) == {};
    SkippedFrom(j, n);
    assert SUITES[..n] == SUITES;
    forall s | s in SUITES
      ensures i.needs[s] == "success" && i.directory[s].Some? && Passing(i.directory[s].value, chain, s)
    {
      assert s in j.needs && s !in Skipped(j.needs);
      var k :| 0 <= k < |SUITES| && SUITES[k] == s;
    }
  }

  lemma PassedAccepted(i: Inputs, chain: string)
    requires AllPassed(i, chain)
    ensures Accepts(WithoutPrepare(i), chain)
  {
    hide Passing;
    var j := WithoutPrepare(i);
    forall name | name in j.needs ensures j.needs[name] == "success" {
      assert name in AllSuites();
    }
    assert Skipped(j.needs) == {};
    assert SUITES[..|SUITES|] == SUITES;
    assert EvidenceFor(j, chain, |SUITES|);
  }
}
