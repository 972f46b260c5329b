/** One suite's evidence record, from the written case report to the chain's verdict. */
module SuiteRecord {
  import opened Text
  import opened CaseReport
  import opened CaseTable
  import opened ChainEvidence

  /** The report file: missing, empty or too large; not decodable; or a text. */
  datatype ReportFile = Unfit | Undecodable(digest: string) | Decoded(digest: string, text: string)

  /** The lanes whose report is a case table. */
  predicate TableSuite(suite: Lane) { suite in SUITES && suite != FaultTolerance && suite != Performance }

  function CountMap(c: Counts): map<string, int> {
    map["PASS" := c.pass, "FAIL" := c.fail, "SKIP" := c.skip, "UNSUPPORTED" := c.unsupported, "RUNNING" := c.running]
  }

  /** What `record` writes, whatever fails on the way. */
  method MakeRecord(chain: string, suite: Lane, sameScripts: bool, file: ReportFile, succeeded: bool) returns (r: Record)
    requires TableSuite(suite)
    ensures r == RecordOf(chain, suite, sameScripts, file, succeeded)
  {
    hide Read;
    r := Record(1, suite, chain, false, "", map[]);
    if !sameScripts || file.Unfit? {
      return;
    }
    r := r.(reportDigest := file.digest);
    if file.Undecodable? {
      return;
    }
    var read := ReportCounts(file.text);
    if read.Err? {
      return;
    }
    r := r.(counts := CountMap(read.value));
    if read.value.pass == 0 || read.value.fail > 0 || read.value.running > 0 || !succeeded {
      return;
    }
    r := r.(valid := true);
  }

  function RecordOf(chain: string, suite: Lane, sameScripts: bool, file: ReportFile, succeeded: bool): Record {
    var examined := sameScripts && !file.Unfit?;
    var read := if examined && file.Decoded? then Read(file.text) else Err(UnknownResult);
    Record(1, suite, chain, RecordAccepts(read) && succeeded, if examined then file.digest else "",
           if read.Ok? then CountMap(read.value) else map[])
  }

  /** A record passes exactly when scripts and jobs were right and the counts read from the report are accepted. */
  lemma RecordPassesExactly(chain: string, suite: Lane, sameScripts: bool, file: ReportFile, succeeded: bool)
    requires !file.Unfit? ==> Digest(file.digest)
    ensures Passing(RecordOf(chain, suite, sameScripts, file, succeeded), chain, suite) <==>
            sameScripts && succeeded && file.Decoded? && RecordAccepts(Read(file.text))
  {
    hide Read, Digest;
    if sameScripts && file.Decoded? && Read(file.text).Ok? {
      CountMapKeys(Read(file.text).value);
    }
  }

  lemma CountMapKeys(c: Counts)
    ensures CountMap(c).Keys == {"PASS", "FAIL", "SKIP", "UNSUPPORTED", "RUNNING"}
    ensures var m := CountMap(c);
            && (forall k :: k in m ==> m[k] >= 0)
            && m["PASS"] == c.pass && m["FAIL"] == c.fail && m["RUNNING"] == c.running
  {
  }

  /** The log says: something passed, nothing failed, every start was closed, and no line
      break got into a name. */
  ghost predicate LogPasses(es: seq<Event>) {
    LogOneLine(es) && !NoDoneOf(es, Pass) && NoDoneOf(es, Fail) && AllClosed(es)
  }

  /** The lane's record was made from the report written for the log `es`. */
  ghost predicate MadeFromLog(r: Record, chain: string, suite: Lane, es: seq<Event>) {
    exists digest, sameScripts, succeeded ::
      && Digest(digest)
      && r == RecordOf(chain, suite, sameScripts, Decoded(digest, Unlines(ReportLines(Run(es).rows))), succeeded)
  }

  lemma PassingRecordMeansPassingLog(r: Record, chain: string, suite: Lane, es: seq<Event>)
    requires CaseIds(es) && AllWellFormed(es) && MadeFromLog(r, chain, suite, es) && Passing(r, chain, suite)
    ensures LogPasses(es)
  {
    hide Passing, Digest, Read, Unlines, ReportLines, Run, RecordOf, CaseIds, RecordAccepts;
    var digest, sameScripts, succeeded :|
      && Digest(digest)
      && r == RecordOf(chain, suite, sameScripts, Decoded(digest, Unlines(ReportLines(Run(es).rows))), succeeded);
    RecordPassesExactly(chain, suite, sameScripts, Decoded(digest, Unlines(ReportLines(Run(es).rows))), succeeded);
    RecordAcceptsExactly(es);
  }

  /** End to end: in a chain that `summarize` calls complete, every suite whose record was made from
      the report of a log has a log with a pass, without a failure and with every start closed. */
  lemma CompleteChainMeansPassingLogs(i: Inputs, chain: string, suite: Lane, es: seq<Event>)
    requires AllPassed(i, chain) && suite in SUITES && i.directory[suite].Some?
    requires CaseIds(es) && AllWellFormed(es) && MadeFromLog(i.directory[suite].value, chain, suite, es)
    ensures LogPasses(es)
  {
    hide Passing, MadeFromLog, CaseIds, LogPasses;
    PassingRecordMeansPassingLog(i.directory[suite].value, chain, suite, es);
  }

  /** And the same of a chain that chain health verifies. */
  lemma VerifiedChainMeansPassingLogs(chain: string, records: seq<Record>, k: nat, es: seq<Event>)
    requires Verified(chain, records) && k < |records| && k < |SUITES|
    requires CaseIds(es) && AllWellFormed(es) && MadeFromLog(records[k], chain, SUITES[k], es)
    ensures LogPasses(es)
  {
    hide Passing, MadeFromLog, CaseIds, LogPasses;
    PassingRecordMeansPassingLog(records[k], chain, SUITES[k], es);
  }
}
