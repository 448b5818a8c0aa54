/** The whole script between reading its inputs and writing its outputs:
    filter the voters, match every owner against them, sort the records. */
module Pipeline {
  import opened Records
  import opened Classifier
  import opened VoterFilter
  import opened Engine
  import opened Ranker

  /** What the script ends with: the sorted records it writes out, the tier
      counters and the error flag. */
  datatype Report = Report(matches: seq<MatchRecord>, counts: Counts, hadError: bool)

  /** The report the script produces from its two inputs, or `None` when the
      voter filter throws and the script stops before matching. */
  function Expected(owners: seq<Owner>, voters: seq<Voter>): Option<Report>
  {
    match OaklandVoters(voters)
    case None => None
    case Some(oakland) =>
      var pairs := Cross(owners, oakland);
      Some(Report(Ranked(Priority, Emitted(EvaluatePair, pairs)), Tally(EvaluatePair, pairs), AnyError(EvaluatePair, pairs)))
  }

  /** The pushed records, held in an array and sorted in place. */
  method SortRecords(records: seq<MatchRecord>) returns (sorted: seq<MatchRecord>)
    ensures sorted == Ranked(Priority, records)
  {
    var a := new MatchRecord[|records|](k requires 0 <= k < |records| => records[k]);
    assert a[..] == records;
    PriorityInRange();
    SortMatches(Priority, a);
    sorted := a[..];
  }

  /** Filter, run the matching loops, then sort the pushed records. */
  method FilterOakland(owners: seq<Owner>, voters: seq<Voter>) returns (out: Option<Report>)
    ensures out == Expected(owners, voters)
  {
    var filtered := OaklandVoters(voters);
    if filtered.None? {
      return None;
    }
    var records, counts, hadError := RunMatchEngine(owners, filtered.value);
    var sorted := SortRecords(records);
    out := Some(Report(sorted, counts, hadError));
  }

  /** The report's records are sorted best tier first, each tier keeps the
      order in which its records were pushed, no record is lost or added, and
      each counter equals the number of records in its tier. */
  lemma ReportIsRankedTally(owners: seq<Owner>, voters: seq<Voter>)
    requires Expected(owners, voters).Some?
    ensures var r := Expected(owners, voters).value;
      var pushed := Emitted(EvaluatePair, Cross(owners, OaklandVoters(voters).value));
      Descending(Priority, r.matches) &&
      SameBands(Priority, r.matches, pushed) &&
      multiset(r.matches) == multiset(pushed) &&
      r.counts.Total() == |r.matches| &&
      forall c :: c != Unmatched ==> r.counts.Of(c) == |Band(Priority, r.matches, TierPriority(c))|
  {
    var r := Expected(owners, voters).value;
    var pairs := Cross(owners, OaklandVoters(voters).value);
    var pushed := Emitted(EvaluatePair, pairs);
    PriorityInRange();
    RankedIsDescending(Priority, pushed);
    RankedIsStable(Priority, pushed);
    RankedIsPermutation(Priority, pushed);
    TallyCountsRecords(EvaluatePair, pairs);
    assert |r.matches| == |pushed| by {
      assert |multiset(r.matches)| == |multiset(pushed)|;
    }
    forall c | c != Unmatched
      ensures r.counts.Of(c) == |Band(Priority, r.matches, TierPriority(c))|
    {
      TallyPerTier(EvaluatePair, pairs, c);
    }
  }

  /** A voter the filter rejects never appears in a record: with the voter
      list reduced to the kept voters, the same report comes out. */
  lemma FilterFirst(owners: seq<Owner>, voters: seq<Voter>)
    requires OaklandVoters(voters).Some?
    ensures Expected(owners, OaklandVoters(voters).value) == Expected(owners, voters)
  {
    FilterIdempotent(voters);
  }

  /** A voter the filter cannot read stops the run: no report at all. */
  lemma UnreadableVoterStops(owners: seq<Owner>, voters: seq<Voter>, k: nat)
    requires k < |voters| && voters[k].mailCity.None?
    ensures Expected(owners, voters).None?
  {
  }
}
