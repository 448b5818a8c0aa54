/** The match engine: every owner against every Oakland voter, owners outer
    and voters inner, classifying each pair, counting it in its tier and
    pushing a match record when its label is not empty. */
module Engine {
  import opened Records
  import opened Matchers
  import opened Classifier
  import opened Display
  import Ranker

  /** `matchConfidenceCounts`: one counter per tier. */
  datatype Counts = Counts(
    nameOnly: nat,
    addressOnly: nat,
    firstNameAndAddress: nat,
    lastNameAndAddress: nat,
    fullNameAndAddress: nat)
  {
    function Total(): nat
    {
      nameOnly + addressOnly + firstNameAndAddress + lastNameAndAddress + fullNameAndAddress
    }

    /** The counter of tier `c`; `Unmatched` has none. */
    function Of(c: Confidence): nat
    {
      match c
      case FullNameAndAddress => fullNameAndAddress
      case LastNameAndAddress => lastNameAndAddress
      case FirstNameAndAddress => firstNameAndAddress
      case AddressOnly => addressOnly
      case NameOnly => nameOnly
      case Unmatched => 0
    }

    /** The `++matchConfidenceCounts.<tier>` of the branch taken: at most one
        counter goes up, and only for a non-empty label. */
    function Bump(c: Confidence): (r: Counts)
      ensures c != Unmatched ==> r.Of(c) == Of(c) + 1
      ensures forall d :: d != c ==> r.Of(d) == Of(d)
      ensures r.Total() == if c == Unmatched then Total() else Total() + 1
    {
      match c
      case FullNameAndAddress => this.(fullNameAndAddress := fullNameAndAddress + 1)
      case LastNameAndAddress => this.(lastNameAndAddress := lastNameAndAddress + 1)
      case FirstNameAndAddress => this.(firstNameAndAddress := firstNameAndAddress + 1)
      case AddressOnly => this.(addressOnly := addressOnly + 1)
      case NameOnly => this.(nameOnly := nameOnly + 1)
      case Unmatched => this
    }
  }

  const NoCounts := Counts(0, 0, 0, 0, 0)

  /** What one inner-loop iteration decides about a pair: its label, and
      whether any matcher it ran raised the error flag. */
  datatype PairResult = PairResult(confidence: Confidence, error: bool)

  /** The four matcher calls and the cascade for one owner and one voter. */
  function EvaluatePair(owner: Owner, voter: Voter): PairResult
  {
    var name := NameMatch(owner, voter);
    var lastName := LastNameMatch(owner, voter);
    var firstName := FirstNameMatch(owner, voter);
    var address := AddressMatch(owner, voter);
    PairResult(
      Classify(name.matched, lastName.matched, firstName.matched, address.matched),
      name.error || lastName.error || firstName.error || address.error)
  }

  /** The label is non-empty exactly when the address matches or the full
      name does; full name and address wins over every other tier; "name
      only" is a full-name match without an address match. The pair raises
      the flag exactly when one of its matchers does. */
  lemma PairClassification(owner: Owner, voter: Voter)
    ensures EvaluatePair(owner, voter).confidence != Unmatched <==>
      AddressMatch(owner, voter).matched ||
      (LastNameMatch(owner, voter).matched && FirstNameMatch(owner, voter).matched)
    ensures EvaluatePair(owner, voter).confidence == FullNameAndAddress <==>
      AddressMatch(owner, voter).matched &&
      LastNameMatch(owner, voter).matched && FirstNameMatch(owner, voter).matched
    ensures EvaluatePair(owner, voter).confidence == NameOnly <==>
      !AddressMatch(owner, voter).matched &&
      LastNameMatch(owner, voter).matched && FirstNameMatch(owner, voter).matched
    ensures EvaluatePair(owner, voter).error <==>
      LastNameMatch(owner, voter).error || FirstNameMatch(owner, voter).error ||
      AddressMatch(owner, voter).error
  {
  }

  /** A voter missing a field the address matcher reads (a house number, a
      street, a mailing street) or an owner without an address: the address
      condition fails, the flag is raised, and the name matchers still decide
      between "name only" and no label. */
  lemma AddressFieldMissingCapsTier(owner: Owner, voter: Voter)
    requires AddressFieldMissing(owner, voter)
    ensures EvaluatePair(owner, voter).error
    ensures EvaluatePair(owner, voter).confidence == NameOnly <==> NameMatch(owner, voter).matched
    ensures EvaluatePair(owner, voter).confidence == Unmatched <==> !NameMatch(owner, voter).matched
  {
  }

  /** A missing zip on either side has the same effect. */
  lemma ZipFieldMissingCapsTier(owner: Owner, voter: Voter)
    requires owner.zip.None? || voter.zip.None? || voter.mailZip.None?
    ensures EvaluatePair(owner, voter).error
    ensures EvaluatePair(owner, voter).confidence == NameOnly <==> NameMatch(owner, voter).matched
    ensures EvaluatePair(owner, voter).confidence == Unmatched <==> !NameMatch(owner, voter).matched
  {
  }

  /** The object pushed for a matched pair. */
  function MakeRecord(owner: Owner, voter: Voter, c: Confidence): MatchRecord
  {
    MatchRecord(
      c.Label(), owner.name1, owner.address, owner.zip,
      VoterName(voter), VoterAddress(voter),
      voter.zip, voter.mailStreet, voter.mailZip, voter.phone1, voter.phone2,
      voter.voterId, voter.email)
  }

  /** How a pair is judged. The engine's own judge is `EvaluatePair`; the
      specification below is stated for any judge, so that its properties
      do not depend on what the matchers look at. */
  type Judge = (Owner, Voter) -> PairResult

  /** A pair gets a record when its label is not empty. */
  predicate Labelled(judge: Judge, p: (Owner, Voter))
  {
    judge(p.0, p.1).confidence != Unmatched
  }

  /** The record a pair would push. */
  function PairRecord(judge: Judge, p: (Owner, Voter)): MatchRecord
  {
    MakeRecord(p.0, p.1, judge(p.0, p.1).confidence)
  }

  /** The pairs of one owner, voters in order. */
  function Row(owner: Owner, voters: seq<Voter>): (ps: seq<(Owner, Voter)>)
    ensures |ps| == |voters|
    ensures forall j :: 0 <= j < |voters| ==> ps[j] == (owner, voters[j])
  {
    if voters == [] then []
    else Row(owner, voters[..|voters| - 1]) + [(owner, voters[|voters| - 1])]
  }

  /** The cross product in loop order: owners outer, voters inner. */
  function Cross(owners: seq<Owner>, voters: seq<Voter>): seq<(Owner, Voter)>
  {
    if owners == [] then []
    else Cross(owners[..|owners| - 1], voters) + Row(owners[|owners| - 1], voters)
  }

  /** The records pushed while visiting `ps` in order. */
  function Emitted(judge: Judge, ps: seq<(Owner, Voter)>): seq<MatchRecord>
  {
    if ps == [] then []
    else
      var last := ps[|ps| - 1];
      Emitted(judge, ps[..|ps| - 1]) + (if Labelled(judge, last) then [PairRecord(judge, last)] else [])
  }

  /** The counters after visiting `ps` in order. */
  function Tally(judge: Judge, ps: seq<(Owner, Voter)>): Counts
  {
    if ps == [] then NoCounts
    else Tally(judge, ps[..|ps| - 1]).Bump(judge(ps[|ps| - 1].0, ps[|ps| - 1].1).confidence)
  }

  /** The error flag after visiting `ps` in order, starting from false. */
  function AnyError(judge: Judge, ps: seq<(Owner, Voter)>): bool
  {
    if ps == [] then false
    else AnyError(judge, ps[..|ps| - 1]) || judge(ps[|ps| - 1].0, ps[|ps| - 1].1).error
  }

  /** Visiting one more pair extends the three folds by that pair's step. */
  lemma VisitOne(judge: Judge, ps: seq<(Owner, Voter)>, p: (Owner, Voter))
    ensures Emitted(judge, ps + [p]) ==
      Emitted(judge, ps) + (if Labelled(judge, p) then [PairRecord(judge, p)] else [])
    ensures Tally(judge, ps + [p]) == Tally(judge, ps).Bump(judge(p.0, p.1).confidence)
    ensures AnyError(judge, ps + [p]) == (AnyError(judge, ps) || judge(p.0, p.1).error)
  {
    assert (ps + [p])[..|ps + [p]| - 1] == ps;
  }

  /** One more voter extends the pairs visited so far, `done` followed by
      the row begun, by one pair. */
  lemma RowStep(done: seq<(Owner, Voter)>, owner: Owner, voters: seq<Voter>, j: nat)
    requires j < |voters|
    ensures done + Row(owner, voters[..j + 1]) == done + Row(owner, voters[..j]) + [(owner, voters[j])]
  {
    assert voters[..j + 1][..j] == voters[..j];
  }

  /** One more owner extends the cross product by that owner's row. */
  lemma CrossStep(owners: seq<Owner>, voters: seq<Voter>, i: nat)
    requires i < |owners|
    ensures Cross(owners[..i + 1], voters) == Cross(owners[..i], voters) + Row(owners[i], voters)
  {
    assert owners[..i + 1][..i] == owners[..i];
  }

  /** The top-level loops. The script's `hadError`, `matchConfidenceCounts`
      and `ownerOccupiedWithAllVoterInfo` are the locals `hadError`, `counts`
      and `records`, returned at the end. */
  method RunMatchEngine(owners: seq<Owner>, voters: seq<Voter>)
    returns (records: seq<MatchRecord>, counts: Counts, hadError: bool)
    ensures records == Emitted(EvaluatePair, Cross(owners, voters))
    ensures counts == Tally(EvaluatePair, Cross(owners, voters))
    ensures hadError == AnyError(EvaluatePair, Cross(owners, voters))
  {
    records, counts, hadError := [], NoCounts, false;
    for i := 0 to |owners|
      invariant records == Emitted(EvaluatePair, Cross(owners[..i], voters))
      invariant counts == Tally(EvaluatePair, Cross(owners[..i], voters))
      invariant hadError == AnyError(EvaluatePair, Cross(owners[..i], voters))
    {
      var owner := owners[i];
      ghost var seen := Cross(owners[..i], voters);
      ghost var done := seen;
      assert voters[..0] == [];
      assert done + Row(owner, voters[..0]) == seen;
      for j := 0 to |voters|
        invariant seen == done + Row(owner, voters[..j])
        invariant records == Emitted(EvaluatePair, seen)
        invariant counts == Tally(EvaluatePair, seen)
        invariant hadError == AnyError(EvaluatePair, seen)
      {
        var voter := voters[j];
        VisitOne(EvaluatePair, seen, (owner, voter));
        var pair := EvaluatePair(owner, voter);
        hadError := hadError || pair.error;
        counts := counts.Bump(pair.confidence);
        if pair.confidence != Unmatched {
          records := records + [MakeRecord(owner, voter, pair.confidence)];
        }
        RowStep(done, owner, voters, j);
        seen := seen + [(owner, voter)];
      }
      assert voters[..|voters|] == voters;
      CrossStep(owners, voters, i);
    }
    assert owners[..|owners|] == owners;
  }

  // ---------------------------------------------------------------------
  // Properties of the engine's specification

  /** The number of pairs visited before owner `i`'s row, with `m` voters per row. */
  function RowStart(i: nat, m: nat): nat
  {
    if i == 0 then 0 else RowStart(i - 1, m) + m
  }

  lemma {:induction false} RowStartIsProduct(i: nat, m: nat)
    ensures RowStart(i, m) == i * m
  {
    if i > 0 {
      RowStartIsProduct(i - 1, m);
      assert (i - 1) * m + m == i * m;
    }
  }

  lemma {:induction false} CrossLength(owners: seq<Owner>, voters: seq<Voter>)
    ensures |Cross(owners, voters)| == RowStart(|owners|, |voters|)
  {
    if owners != [] {
      CrossLength(owners[..|owners| - 1], voters);
    }
  }

  /** The pair of owner `i` and voter `j` is visited at step `RowStart(i, |voters|) + j`,
      that is `i * |voters| + j`: owners outer, voters inner. */
  lemma {:induction false} CrossAt(owners: seq<Owner>, voters: seq<Voter>, i: nat, j: nat)
    requires i < |owners| && j < |voters|
    ensures RowStart(i, |voters|) + j < |Cross(owners, voters)|
    ensures Cross(owners, voters)[RowStart(i, |voters|) + j] == (owners[i], voters[j])
  {
    var n, m := |owners| - 1, |voters|;
    var init := owners[..n];
    var front, row := Cross(init, voters), Row(owners[n], voters);
    assert Cross(owners, voters) == front + row;
    CrossLength(init, voters);
    if i < n {
      CrossAt(init, voters, i, j);
      assert owners[i] == init[i];
    } else {
      assert row[j] == (owners[n], voters[j]);
    }
  }

  lemma {:induction false} EmittedAppend(judge: Judge, ps: seq<(Owner, Voter)>, qs: seq<(Owner, Voter)>)
    ensures Emitted(judge, ps + qs) == Emitted(judge, ps) + Emitted(judge, qs)
    decreases |qs|
  {
    if qs == [] {
      assert ps + qs == ps;
    } else {
      var init := qs[..|qs| - 1];
      assert (ps + qs)[..|ps + qs| - 1] == ps + init;
      EmittedAppend(judge, ps, init);
    }
  }

  /** The records of one owner all come after those of the owners before it:
      the record list is the owners' rows of records, in owner order. */
  lemma EmittedByOwner(judge: Judge, owners: seq<Owner>, voters: seq<Voter>)
    requires owners != []
    ensures Emitted(judge, Cross(owners, voters)) ==
      Emitted(judge, Cross(owners[..|owners| - 1], voters)) +
      Emitted(judge, Row(owners[|owners| - 1], voters))
  {
    EmittedAppend(judge, Cross(owners[..|owners| - 1], voters), Row(owners[|owners| - 1], voters));
  }

  /** Visiting the `k`-th pair of `ps` pushes record `r`. */
  ghost predicate Pushes(judge: Judge, ps: seq<(Owner, Voter)>, k: int, r: MatchRecord)
  {
    0 <= k < |ps| && Labelled(judge, ps[k]) && r == PairRecord(judge, ps[k])
  }

  /** Every record in the list was pushed by some pair. */
  lemma {:induction false} EmittedFromPair(judge: Judge, ps: seq<(Owner, Voter)>, r: MatchRecord)
    requires r in Emitted(judge, ps)
    ensures exists k :: Pushes(judge, ps, k, r)
  {
    var init, last := ps[..|ps| - 1], ps[|ps| - 1];
    var tail := if Labelled(judge, last) then [PairRecord(judge, last)] else [];
    assert Emitted(judge, ps) == Emitted(judge, init) + tail;
    if r in Emitted(judge, init) {
      EmittedFromPair(judge, init, r);
      var k :| Pushes(judge, init, k, r);
      assert Pushes(judge, ps, k, r);
    } else {
      assert Pushes(judge, ps, |ps| - 1, r);
    }
  }

  /** Every labelled pair's record is in the list. */
  lemma {:induction false} PairEmitted(judge: Judge, ps: seq<(Owner, Voter)>, k: int, r: MatchRecord)
    requires Pushes(judge, ps, k, r)
    ensures r in Emitted(judge, ps)
  {
    var init, last := ps[..|ps| - 1], ps[|ps| - 1];
    var tail := if Labelled(judge, last) then [PairRecord(judge, last)] else [];
    assert Emitted(judge, ps) == Emitted(judge, init) + tail;
    if k < |init| {
      assert init[k] == ps[k];
      PairEmitted(judge, init, k, r);
    } else {
      assert tail == [r];
    }
  }

  /** A record is pushed for exactly the pairs with a non-empty label. */
  lemma EmittedExactly(judge: Judge, ps: seq<(Owner, Voter)>, r: MatchRecord)
    ensures r in Emitted(judge, ps) <==> exists k :: Pushes(judge, ps, k, r)
  {
    if r in Emitted(judge, ps) {
      EmittedFromPair(judge, ps, r);
    }
    if exists k :: Pushes(judge, ps, k, r) {
      var k :| Pushes(judge, ps, k, r);
      PairEmitted(judge, ps, k, r);
    }
  }

  /** Every record's label is one of the five tiers. */
  lemma {:induction false} EmittedLabels(judge: Judge, ps: seq<(Owner, Voter)>)
    ensures forall k :: 0 <= k < |Emitted(judge, ps)| ==> Ranker.Priority(Emitted(judge, ps)[k]) >= 1
  {
    if ps != [] {
      EmittedLabels(judge, ps[..|ps| - 1]);
    }
  }

  /** The counters add up to the number of records. */
  lemma {:induction false} TallyCountsRecords(judge: Judge, ps: seq<(Owner, Voter)>)
    ensures Tally(judge, ps).Total() == |Emitted(judge, ps)|
  {
    if ps != [] {
      TallyCountsRecords(judge, ps[..|ps| - 1]);
    }
  }

  /** The priority a tier's label gets from `entryPriority`. */
  function TierPriority(c: Confidence): (p: int)
    ensures p == Ranker.EntryPriority(c.Label())
    ensures c != Unmatched ==> 1 <= p
  {
    match c
    case FullNameAndAddress => 5
    case LastNameAndAddress => 4
    case FirstNameAndAddress => 3
    case AddressOnly => 2
    case NameOnly => 1
    case Unmatched => 0
  }

  /** A record's priority is its tier's, and no other tier's. */
  lemma RecordTier(owner: Owner, voter: Voter, c: Confidence, d: Confidence)
    requires c != Unmatched
    ensures Ranker.Priority(MakeRecord(owner, voter, d)) == TierPriority(c) <==> d == c
  {
    assert Ranker.Priority(MakeRecord(owner, voter, d)) == TierPriority(d);
  }

  /** The cascade tries the tiers best first, and `entryPriority` gives them
      strictly falling priorities in that same order, ending at 0 for no label. */
  lemma TiersInCascadeOrder()
    ensures TierPriority(FullNameAndAddress) > TierPriority(LastNameAndAddress)
    ensures TierPriority(LastNameAndAddress) > TierPriority(FirstNameAndAddress)
    ensures TierPriority(FirstNameAndAddress) > TierPriority(AddressOnly)
    ensures TierPriority(AddressOnly) > TierPriority(NameOnly)
    ensures TierPriority(NameOnly) > TierPriority(Unmatched) == 0
  {
  }

  /** Each tier's counter is the number of records carrying that tier's label. */
  lemma {:induction false} TallyPerTier(judge: Judge, ps: seq<(Owner, Voter)>, c: Confidence)
    requires c != Unmatched
    ensures Tally(judge, ps).Of(c) == |Ranker.Band(Ranker.Priority, Emitted(judge, ps), TierPriority(c))|
  {
    if ps != [] {
      var init := ps[..|ps| - 1];
      var last := ps[|ps| - 1];
      var d := judge(last.0, last.1).confidence;
      TallyPerTier(judge, init, c);
      var tail := if Labelled(judge, last) then [PairRecord(judge, last)] else [];
      assert Tally(judge, ps) == Tally(judge, init).Bump(d);
      assert Emitted(judge, ps) == Emitted(judge, init) + tail;
      Ranker.BandAppend(Ranker.Priority, Emitted(judge, init), tail, TierPriority(c));
      assert |Ranker.Band(Ranker.Priority, tail, TierPriority(c))| == if d == c then 1 else 0 by {
        if tail != [] {
          RecordTier(last.0, last.1, c, d);
          assert Ranker.Band(Ranker.Priority, tail, TierPriority(c)) ==
            (if Ranker.Priority(tail[0]) == TierPriority(c) then [tail[0]] else []) + Ranker.Band(Ranker.Priority, [], TierPriority(c));
        }
      }
    }
  }

  /** The flag is set exactly when some pair raised it. */
  lemma {:induction false} AnyErrorMeansSomePair(judge: Judge, ps: seq<(Owner, Voter)>)
    ensures AnyError(judge, ps) <==> exists k :: 0 <= k < |ps| && judge(ps[k].0, ps[k].1).error
  {
    if ps != [] {
      var init := ps[..|ps| - 1];
      AnyErrorMeansSomePair(judge, init);
      if exists k :: 0 <= k < |init| && judge(init[k].0, init[k].1).error {
        var k :| 0 <= k < |init| && judge(init[k].0, init[k].1).error;
        assert ps[k] == init[k];
      }
      if exists k :: 0 <= k < |ps| && judge(ps[k].0, ps[k].1).error {
        var k :| 0 <= k < |ps| && judge(ps[k].0, ps[k].1).error;
        if k < |init| {
          assert init[k] == ps[k];
        }
      }
    }
  }

  /** Once set, the flag stays set whatever pairs come after. */
  lemma {:induction false} AnyErrorSticky(judge: Judge, ps: seq<(Owner, Voter)>, qs: seq<(Owner, Voter)>)
    requires AnyError(judge, ps)
    ensures AnyError(judge, ps + qs)
    decreases |qs|
  {
    if qs != [] {
      var init := qs[..|qs| - 1];
      assert (ps + qs)[..|ps + qs| - 1] == ps + init;
      AnyErrorSticky(judge, ps, init);
    } else {
      assert ps + qs == ps;
    }
  }

  /** No owners or no voters: no pairs at all. */
  lemma {:induction false} EmptyCross(owners: seq<Owner>, voters: seq<Voter>)
    requires owners == [] || voters == []
    ensures Cross(owners, voters) == []
  {
    if owners != [] {
      EmptyCross(owners[..|owners| - 1], voters);
      assert Row(owners[|owners| - 1], voters) == [];
    }
  }

  /** No owners or no voters: no records, all counters zero, no error. */
  lemma EmptyInputs(owners: seq<Owner>, voters: seq<Voter>)
    requires owners == [] || voters == []
    ensures Emitted(EvaluatePair, Cross(owners, voters)) == []
    ensures Tally(EvaluatePair, Cross(owners, voters)) == NoCounts
    ensures !AnyError(EvaluatePair, Cross(owners, voters))
  {
    EmptyCross(owners, voters);
  }
}
