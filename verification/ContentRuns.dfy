// The content stores over attempts, jobs and restarts: which interruptions keep
// the index repairable, and exactly what a retried job leaves behind.
module ContentRuns {
  import opened Text
  import opened ContentDelta
  import opened ContentJob

  datatype Disk = Disk(records: Option<Records>, content: Option<Postings>, versions: Option<Versions>)

  /** The places of these stores in the write order. */
  const RECORDS: nat := 0
  const CONTENT: nat := 1
  const VERSIONS: nat := 3

  /** The previous records an attempt starts from: none at all unless both the
      records and the content exist. */
  function PreviousRecords(d: Disk): Records {
    if d.records.Some? && d.content.Some? then d.records.value else map[]
  }

  function PreviousContent(d: Disk): Postings {
    if d.content.Some? then d.content.value else {}
  }

  /** The versions are stored for files only. */
  function VersionsOf(records: Records): Versions {
    map id | id in records && records[id].isFile :: records[id].version
  }

  /** Records, content and versions exist in every job; the OCR queue may not. */
  predicate HasStores(k: Work) {
    k.Valid() && !k.writes[RECORDS].Skipped? && !k.writes[CONTENT].Skipped? && !k.writes[VERSIONS].Skipped?
  }

  /** One attempt: its own snapshot, the quarantined ids, and how its writes end. */
  datatype Attempt = Attempt(current: Records, retried: set<nat>, work: Work)

  function PassOf(d: Disk, a: Attempt, extracts: Extractor): Pass {
    Pass(a.current, PreviousRecords(d), d.versions, a.retried, extracts)
  }

  function AfterAttempt(d: Disk, a: Attempt, extracts: Extractor): Disk
    requires a.work.Valid()
  {
    Disk(if Replaces(a.work, RECORDS) then Some(a.current) else d.records,
         if Replaces(a.work, CONTENT) then Some(PassOf(d, a, extracts).Next(PreviousContent(d))) else d.content,
         if Replaces(a.work, VERSIONS) then Some(VersionsOf(a.current)) else d.versions)
  }

  /** The content is what the saved records yield at the stored versions, which is
      what any later attempt needs of it. */
  predicate Consistent(d: Disk, extracts: Extractor) {
    PreviousContent(d) == Fresh(AsExtracted(PreviousRecords(d), d.versions), extracts)
  }

  lemma InOrder(k: Work)
    requires HasStores(k)
    ensures Replaces(k, VERSIONS) ==> Replaces(k, CONTENT)
    ensures Replaces(k, CONTENT) ==> Replaces(k, RECORDS)
    ensures Finishes(k) ==> Replaces(k, VERSIONS)
  {
    if Replaces(k, VERSIONS) {
      AttemptReplacesPrefix(k, CONTENT, VERSIONS);
    }
    if Replaces(k, CONTENT) {
      AttemptReplacesPrefix(k, RECORDS, CONTENT);
    }
    if Finishes(k) {
      FinishedAttemptReplacesAll(k, VERSIONS);
    }
  }

  lemma OwnVersions(records: Records)
    ensures AsExtracted(records, Some(VersionsOf(records))) == records
  {
  }

  // ----- One attempt -----

  /** From consistent stores, an attempt that gets as far as writing the content
      leaves the index of a full rebuild. */
  lemma WrittenContentIsFresh(d: Disk, a: Attempt, extracts: Extractor)
    requires a.work.Valid() && Consistent(d, extracts) && Replaces(a.work, CONTENT)
    ensures AfterAttempt(d, a, extracts).content == Some(Fresh(a.current, extracts))
  {
    ConsistencyServesEverySnapshot(PassOf(d, a, extracts));
  }

  /** The stored version of a file is not the one its path asks for now. */
  predicate VersionMoved(id: nat, current: Records, versions: Option<Versions>) {
    id in current && current[id].isFile && versions.Some? && id in versions.value
        && versions.value[id] != current[id].version
  }

  /** The stored version does not show in the index: neither it nor the current one
      yields text for the file. */
  predicate SilentEitherWay(id: nat, current: Records, versions: Option<Versions>, extracts: Extractor)
    requires id in current
  {
    !extracts(id, current[id]) && !extracts(id, AsStored(id, current[id], versions))
  }

  /** Exactly which interruptions keep the stores consistent. One before the records
      or behind the versions always does. One between content and versions does if
      every file whose version moved yields no text at either version. One between
      records and content does if there was no content, or if at the stored versions
      every id yields the same from the old and from the new records. */
  lemma InterruptionKeepsConsistencyIff(d: Disk, a: Attempt, extracts: Extractor)
    requires HasStores(a.work) && Consistent(d, extracts)
    ensures Consistent(AfterAttempt(d, a, extracts), extracts) <==>
            if !Replaces(a.work, RECORDS) || Replaces(a.work, VERSIONS) then true
            else if Replaces(a.work, CONTENT) then
              forall id :: VersionMoved(id, a.current, d.versions) ==>
                  SilentEitherWay(id, a.current, d.versions, extracts)
            else
              d.content.None? || forall id :: SameYield(id, d, a, extracts)
  {
    InOrder(a.work);
    if Replaces(a.work, CONTENT) {
      WrittenContentIsFresh(d, a, extracts);
      OwnVersions(a.current);
      LaggingVersions(a.current, d.versions, extracts);
    } else if Replaces(a.work, RECORDS) && d.content.Some? {
      SameFresh(AsExtracted(PreviousRecords(d), d.versions), AsExtracted(a.current, d.versions), extracts);
      hide AsExtracted, Fresh, Terms;
      assert forall id :: SameYield(id, d, a, extracts) <==>
               Terms(id, AsExtracted(PreviousRecords(d), d.versions), extracts)
               == Terms(id, AsExtracted(a.current, d.versions), extracts);
    }
  }

  /** The old and the new records yield the same for an id, both at the stored versions. */
  predicate SameYield(id: nat, d: Disk, a: Attempt, extracts: Extractor) {
    Terms(id, AsExtracted(PreviousRecords(d), d.versions), extracts) ==
    Terms(id, AsExtracted(a.current, d.versions), extracts)
  }

  lemma LaggingVersions(current: Records, versions: Option<Versions>, extracts: Extractor)
    ensures Fresh(AsExtracted(current, versions), extracts) == Fresh(current, extracts) <==>
            forall id :: VersionMoved(id, current, versions) ==> SilentEitherWay(id, current, versions, extracts)
  {
    var stored := AsExtracted(current, versions);
    SameFresh(stored, current, extracts);
    forall id ensures Terms(id, stored, extracts) == Terms(id, current, extracts) <==>
                      (VersionMoved(id, current, versions) ==> SilentEitherWay(id, current, versions, extracts)) {
      if VersionMoved(id, current, versions) && Terms(id, stored, extracts) == Terms(id, current, extracts) {
        assert stored[id] != current[id];
        assert current[id] !in Terms(id, stored, extracts) && stored[id] !in Terms(id, current, extracts);
      }
    }
  }

  // ----- Any sequence of attempts, over jobs and restarts -----

  function AfterAll(d: Disk, attempts: seq<Attempt>, extracts: Extractor): Disk
    requires forall i :: 0 <= i < |attempts| ==> attempts[i].work.Valid()
    decreases |attempts|
  {
    if attempts == [] then d else AfterAll(AfterAttempt(d, attempts[0], extracts), attempts[1..], extracts)
  }

  /** Stopped after the records and before the versions. */
  predicate Torn(k: Work)
    requires k.Valid()
  {
    Replaces(k, RECORDS) && !Replaces(k, VERSIONS)
  }

  lemma {:induction false} UntornAttemptsKeepConsistency(d: Disk, attempts: seq<Attempt>, extracts: Extractor)
    requires forall i :: 0 <= i < |attempts| ==>
               attempts[i].work.Valid() && HasStores(attempts[i].work) && !Torn(attempts[i].work)
    requires Consistent(d, extracts)
    ensures Consistent(AfterAll(d, attempts, extracts), extracts)
    decreases |attempts|
  {
    if attempts != [] {
      InterruptionKeepsConsistencyIff(d, attempts[0], extracts);
      UntornAttemptsKeepConsistency(AfterAttempt(d, attempts[0], extracts), attempts[1..], extracts);
    }
  }

  /** Whatever snapshots the attempts saw and wherever else they were stopped, the
      next finished attempt leaves a full rebuild of its own snapshot. */
  lemma {:induction false} FinishedAfterUntorn(d: Disk, attempts: seq<Attempt>, last: Attempt, extracts: Extractor)
    requires forall i :: 0 <= i < |attempts| ==>
               attempts[i].work.Valid() && HasStores(attempts[i].work) && !Torn(attempts[i].work)
    requires Consistent(d, extracts) && HasStores(last.work) && Finishes(last.work)
    ensures AfterAttempt(AfterAll(d, attempts, extracts), last, extracts) ==
            Disk(Some(last.current), Some(Fresh(last.current, extracts)),
                 Some(map id | id in last.current && last.current[id].isFile :: last.current[id].version))
  {
    UntornAttemptsKeepConsistency(d, attempts, extracts);
    InOrder(last.work);
    WrittenContentIsFresh(AfterAll(d, attempts, extracts), last, extracts);
  }

  // ----- A retried job -----

  /** The retry repairs an id: its version moved, or nothing about it had changed, or
      it was quarantined and held nothing before. */
  predicate Repaired(id: nat, d: Disk, a: Attempt, extracts: Extractor) {
    var before, now := At(PreviousContent(d), id), Terms(id, a.current, extracts);
    VersionMoved(id, a.current, d.versions) || before == now || (id in a.retried && before == {})
  }

  /** The second attempt of a job, on the snapshot the first one saw. It leaves the
      index of a full rebuild for every point at which the first was stopped, except
      between the records and the content of an existing index; there the saved
      records pose as the previous ones, and it does exactly if every id is repaired
      in one of the three ways. */
  lemma RetriedJobIsFreshIff(d: Disk, first: Attempt, second: Attempt, extracts: Extractor)
    requires Consistent(d, extracts) && HasStores(first.work) && HasStores(second.work) && Finishes(second.work)
    requires second.current == first.current
    ensures (AfterAttempt(AfterAttempt(d, first, extracts), second, extracts).content ==
             Some(Fresh(second.current, extracts))) <==>
            (Replaces(first.work, RECORDS) && !Replaces(first.work, CONTENT) && d.content.Some? ==>
               forall id :: Repaired(id, d, second, extracts))
  {
    InOrder(first.work);
    InOrder(second.work);
    var mid := AfterAttempt(d, first, extracts);
    var p := PassOf(mid, second, extracts);
    NextIsFreshIff(PreviousContent(mid), p);
    if Replaces(first.work, CONTENT) {
      RetryOfWrittenContent(d, first, second, extracts);
    } else if !Replaces(first.work, RECORDS) || d.content.None? {
      InterruptionKeepsConsistencyIff(d, first, extracts);
      WrittenContentIsFresh(mid, second, extracts);
    } else {
      forall id ensures p.InStep(PreviousContent(mid), id) <==> Repaired(id, d, second, extracts) {
        TornRetryInStep(d, first, second, extracts, id);
      }
    }
  }

  lemma RetryOfWrittenContent(d: Disk, first: Attempt, second: Attempt, extracts: Extractor)
    requires Consistent(d, extracts) && HasStores(first.work) && HasStores(second.work)
    requires second.current == first.current
    requires Replaces(first.work, CONTENT)
    ensures var mid := AfterAttempt(d, first, extracts);
            PassOf(mid, second, extracts).Next(PreviousContent(mid)) == Fresh(second.current, extracts)
  {
    InOrder(first.work);
    var mid := AfterAttempt(d, first, extracts);
    WrittenContentIsFresh(d, first, extracts);
    var p := PassOf(mid, second, extracts);
    NextIsFreshIff(PreviousContent(mid), p);
    forall id ensures p.InStep(PreviousContent(mid), id) {
      FreshAt(first.current, extracts, id);
    }
  }

  lemma TornRetryInStep(d: Disk, first: Attempt, second: Attempt, extracts: Extractor, id: nat)
    requires Consistent(d, extracts) && HasStores(first.work) && second.current == first.current
    requires Replaces(first.work, RECORDS) && !Replaces(first.work, CONTENT) && d.content.Some?
    ensures var mid := AfterAttempt(d, first, extracts);
            PassOf(mid, second, extracts).InStep(PreviousContent(mid), id) <==> Repaired(id, d, second, extracts)
  {
    InOrder(first.work);
    FreshAt(AsExtracted(PreviousRecords(d), d.versions), extracts, id);
  }

  predicate EveryFile(id: nat, r: Rec) { true }

  const INTERRUPTED: Work := Work(None, [Done, Refused(Failure), Done, Done, Done])
  const UNDISTURBED: Work := Work(None, [Done, Done, Done, Done, Done])

  lemma SampleWorks()
    ensures HasStores(INTERRUPTED) && Replaces(INTERRUPTED, RECORDS) && !Replaces(INTERRUPTED, CONTENT)
    ensures HasStores(UNDISTURBED) && Finishes(UNDISTURBED)
  {
    PassedBound(INTERRUPTED.writes);
    PassedBound(UNDISTURBED.writes);
    assert Continues(INTERRUPTED.writes[0]) && !Continues(INTERRUPTED.writes[1]);
    assert forall i :: 0 <= i < 5 ==> Continues(UNDISTURBED.writes[i]);
  }

  /** Two turns of the pool that nothing disturbs but the work itself. */
  function PlainTurn(k: Work): Turn {
    Turn(false, None, k, false, false, false, true, false)
  }

  lemma SampleJob()
    ensures AttemptError(INTERRUPTED) == Some(Failure)
    ensures Pool([PlainTurn(INTERRUPTED), PlainTurn(UNDISTURBED)], Failed) == PoolResult(Completed, 2, true)
  {
    SampleWorks();
    PassedBound(INTERRUPTED.writes);
    assert Continues(INTERRUPTED.writes[0]) && !Continues(INTERRUPTED.writes[1]);
    assert Passed(INTERRUPTED.writes) == 1;
    AttemptErrorLaw(UNDISTURBED);
    hide AttemptError, Finishes;
    var turns := [PlainTurn(INTERRUPTED), PlainTurn(UNDISTURBED)];
    assert turns[1..] == [PlainTurn(UNDISTURBED)];
  }

  /** A changed file whose update is lost: the content write of the first attempt
      fails, the pool runs a second attempt and reports the job completed, and the
      index it leaves still holds the old terms. */
  lemma RetryLosesUpdate() returns (d: Disk, current: Records, turns: seq<Turn>)
    ensures Consistent(d, EveryFile)
    ensures |turns| == 2 && turns[0].work.Valid() && turns[1].work.Valid()
    ensures Pool(turns, Failed) == PoolResult(Completed, 2, true) && JobResult(false, turns) == Report(2)
    ensures var mid := AfterAttempt(d, Attempt(current, {}, turns[0].work), EveryFile);
            AfterAttempt(mid, Attempt(current, {}, turns[1].work), EveryFile).content != Some(Fresh(current, EveryFile))
  {
    hide HasStores, Replaces, Finishes, AfterAttempt, Fresh, Pool;
    var before := map[1 := Rec(true, 10, 1)];
    current := map[1 := Rec(true, 20, 1)];
    turns := [PlainTurn(INTERRUPTED), PlainTurn(UNDISTURBED)];
    d := Disk(Some(before), Some(Fresh(before, EveryFile)), Some(VersionsOf(before)));
    OwnVersions(before);
    SampleWorks();
    SampleJob();
    var second := Attempt(current, {}, UNDISTURBED);
    RetriedJobIsFreshIff(d, Attempt(current, {}, INTERRUPTED), second, EveryFile);
    FreshAt(before, EveryFile, 1);
    assert Rec(true, 10, 1) in Terms(1, before, EveryFile);
    assert !Repaired(1, d, second, EveryFile);
  }

  /** Stores without saved records: an existing content index is never cleaned, so
      the stores are consistent, and stay repairable, only if it is empty. */
  lemma MissingStores(d: Disk, extracts: Extractor)
    requires d.records.None? || d.content.None?
    ensures Consistent(d, extracts) <==> PreviousContent(d) == {}
  {
    assert AsExtracted(map[], d.versions) == map[];
  }
}
