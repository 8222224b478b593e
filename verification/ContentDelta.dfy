// The incremental content index: what an attempt extracts again, what it removes,
// and exactly when the index it leaves is the one a full rebuild would give.
module ContentDelta {
  import opened Text

  /** A file record as the content index sees it: whether it is a file, its stamp
      (kind, length and times), and the extractor version its path asks for. */
  datatype Rec = Rec(isFile: bool, stamp: nat, version: nat)

  type Records = map<nat, Rec>

  /** The index, as the record states whose terms it holds for every file id. */
  type Postings = set<(nat, Rec)>

  type Versions = map<nat, nat>

  /** Which record states yield text. */
  type Extractor = (nat, Rec) -> bool

  /** A saved record as it was extracted: a stored version overrides the one its
      path asks for today. */
  function AsStored(id: nat, r: Rec, versions: Option<Versions>): Rec {
    if versions.Some? && id in versions.value then r.(version := versions.value[id]) else r
  }

  function AsExtracted(records: Records, versions: Option<Versions>): Records {
    map id | id in records :: AsStored(id, records[id], versions)
  }

  /** What an id contributes when it is extracted. */
  function Terms(id: nat, records: Records, extracts: Extractor): set<Rec> {
    if id in records && records[id].isFile && extracts(id, records[id]) then {records[id]} else {}
  }

  /** An index built from scratch. */
  function Fresh(records: Records, extracts: Extractor): Postings {
    set id | id in records && records[id].isFile && extracts(id, records[id]) :: (id, records[id])
  }

  /** What an index holds for one id. */
  function At(content: Postings, id: nat): set<Rec> {
    set p | p in content && p.0 == id :: p.1
  }

  /** The inputs of one attempt; `retried` are the ids whose current state has an
      entry in the extraction quarantine. */
  datatype Pass = Pass(current: Records, previous: Records, versions: Option<Versions>, retried: set<nat>,
                       extracts: Extractor) {
    predicate Unchanged(id: nat) {
      id in current && id in previous && current[id] == AsStored(id, previous[id], versions)
    }

    /** Is the record extracted again? A quarantined file is even when unchanged. */
    predicate Extracted(id: nat) {
      id in current && (!Unchanged(id) || (id in retried && current[id].isFile))
    }

    /** Are the old terms of the id removed? */
    predicate Tombstoned(id: nat) {
      id in previous && previous[id].isFile && !Unchanged(id)
    }

    /** The new index. */
    function Next(content: Postings): Postings {
      (set p | p in content && !Tombstoned(p.0) :: p)
      + (set id | id in current && Extracted(id) && current[id].isFile && extracts(id, current[id]) ::
          (id, current[id]))
    }

    /** What the old index must hold for an id so that the new one is right there. */
    predicate InStep(content: Postings, id: nat) {
      || Tombstoned(id)
      || (if Extracted(id) then At(content, id) <= Terms(id, current, extracts)
          else At(content, id) == Terms(id, current, extracts))
    }
  }

  lemma NextAt(content: Postings, p: Pass, id: nat)
    ensures At(p.Next(content), id) ==
            (if p.Tombstoned(id) then {} else At(content, id))
            + (if p.Extracted(id) then Terms(id, p.current, p.extracts) else {})
  {
    var next := p.Next(content);
    forall r | r in At(content, id) && !p.Tombstoned(id) ensures r in At(next, id) {
      assert (id, r) in next;
    }
    if p.Extracted(id) && Terms(id, p.current, p.extracts) != {} {
      assert (id, p.current[id]) in next;
    }
  }

  lemma FreshAt(records: Records, extracts: Extractor, id: nat)
    ensures At(Fresh(records, extracts), id) == Terms(id, records, extracts)
  {
    if Terms(id, records, extracts) != {} {
      assert (id, records[id]) in Fresh(records, extracts);
    }
  }

  lemma SamePostings(a: Postings, b: Postings)
    ensures a == b <==> forall id :: At(a, id) == At(b, id)
  {
    if forall id :: At(a, id) == At(b, id) {
      forall p | p in a ensures p in b {
        assert p.1 in At(a, p.0);
        assert p.1 in At(b, p.0);
      }
      forall p | p in b ensures p in a {
        assert p.1 in At(b, p.0);
        assert p.1 in At(a, p.0);
      }
    }
  }

  lemma SameFresh(a: Records, b: Records, extracts: Extractor)
    ensures Fresh(a, extracts) == Fresh(b, extracts) <==> forall id :: Terms(id, a, extracts) == Terms(id, b, extracts)
  {
    SamePostings(Fresh(a, extracts), Fresh(b, extracts));
    hide Fresh, At;
    forall id ensures At(Fresh(a, extracts), id) == Terms(id, a, extracts)
              ensures At(Fresh(b, extracts), id) == Terms(id, b, extracts) {
      FreshAt(a, extracts, id);
      FreshAt(b, extracts, id);
    }
  }

  /** An attempt leaves the index of a full rebuild exactly when the old index was
      in step on every id: anything for an id it removes, nothing foreign for an id
      it adds, and the right thing for every id it leaves alone. */
  lemma NextIsFreshIff(content: Postings, p: Pass)
    ensures p.Next(content) == Fresh(p.current, p.extracts) <==> forall id :: p.InStep(content, id)
  {
    var next, rebuilt := p.Next(content), Fresh(p.current, p.extracts);
    SamePostings(next, rebuilt);
    hide Pass.Next, Fresh, At;
    forall id ensures At(next, id) == At(rebuilt, id) <==> p.InStep(content, id) {
      NextAt(content, p, id);
      FreshAt(p.current, p.extracts, id);
    }
  }

  /** The law incremental indexing is for: if the index holds what the saved records
      yield at the stored versions, an attempt leaves the index of a full rebuild,
      whatever changed in between, an upgraded extractor included. */
  lemma ConsistencyServesEverySnapshot(p: Pass)
    ensures p.Next(Fresh(AsExtracted(p.previous, p.versions), p.extracts)) == Fresh(p.current, p.extracts)
  {
    var content := Fresh(AsExtracted(p.previous, p.versions), p.extracts);
    forall id ensures p.InStep(content, id) {
      FreshAt(AsExtracted(p.previous, p.versions), p.extracts, id);
    }
    NextIsFreshIff(content, p);
  }

  /** And no other index will do: only the consistent one serves every snapshot. */
  lemma OnlyConsistencyServes(content: Postings, previous: Records, versions: Option<Versions>, extracts: Extractor)
    ensures content == Fresh(AsExtracted(previous, versions), extracts) <==>
            forall current :: Pass(current, previous, versions, {}, extracts).Next(content) == Fresh(current, extracts)
  {
    if content == Fresh(AsExtracted(previous, versions), extracts) {
      forall current ensures Pass(current, previous, versions, {}, extracts).Next(content) == Fresh(current, extracts) {
        ConsistencyServesEverySnapshot(Pass(current, previous, versions, {}, extracts));
      }
    }
    var same := AsExtracted(previous, versions);
    assert Pass(same, previous, versions, {}, extracts).Next(content) == content;
  }

  /** When the outcome of extractions changes between attempts, the index is that
      of a rebuild exactly if no unchanged file stopped yielding text, and every
      unchanged file that started to is retried because it was quarantined. */
  lemma ChangedOutcomes(p: Pass, before: Extractor)
    ensures p.Next(Fresh(AsExtracted(p.previous, p.versions), before)) == Fresh(p.current, p.extracts) <==>
            forall id :: p.Unchanged(id) && p.current[id].isFile ==>
              && (before(id, p.current[id]) ==> p.extracts(id, p.current[id]))
              && (p.extracts(id, p.current[id]) ==> before(id, p.current[id]) || id in p.retried)
  {
    var content := Fresh(AsExtracted(p.previous, p.versions), before);
    NextIsFreshIff(content, p);
    forall id ensures p.InStep(content, id) <==>
                      (p.Unchanged(id) && p.current[id].isFile ==>
                         && (before(id, p.current[id]) ==> p.extracts(id, p.current[id]))
                         && (p.extracts(id, p.current[id]) ==> before(id, p.current[id]) || id in p.retried)) {
      FreshAt(AsExtracted(p.previous, p.versions), before, id);
    }
  }
}
