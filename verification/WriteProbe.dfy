// The walk that finds an existing place to ask for write access: from a target up
// through its ancestors.
module WriteProbe {
  import opened Text
  import opened Paths
  import opened Access

  datatype Walk = VolumeBlocked | MetadataFailed(at: Path) | Ended(at: Path)

  predicate Exists(m: Metadata) { m == Directory || m == OtherFile }

  /** The ancestor of a path that keeps its first `k` names. */
  function Ancestor(p: Path, k: nat): Path
    requires k <= |p.names|
  {
    p.(names := p.names[..k])
  }

  /** The path the walk starts from, for a path whose metadata can be read. */
  function Start(path: Path, meta: Path -> Metadata): Path {
    if meta(path) == Directory then path else ParentOrCwd(path)
  }

  /** Where the walk stops: at the longest ancestor that is not simply missing, or
      at the empty end of the chain. */
  predicate StopsAt(start: Path, meta: Path -> Metadata, k: nat) {
    && k <= |start.names|
    && (forall j :: k < j <= |start.names| ==> meta(Ancestor(start, j)) == NotFound)
    && (meta(Ancestor(start, k)) != NotFound || k == 0)
  }

  method WriteProbeExistingAncestor(path: Path, volumeBlocks: bool, meta: Path -> Metadata)
    returns (r: Walk, probes: nat)
    ensures volumeBlocks <==> r.VolumeBlocked?
    ensures volumeBlocks ==> probes == 0
    ensures !volumeBlocks && meta(path) == Metadata.Unavailable ==> r == MetadataFailed(path)
    ensures !volumeBlocks && meta(path) != Metadata.Unavailable ==>
              var start := if meta(path) == Directory then path else ParentOrCwd(path);
              exists k :: StopsAt(start, meta, k)
                && r == (if meta(Ancestor(start, k)) == Metadata.Unavailable
                         then MetadataFailed(Ancestor(start, k)) else Ended(Ancestor(start, k)))
    ensures !volumeBlocks && meta(path) == Directory ==> r == Ended(path)
    ensures probes <= |path.names| + 3
  {
    if volumeBlocks {
      return VolumeBlocked, 0;
    }
    probes := 1;
    var candidate;
    match meta(path) {
      case Directory => candidate := path;
      case Unavailable => return MetadataFailed(path), probes;
      case _ => candidate := ParentOrCwd(path);
    }
    ghost var start := Start(path, meta);
    assert Ancestor(path, |path.names|) == path;
    assert candidate == Ancestor(start, |start.names|);
    while true
      invariant |candidate.names| <= |start.names| && candidate == Ancestor(start, |candidate.names|)
      invariant forall j :: |candidate.names| < j <= |start.names| ==> meta(Ancestor(start, j)) == NotFound
      invariant probes == 1 + |start.names| - |candidate.names|
      decreases |candidate.names|
    {
      var m := meta(candidate);
      probes := probes + 1;
      if Exists(m) {
        assert StopsAt(start, meta, |candidate.names|);
        return Ended(candidate), probes;
      }
      if m == Metadata.Unavailable {
        assert StopsAt(start, meta, |candidate.names|);
        return MetadataFailed(candidate), probes;
      }
      match Parent(candidate) {
        case None =>
          assert StopsAt(start, meta, 0);
          return Ended(candidate), probes;
        case Some(parent) =>
          candidate := parent;
      }
    }
  }

  /** The walk stops at one place only: no deeper ancestor is skipped. */
  lemma StopIsUnique(start: Path, meta: Path -> Metadata, k: nat, k': nat)
    requires StopsAt(start, meta, k) && StopsAt(start, meta, k')
    ensures k == k'
  {
  }

  /** A host where the root and the current directory exist and the empty path does not. */
  predicate Ordinary(meta: Path -> Metadata) {
    Exists(meta(Path(true, []))) && Exists(meta(CURRENT)) && meta(EMPTY) == NotFound
  }

  /** The walk is meant to end at an existing path. It does for absolute paths and
      for single names; for a longer relative path exactly if one of its leading
      directories exists, and otherwise it ends at the empty path. */
  lemma EndsAtExistingPathIff(path: Path, meta: Path -> Metadata, k: nat)
    requires Ordinary(meta) && meta(path) != Directory && StopsAt(Start(path, meta), meta, k)
    requires forall j :: 0 <= j <= |path.names| ==> meta(Ancestor(path, j)) != Metadata.Unavailable
    ensures Exists(meta(Ancestor(Start(path, meta), k))) <==>
            path.absolute || |path.names| <= 1 || exists j :: 1 <= j < |path.names| && Exists(meta(Ancestor(path, j)))
    ensures !Exists(meta(Ancestor(Start(path, meta), k))) ==> Ancestor(Start(path, meta), k) == EMPTY
  {
    var start := ParentOrCwd(path);
    if start == CURRENT && !(path.names != [] && Parent(path).value == CURRENT) {
      assert Ancestor(CURRENT, 1) == CURRENT;
      assert path.names == [] || |path.names| == 1;
      assert |start.names| == 1;
      assert k == 1;
    } else {
      assert forall j :: 0 <= j <= |start.names| ==> Ancestor(start, j) == Ancestor(path, j);
      assert |start.names| == |path.names| - 1;
      if path.absolute {
        assert Ancestor(path, 0) == Path(true, []);
      } else {
        assert Ancestor(path, 0) == EMPTY;
      }
      assert meta(Ancestor(path, k)) == meta(Ancestor(start, k));
    }
  }

  /** A fresh directory name below a fresh directory name, given relative to a current
      directory that has neither: the walk ends at the empty path. */
  lemma WalkCanEndNowhere() returns (path: Path, meta: Path -> Metadata)
    ensures Ordinary(meta) && !path.absolute && meta(path) == NotFound
    ensures StopsAt(Start(path, meta), meta, 0) && Ancestor(Start(path, meta), 0) == EMPTY
  {
    path := Path(false, ["a", "b"]);
    meta := (p: Path) => if p.absolute || p == CURRENT then Directory else NotFound;
    assert Start(path, meta) == Path(false, ["a"]);
    assert forall j :: 0 < j <= 1 ==> Ancestor(Path(false, ["a"]), j) == Path(false, ["a"]);
    assert "a" != ".";
  }
}
