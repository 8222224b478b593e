// Paths as their components: absolute or relative, and the names in order. `.`
// and `..` are names like any other; repeated separators do not exist here.
module Paths {
  import opened Text

  datatype Path = Path(absolute: bool, names: seq<string>)

  const CURRENT: Path := Path(false, ["."])

  const EMPTY: Path := Path(false, [])

  /** `Path::parent`: none for the root and for the empty path. */
  function Parent(p: Path): Option<Path> {
    if p.names == [] then None else Some(p.(names := p.names[..|p.names| - 1]))
  }

  /** The parent, or the current directory when there is none or it is empty. */
  function ParentOrCwd(p: Path): Path {
    match Parent(p)
    case Some(q) => if q == EMPTY then CURRENT else q
    case None => CURRENT
  }

  /** What the parent is: the path is its parent with one name more, unless nothing is
      left in front of that name, or there is no name; then it is `.`. */
  lemma ParentOrCwdIs(p: Path)
    ensures var q := ParentOrCwd(p);
            if |p.names| > 1 || (|p.names| == 1 && p.absolute)
            then q.absolute == p.absolute && |q.names| + 1 == |p.names| && q.names <= p.names
            else !q.absolute && |q.names| == 1 && q.names[0] == "."
  {
  }
}
