// What a worker wants to do with a path.
module Intents {
  datatype Intent = Read | Write | Index | Preview | Operate {
    function Name(): string {
      match this
      case Read => "read"
      case Write => "write"
      case Index => "index"
      case Preview => "preview"
      case Operate => "operate"
    }

    /** Intents that change what is on the volume. */
    predicate Mutating() { this == Write || this == Operate }

    /** Intents a read-only bookmark serves. */
    predicate ReadOnly() { this == Read || this == Index || this == Preview }
  }
}
