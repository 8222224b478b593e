// Cancellation and atomic stores as the workers see them. A token is observed
// only through its polls and is sticky: once a poll fails all later ones fail,
// so the whole schedule of a token is the number of polls that still pass.
module Control {
  import opened Text

  class Cancellation {
    const cancelAt: nat
    var polls: nat

    constructor (cancelAt: nat)
      ensures this.cancelAt == cancelAt && polls == 0
    {
      this.cancelAt := cancelAt;
      polls := 0;
    }

    method Check() returns (ok: bool)
      modifies this
      ensures polls == old(polls) + 1
      ensures ok == (old(polls) < cancelAt)
    {
      ok := polls < cancelAt;
      polls := polls + 1;
    }

    /** `n` polls in a row, stopping at the first failure. */
    method CheckTimes(n: nat) returns (ok: bool)
      modifies this
      ensures ok == Passes(old(polls), n, cancelAt)
      ensures ok ==> polls == old(polls) + n
      ensures !ok ==> polls > cancelAt
    {
      ok := true;
      var i := 0;
      while i < n && ok
        invariant i <= n
        invariant ok ==> polls == old(polls) + i && Passes(old(polls), i, cancelAt)
        invariant !ok ==> polls > cancelAt && i < n && !Passes(old(polls), n, cancelAt)
        decreases n - i, ok
      {
        ok := Check();
        if ok {
          i := i + 1;
        }
      }
    }
  }

  /** Do `n` polls after the first `polls` all pass? */
  predicate Passes(polls: nat, n: nat, cancelAt: nat) {
    n == 0 || polls + n <= cancelAt
  }

  /** How one checked write goes if nothing cancels it: the polls it makes before
      the temporary file is renamed over the store, at least one, and whether the
      file system refuses a step. One more poll follows the rename. */
  datatype WritePlan = WritePlan(extraPolls: nat, ioFails: bool) {
    function PollsBeforeRename(): nat { extraPolls + 1 }
  }

  predicate Lands(polls: nat, w: WritePlan, cancelAt: nat) {
    Passes(polls, w.PollsBeforeRename(), cancelAt) && !w.ioFails
  }

  predicate WriteSucceeds(polls: nat, w: WritePlan, cancelAt: nat) {
    Lands(polls, w, cancelAt) && Passes(polls, w.PollsBeforeRename() + 1, cancelAt)
  }

  /** A write replaces its store if and only if every poll before its rename passes and
      no step is refused; and it succeeds if and only if the poll behind it passes too. */
  lemma WriteNeeds(polls: nat, w: WritePlan, cancelAt: nat)
    ensures Lands(polls, w, cancelAt) <==> polls + w.extraPolls + 1 <= cancelAt && !w.ioFails
    ensures WriteSucceeds(polls, w, cancelAt) <==> polls + w.extraPolls + 2 <= cancelAt && !w.ioFails
    ensures Passes(polls, 1, cancelAt) <==> polls < cancelAt
  {
  }

  datatype WriteOutcome = Written | Cancelled | Refused

  /** A store file: absent, or holding the last value whose rename happened. */
  class StoreFile<T(==)> {
    var content: Option<T>

    constructor (content: Option<T>)
      ensures this.content == content
    {
      this.content := content;
    }

    method WriteChecked(value: T, w: WritePlan, c: Cancellation) returns (r: WriteOutcome)
      requires (this as object) != c
      modifies this, c
      ensures content == if Lands(old(c.polls), w, c.cancelAt) then Some(value) else old(content)
      ensures r.Written? <==> WriteSucceeds(old(c.polls), w, c.cancelAt)
      ensures r.Written? ==> c.polls == old(c.polls) + w.PollsBeforeRename() + 1
      ensures r.Refused? <==> Passes(old(c.polls), w.PollsBeforeRename(), c.cancelAt) && w.ioFails
    {
      var ok := c.CheckTimes(w.PollsBeforeRename());
      if !ok {
        return Cancelled;
      }
      if w.ioFails {
        return Refused;
      }
      content := Some(value);
      ok := c.Check();
      r := if ok then Written else Cancelled;
    }
  }
}
