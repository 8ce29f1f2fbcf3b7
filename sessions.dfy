/**
 * The session lifecycle of `session_context` in `src/npg_irods/db/mlwh.py`:
 * a session is opened, the caller's block runs with it, and the session is
 * committed when the block completes, rolled back when the block (or the
 * commit) raises an `Exception`, and closed on every path.
 */
module Sessions {
  import opened Wrappers

  /** One change a unit of work makes to the warehouse. */
  datatype Write = Write(table: string, key: string)

  /**
   * A raised Python exception. `isException` is false for exceptions that
   * derive from `BaseException` but not from `Exception` (`KeyboardInterrupt`,
   * `SystemExit`, `GeneratorExit`), which `except Exception` does not catch.
   */
  datatype Raised = Raised(name: string, message: string, isException: bool)

  /** Where a session is in its lifecycle. */
  datatype State = Open | Committed | RolledBack | Closed

  /** The transaction-ending calls a session receives, in the order it receives them. */
  datatype Action = Commit | Rollback | Close

  /** What the caller's block does with the session: some writes, then it completes (`raises == None`) or raises. */
  datatype Body = Body(writes: seq<Write>, raises: Option<Raised>)

  /** A session bound to the warehouse. */
  class Session {
    /** The lifecycle state. */
    var state: State
    /** The warehouse's committed contents: what a fresh session sees. */
    var durable: seq<Write>
    /** Writes of the open transaction, not yet visible to other sessions. */
    var pending: seq<Write>
    /** Every successful commit, every rollback and every close, oldest first; a refused commit is not recorded. */
    var actions: seq<Action>

    /** Opens a session on a warehouse whose committed contents are `durable`. */
    constructor (durable: seq<Write>)
      ensures state == Open && this.durable == durable && pending == [] && actions == []
    {
      state := Open;
      this.durable := durable;
      pending := [];
      actions := [];
    }

    /** Flushes the caller's writes into the open transaction. */
    method Flush(writes: seq<Write>)
      requires state == Open
      modifies this
      ensures state == Open && durable == old(durable) && actions == old(actions)
      ensures pending == old(pending) + writes
    {
      pending := pending + writes;
    }

    /** Commits the open transaction; the storage layer may refuse with `failure`, and then nothing changes. */
    method Commit(failure: Option<Raised>) returns (raised: Option<Raised>)
      requires state == Open
      modifies this
      ensures raised == failure
      ensures failure.None? ==>
        && state == Committed && durable == old(durable) + old(pending) && pending == []
        && actions == old(actions) + [Action.Commit]
      ensures failure.Some? ==>
        state == old(state) && durable == old(durable) && pending == old(pending) && actions == old(actions)
    {
      raised := failure;
      if failure.None? {
        durable := durable + pending;
        pending := [];
        state := Committed;
        actions := actions + [Action.Commit];
      }
    }

    /** Discards the open transaction's writes. */
    method Rollback()
      requires state == Open
      modifies this
      ensures state == RolledBack && durable == old(durable) && pending == []
      ensures actions == old(actions) + [Action.Rollback]
    {
      pending := [];
      state := RolledBack;
      actions := actions + [Action.Rollback];
    }

    /** Releases the session; a transaction still open is discarded, not committed. */
    method Close()
      modifies this
      ensures state == Closed && durable == old(durable) && pending == []
      ensures actions == old(actions) + [Action.Close]
    {
      pending := [];
      state := Closed;
      actions := actions + [Action.Close];
    }
  }

  /** What the context manager ends with: the calls the session received, the
      exception the caller sees, and the warehouse's committed contents. */
  datatype Outcome = Outcome(actions: seq<Action>, raised: Option<Raised>, durable: seq<Write>)

  /** The error that leaves the `try` block: the block's own, else the commit's. */
  function TryError(body: Body, commitFailure: Option<Raised>): Option<Raised> {
    if body.raises.Some? then body.raises else commitFailure
  }

  /**
   * The specification of `session_context` for a block `body` on a warehouse
   * holding `durable`, when the commit would fail with `commitFailure`.
   */
  function ContextOutcome(durable: seq<Write>, body: Body, commitFailure: Option<Raised>): (o: Outcome)
    // commit happens exactly when the block completes and the commit succeeds
    ensures Commit in o.actions <==> body.raises.None? && commitFailure.None?
    // rollback happens exactly when an Exception leaves the try block
    ensures Rollback in o.actions <==> TryError(body, commitFailure).Some? && TryError(body, commitFailure).value.isException
    // close happens exactly once, and last
    ensures multiset(o.actions)[Close] == 1 && o.actions[|o.actions| - 1] == Close
    // nothing else happens: at most one commit or one rollback, then the close
    ensures |o.actions| <= 2 && multiset(o.actions)[Commit] + multiset(o.actions)[Rollback] <= 1
    // the caller sees the block's exception unchanged, else the commit's
    ensures body.raises.Some? ==> o.raised == body.raises
    ensures body.raises.None? ==> o.raised == commitFailure
    // the block's writes become visible only through a commit
    ensures o.durable == if Commit in o.actions then durable + body.writes else durable
  {
    var err := TryError(body, commitFailure);
    var ending := if err.None? then [Commit] else if err.value.isException then [Rollback] else [];
    Outcome(ending + [Close], err, if err.None? then durable + body.writes else durable)
  }

  /**
   * Runs `body` in a fresh session, as `with session_context(engine) as session:` does.
   */
  method SessionContext(durable: seq<Write>, body: Body, commitFailure: Option<Raised>)
    returns (session: Session, raised: Option<Raised>)
    ensures fresh(session)
    ensures session.state == Closed && session.pending == []
    ensures Outcome(session.actions, raised, session.durable) == ContextOutcome(durable, body, commitFailure)
  {
    session := new Session(durable);
    session.Flush(body.writes);
    if body.raises.None? {
      raised := session.Commit(commitFailure);
    } else {
      raised := body.raises;
    }
    if raised.Some? && raised.value.isException {
      session.Rollback();
    }
    session.Close();
  }
}
