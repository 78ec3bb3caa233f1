/** Running one piece of work in a transaction on a client of a connection pool. */
module Transaction {
  import opened Contracts

  datatype WorkResult<S, R> = Finished(state: S, value: R) | Threw

  datatype CommitFate = CommitApplied | CommitReplyLost | CommitRefused

  /** What the database does during one transaction. */
  datatype Surroundings = Surroundings(
    beginSucceeds: bool,
    commit: CommitFate,
    rollbackSucceeds: bool,
    connectionErrorEvent: bool)        // the client emits "error" while it is checked out

  datatype Result<R> = Success(value: R) | Failure

  type Client = nat

  /** Whether the work's result became the committed state. */
  predicate Commits<S, R>(done: WorkResult<S, R>, env: Surroundings) {
    done.Finished? && !env.commit.CommitRefused?
  }

  class Pool<S> {
    var state: S                       // what is committed
    var idle: set<Client>

    constructor (state: S, clients: set<Client>)
      ensures this.state == state && idle == clients
    {
      this.state, idle := state, clients;
    }

    /** Checks the client out and begins: the work starts from what is committed. */
    method Begin(client: Client, env: Surroundings) returns (draft: Option<S>)
      requires client in idle
      modifies this
      ensures state == old(state) && idle == old(idle) - {client}
      ensures draft == if env.beginSucceeds then Some(state) else None
    {
      idle := idle - {client};
      draft := if env.beginSucceeds then Some(state) else None;
    }

    /** Commits finished work, or rolls back, and gives the client back if its connection is sound. */
    method Finish<R>(client: Client, done: WorkResult<S, R>, env: Surroundings) returns (result: Result<R>)
      modifies this
      ensures result == if done.Finished? && env.commit.CommitApplied? then Success(done.value) else Failure
      ensures state == if Commits(done, env) then done.state else old(state)
      ensures idle == if env.connectionErrorEvent || (result.Failure? && !env.rollbackSucceeds)
                      then old(idle) else old(idle) + {client}
    {
      var connectionBroken := env.connectionErrorEvent;
      result := Failure;
      if done.Finished? {
        if !env.commit.CommitRefused? {
          state := done.state;
        }
        if env.commit.CommitApplied? {
          result := Success(done.value);
        }
      }
      if result.Failure? && !env.rollbackSucceeds {
        connectionBroken := true;
      }
      if !connectionBroken {
        idle := idle + {client};
      }
    }

    /**
     * Success means committed. After a failure nothing is committed, except that a commit whose
     * reply was lost may have taken effect. A client goes back to the pool exactly when its
     * connection is known to be sound.
     */
    method WithTransaction<R>(client: Client, work: S -> WorkResult<S, R>, env: Surroundings) returns (result: Result<R>)
      requires client in idle
      modifies this
      ensures var done := work(old(state));
              && (result.Success? <==> env.beginSucceeds && done.Finished? && env.commit.CommitApplied?)
              && (result.Success? ==> result.value == done.value && state == done.state)
              && (result.Failure? ==>
                    state == if env.beginSucceeds && done.Finished? && env.commit.CommitReplyLost? then done.state
                             else old(state))
      ensures idle == if env.connectionErrorEvent || (result.Failure? && !env.rollbackSucceeds)
                      then old(idle) - {client} else old(idle)
    {
      var draft := Begin(client, env);
      result := Finish(client, if draft.Some? then work(draft.value) else Threw, env);
    }
  }
}
