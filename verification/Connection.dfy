/** The way to the database server.  Which statements are lost is the environment's choice, fixed from the
    start: no caller can bring a loss about. */
module Connection {
  import opened Wrappers
  import opened Statements

  class Connection {
    const fails: nat -> bool   // whether the n-th statement is lost
    const reportsRows: bool    // whether the driver reports the number of rows that a statement touched
    var sent: nat

    constructor (fails: nat -> bool, reportsRows: bool)
      ensures this.fails == fails && this.reportsRows == reportsRows && sent == 0
    {
      this.fails, this.reportsRows, sent := fails, reportsRows, 0;
    }

    ghost predicate Loses(i: nat) {
      fails(i)
    }

    /** None of these statements is lost. */
    ghost predicate Calm(from: nat, to: nat) {
      forall i :: from <= i < to ==> !Loses(i)
    }

    /** Nothing was lost since `from` statements had been sent. */
    ghost predicate Since(from: nat)
      reads this`sent
    {
      from <= sent && Calm(from, sent)
    }

    /** A call reports a lost connection exactly when the last statement sent was lost, and none before it
        since `from`; at most `limit` statements were sent in all. */
    ghost predicate Met<T>(r: Result<T>, from: nat, limit: nat)
      reads this`sent
    {
      && from <= sent <= limit
      && if r.Err? && r.error == ConnectionLost then from < sent && Calm(from, sent - 1) && Loses(sent - 1) else Calm(from, sent)
    }

    /** The same for a call that sends as many statements as it can when it succeeds. */
    ghost predicate Took<T>(r: Result<T>, from: nat, limit: nat)
      reads this`sent
    {
      Met(r, from, limit) && (r.Ok? ==> sent == limit)
    }

    /** Sends one statement. */
    method Send(ghost from: nat) returns (r: Result<()>)
      requires Since(from)
      modifies this`sent
      ensures sent == old(sent) + 1 && Met(r, from, sent)
      ensures r.Err? ==> r.error == ConnectionLost
    {
      sent := sent + 1;
      if fails(sent - 1) {
        return Err(ConnectionLost);
      }
      return Ok(());
    }
  }

  /** How many statements a batch of rows takes. */
  function Chunks(rows: nat): (chunks: nat)
    ensures rows <= 500 * chunks < rows + 500
  {
    if rows == 0 then 0 else 1 + Chunks(rows - Min(CHUNK_SIZE, rows))
  }

  lemma {:induction false} CalmAtFirst(c: Connection)
    ensures c.Since(c.sent)
  {
  }

  /** Where no statement is lost, none is reported lost. */
  lemma {:induction false} CalmMeets<T>(c: Connection, r: Result<T>, from: nat, limit: nat)
    requires c.Met(r, from, limit) && c.Calm(from, limit)
    ensures r != Err(ConnectionLost)
  {
  }
}
