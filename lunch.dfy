/** The Lunch Money side: the transaction record the handlers read, and the
    client calls they make, kept as a log so that contracts can speak of them. */
module Lunch {
  import opened Wrappers

  const CLEARED: string := "cleared"
  const UNCLEARED: string := "uncleared"
  const SECONDS_PER_DAY: int := 86400

  /** The fields of lunchable's TransactionObject that the modelled code reads.
      Amounts are in cents, `date` is a day number. */
  datatype Tx = Tx(
    id: int,
    amount: int,
    date: int,
    payee: string,
    status: string,
    isPending: bool,
    notes: Option<string>,
    recurringType: Option<string>,
    plaidId: Option<string>)

  /** Arguments of `get_transactions`; dates are midnights in seconds, an
      absent argument is None. */
  datatype Query = Query(status: Option<string>, pending: Option<bool>, startDate: int, endDate: int)

  /** Arguments of `update_transaction` (a TransactionUpdateObject). */
  datatype Patch = SetStatus(status: string) | SetTags(tags: seq<string>) | SetNotes(notes: string)

  /** Midnight of the day holding `t`: `datetime.replace(hour=0, minute=0, second=0, microsecond=0)`. */
  function Midnight(t: int): (m: int)
    ensures m <= t < m + SECONDS_PER_DAY
    ensures m % SECONDS_PER_DAY == 0
  {
    t - t % SECONDS_PER_DAY
  }

  /** The client for one chat's token. What the service answers is an input of
      the model; what the handlers ask of it is recorded. */
  class Client {
    var queries: seq<Query>
    var updates: seq<(int, Patch)>
    /** The ids passed to `get_transaction`, in call order. */
    var lookups: seq<int>

    constructor ()
      ensures queries == [] && updates == [] && lookups == []
    {
      queries, updates, lookups := [], [], [];
    }

    /** `get_transactions(...)`; `answer` is what the service returns or the
        failure it raises. */
    method GetTransactions(q: Query, answer: Result<seq<Tx>, Error>) returns (r: Result<seq<Tx>, Error>)
      modifies this
      ensures queries == old(queries) + [q] && updates == old(updates) && lookups == old(lookups)
      ensures r == answer
    {
      queries := queries + [q];
      r := answer;
    }

    /** `update_transaction(id, patch)`. */
    method UpdateTransaction(id: int, patch: Patch)
      modifies this
      ensures updates == old(updates) + [(id, patch)] && queries == old(queries) && lookups == old(lookups)
    {
      updates := updates + [(id, patch)];
    }

    /** `get_transaction(id)`; `answer` is the transaction the service returns
        or the failure it raises. */
    method GetTransaction(id: int, answer: Result<Tx, Error>) returns (r: Result<Tx, Error>)
      modifies this
      ensures lookups == old(lookups) + [id] && queries == old(queries) && updates == old(updates)
      ensures r == answer
    {
      lookups := lookups + [id];
      r := answer;
    }
  }
}
