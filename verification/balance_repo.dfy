/** The balance repository: one SELECT on the balance table and one call of
    the stored function `add_balance`. */
module BalanceRepo {
  import opened Base
  import Protocol

  /** What `QueryRow(...).Scan(&balance)` met: no row, a failure, or a row
      whose balance column may be NULL. */
  datatype BalanceQuery = NoRows | QueryFailed(e: Error) | Row(balance: Option<real>)

  /** The answer the balance table gives for `userId` when the query runs. */
  function Lookup(s: Protocol.Store, userId: string): (q: BalanceQuery)
    ensures q.Row? <==> userId in s.balances
    ensures q.Row? ==> q.balance == Some(s.balances[userId])
    ensures q.NoRows? <==> userId !in s.balances
  {
    if userId in s.balances then Row(Some(s.balances[userId])) else NoRows
  }

  /** GetBalanceByUserId: no row is not an error but a nil balance; any other
      failure comes back as the error next to a nil balance. */
  function GetBalanceByUserId(q: BalanceQuery): (r: Ret<Option<real>>)
    ensures r.err.Some? <==> q.QueryFailed?
    ensures q.QueryFailed? ==> r.err == Some(q.e) && r.value.None?
    ensures r.value.Some? <==> q.Row? && q.balance.Some?
    ensures r.value.Some? ==> r.value == q.balance
  {
    match q
    case NoRows => Ret(None, None)
    case QueryFailed(e) => Ret(None, Some(e))
    case Row(balance) => Ret(balance, None)
  }

  /** Against the store, the repository finds the balance exactly when the user
      has a balance row. */
  lemma GetBalanceOfStore(s: Protocol.Store, userId: string)
    ensures var r := GetBalanceByUserId(Lookup(s, userId));
      r.err.None?
      && (r.value.Some? <==> userId in s.balances)
      && (userId in s.balances ==> r.value.value == s.balances[userId])
  {
  }

  /** The statement AddBalance executes: `add_balance(userId, sum, comment)`. */
  datatype AddBalanceCall = AddBalanceCall(userId: string, sum: real, comment: Option<string>)

  /** AddBalance: executes the call; `exec` tells how executing a call goes.
      Only the exec error is returned.  The user is credited when the call
      took effect: it succeeded, or it failed after the stored function
      committed. */
  function AddBalance(s: Protocol.Store, exec: AddBalanceCall -> Option<Fault>, userId: string, sum: real,
                      comment: Option<string>): (r: (Protocol.Store, Option<Error>))
    ensures var f := exec(AddBalanceCall(userId, sum, comment));
      && (r.1.None? <==> f.None?)
      && (f.Some? ==> r.1 == Some(f.value.error))
      && (f.Some? && !f.value.committed ==> r.0 == s)
      && (f.None? || f.value.committed ==>
            && userId in r.0.balances && r.0.txs == s.txs
            && r.0.balances[userId] == (if userId in s.balances then s.balances[userId] else 0.0) + sum
            && r.0 == Protocol.Credit(s, userId, sum))
  {
    var f := exec(AddBalanceCall(userId, sum, comment));
    if f.None? then (Protocol.Credit(s, userId, sum), None)
    else if f.value.committed then (Protocol.Credit(s, userId, sum), Some(f.value.error))
    else (s, Some(f.value.error))
  }
}
