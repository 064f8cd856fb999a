/** The balance service: error mapping around the balance repository. */
module BalanceService {
  import opened Base
  import opened Model
  import Protocol
  import BalanceRepo

  /** GetBalanceByUserID: a repository error comes back as (0, err); a nil
      balance becomes BalanceNotFoundErr; a balance comes back as it is. */
  function GetBalanceByUserID(repo: Ret<Option<real>>): (r: Ret<real>)
    ensures repo.err.Some? ==> r == Ret(0.0, repo.err)
    ensures repo.err.None? && repo.value.None? ==> r == Ret(0.0, Some(BalanceNotFound))
    ensures repo.err.None? && repo.value.Some? ==> r == Ret(repo.value.value, None)
  {
    if repo.err.Some? then Ret(0.0, repo.err)
    else if repo.value.None? then Ret(0.0, Some(BalanceNotFound))
    else Ret(repo.value.value, None)
  }

  /** Read through the repository from the store, a balance is found exactly
      when the user has a balance row, and BalanceNotFoundErr is the only
      error. */
  lemma GetBalanceFromStore(s: Protocol.Store, userId: string)
    ensures var r := GetBalanceByUserID(BalanceRepo.GetBalanceByUserId(BalanceRepo.Lookup(s, userId)));
      (r.err.None? <==> userId in s.balances)
      && (r.err.Some? ==> r.err == Some(BalanceNotFound))
      && (userId in s.balances ==> r.value == s.balances[userId])
  {
  }

  /** A NULL balance column is reported as not found, like a missing row. */
  lemma NullBalanceIsNotFound()
    ensures GetBalanceByUserID(BalanceRepo.GetBalanceByUserId(BalanceRepo.Row(None)))
         == GetBalanceByUserID(BalanceRepo.GetBalanceByUserId(BalanceRepo.NoRows))
         == Ret(0.0, Some(BalanceNotFound))
  {
  }

  /** AddBalance: hands the transaction's user, sum and comment to the
      repository; succeeds exactly when the repository call does, and returns
      its error unchanged otherwise. */
  function AddBalance(s: Protocol.Store, exec: BalanceRepo.AddBalanceCall -> Option<Fault>,
                      t: IncreaseBalanceTransaction): (r: (Protocol.Store, Option<Error>))
    ensures var f := exec(BalanceRepo.AddBalanceCall(t.userId, t.sum, t.comment));
      && (f.None? ==> r == (Protocol.Credit(s, t.userId, t.sum), None))
      && (f.Some? ==> r.1 == Some(f.value.error))
      && (f.Some? ==> r.0 == if f.value.committed then Protocol.Credit(s, t.userId, t.sum) else s)
  {
    BalanceRepo.AddBalance(s, exec, t.userId, t.sum, t.comment)
  }

  /** A successful top-up is visible to the next balance lookup: the balance
      is the one before (0 for a new user) plus the sum. */
  lemma TopUpThenLookup(s: Protocol.Store, exec: BalanceRepo.AddBalanceCall -> Option<Fault>,
                        t: IncreaseBalanceTransaction)
    requires exec(BalanceRepo.AddBalanceCall(t.userId, t.sum, t.comment)).None?
    ensures var (s', err) := AddBalance(s, exec, t);
      var r := GetBalanceByUserID(BalanceRepo.GetBalanceByUserId(BalanceRepo.Lookup(s', t.userId)));
      err.None? && r.err.None?
      && r.value == (if t.userId in s.balances then s.balances[t.userId] else 0.0) + t.sum
  {
  }
}
