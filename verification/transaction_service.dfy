/** The transaction service: forwarding to the transaction repository. */
module TransactionService {
  import opened Base
  import opened Model
  import Protocol
  import TransactionRepo

  /** SaveTransaction: forwards the transaction's fields to the repository
      (orderId and serviceId must be set) and returns its status, or (0, err). */
  function SaveTransaction(s: Protocol.Store, fault: Option<Fault>, t: Transaction)
    : (r: (Protocol.Store, Ret<int>))
    requires t.orderId.Some? && t.serviceId.Some?
    requires 1 <= t.transactionTypeId <= 3
    ensures var (s', code) := Protocol.Apply(s, Protocol.Key(t.orderId.value, t.userId, t.serviceId.value),
                                             t.sum, Protocol.TypeOf(t.transactionTypeId).value, t.comment);
      && (fault.None? ==> r == (s', Ret(code, None)))
      && (fault.Some? ==> r.1 == Ret(0, Some(fault.value.error)))
      && (fault.Some? ==> r.0 == if fault.value.committed then s' else s)
  {
    var repo := TransactionRepo.SaveTransaction(s, fault, t.orderId.value, t.userId, t.serviceId.value,
                                                t.sum, t.transactionTypeId, t.comment);
    if repo.1.err.Some? then (repo.0, Ret(0, repo.1.err)) else repo
  }

  /** GetTransactions: forwards the request's fields to the repository; the
      list on success, nil and the error on failure. */
  function GetTransactions(db: TransactionRepo.ListQuery -> TransactionRepo.ListOutcome,
                           req: GetTransactionsRequest): (r: Ret<Option<seq<Transaction>>>)
    ensures r.err.Some? ==> r.value.None?
    ensures r == TransactionRepo.GetTransactionListByUserId(db, req.userId, req.offset, req.limit,
                                                            req.sortBy, req.sortType)
  {
    var repo := TransactionRepo.GetTransactionListByUserId(db, req.userId, req.offset, req.limit,
                                                            req.sortBy, req.sortType);
    if repo.err.Some? then Ret(None, repo.err) else repo
  }
}
