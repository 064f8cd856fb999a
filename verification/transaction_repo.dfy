/** The transaction repository: the call of the stored function
    `save_transaction`, and the paged list query with its ORDER BY choice and
    its NULL handling. */
module TransactionRepo {
  import opened Base
  import opened Model
  import Protocol

  /** SaveTransaction: the status the stored function answers, or `(0, err)`
      when the call or the scan of its answer fails.  A failure reported after
      the stored function committed leaves its effect in place.  The stored
      function receives the type code 1, 2 or 3. */
  function SaveTransaction(s: Protocol.Store, fault: Option<Fault>, orderId: string, userId: string,
                           serviceId: string, sum: real, transactionType: int,
                           comment: Option<string>): (r: (Protocol.Store, Ret<int>))
    requires 1 <= transactionType <= 3
    ensures fault.Some? ==> r.1 == Ret(0, Some(fault.value.error))
    ensures fault.Some? && !fault.value.committed ==> r.0 == s
    ensures fault.Some? && fault.value.committed ==>
      r.0 == Protocol.Apply(s, Protocol.Key(orderId, userId, serviceId), sum,
                            Protocol.TypeOf(transactionType).value, comment).0
    ensures fault.None? ==> r.1.err.None? && 1 <= r.1.value <= 10
    ensures fault.None? ==>
      Protocol.Documented(s, Protocol.Key(orderId, userId, serviceId), sum,
                          Protocol.TypeOf(transactionType).value, comment, r.1.value, r.0)
  {
    var key := Protocol.Key(orderId, userId, serviceId);
    var op := Protocol.TypeOf(transactionType).value;
    Protocol.ApplyDocumented(s, key, sum, op, comment);
    var (s', status) := Protocol.Apply(s, key, sum, op, comment);
    if fault.None? then (s', Ret(status, None))
    else if fault.value.committed then (s', Ret(0, Some(fault.value.error)))
    else (s, Ret(0, Some(fault.value.error)))
  }

  /** An ORDER BY choice: a column of the transaction table, and whether DESC
      follows it. */
  datatype Order = Order(column: string, descending: bool)

  const SumColumn: string := "t.sum"
  const DateColumn: string := "t.upd_time"

  /** The ORDER BY clause built from `sortBy` and `sortType`: "sum" and "date"
      pick a column, anything else is the error "invalid sortBy"; DESC is
      added for "desc" and for nothing else. */
  function ChooseOrder(sortBy: string, sortType: string): (r: Option<Order>)
    ensures r.Some? <==> sortBy == "sum" || sortBy == "date"
    ensures r.Some? ==> (r.value.column == SumColumn <==> sortBy == "sum")
    ensures r.Some? ==> (r.value.column == DateColumn <==> sortBy == "date")
    ensures r.Some? ==> (r.value.descending <==> sortType == "desc")
  {
    var column :=
      if sortBy == "sum" then Some(SumColumn)
      else if sortBy == "date" then Some(DateColumn)
      else None;
    if column.None? then None else Some(Order(column.value, sortType == "desc"))
  }

  /** The request parameters an ORDER BY choice stands for. */
  function SortParams(o: Order): (string, string)
  {
    (if o.column == SumColumn then "sum" else "date", if o.descending then "desc" else "asc")
  }

  /** Every accepted pair of parameters gives its own ORDER BY clause. */
  lemma ChooseOrderRoundTrip(sortBy: string, sortType: string)
    requires sortBy == "sum" || sortBy == "date"
    requires sortType == "asc" || sortType == "desc"
    ensures ChooseOrder(sortBy, sortType).Some?
    ensures SortParams(ChooseOrder(sortBy, sortType).value) == (sortBy, sortType)
  {
  }

  /** Any sortType other than "desc" sorts ascending, exactly like "asc". */
  lemma AnyOtherSortTypeIsAscending(sortBy: string, sortType: string)
    requires sortType != "desc"
    ensures ChooseOrder(sortBy, sortType) == ChooseOrder(sortBy, "asc")
  {
  }

  /** One row of the list query, every column as the database may deliver it
      (None is NULL). */
  datatype RawRow = RawRow(
    orderId: Option<string>,
    serviceId: Option<string>,
    sum: Option<real>,
    transactionType: Option<string>,
    comment: Option<string>,
    updTime: Option<int>)

  /** The error rows.Scan reports for a row: columns are scanned left to
      right, and NULL fails in the three columns scanned into non-pointer
      destinations (sum, transaction_type, upd_time). */
  function ScanError(raw: RawRow): (e: Option<Error>)
    ensures e.None? <==> raw.sum.Some? && raw.transactionType.Some? && raw.updTime.Some?
  {
    if raw.sum.None? then Some(ScanNull("sum"))
    else if raw.transactionType.None? then Some(ScanNull("transaction_type"))
    else if raw.updTime.None? then Some(ScanNull("upd_time"))
    else None
  }

  /** The transaction a row scans into.  The nullable columns order_id,
      service_id and comment carry over as they are (NULL stays nil); the user
      id and type id are not selected and keep their zero values. */
  function FromRow(raw: RawRow): (tr: Transaction)
    requires ScanError(raw).None?
    ensures tr.userId == "" && tr.transactionTypeId == 0
    ensures RowOf(tr) == raw
  {
    Transaction("", raw.orderId, raw.serviceId, raw.sum.value, 0,
                raw.transactionType.value, raw.comment, raw.updTime.value)
  }

  /** The row the list query selects for a transaction: the inverse of
      FromRow on the columns it reads. */
  function RowOf(tr: Transaction): (raw: RawRow)
    ensures ScanError(raw).None?
  {
    RawRow(tr.orderId, tr.serviceId, Some(tr.sum), Some(tr.transactionType), tr.comment, Some(tr.updTime))
  }

  /** Scanning loses nothing the query selects: a transaction read back from
      its row differs from it only in the two fields the query does not
      select. */
  lemma FromRowOfRow(tr: Transaction)
    ensures FromRow(RowOf(tr)) == tr.(userId := "", transactionTypeId := 0)
  {
  }

  /** Reading the result rows in order: the first row that fails to scan
      aborts with a nil list; otherwise every row, in query order. */
  function ScanRows(rows: seq<RawRow>): (r: Ret<Option<seq<Transaction>>>)
    ensures r.err.Some? <==> exists i :: 0 <= i < |rows| && ScanError(rows[i]).Some?
    ensures r.err.Some? ==> r.value.None?
    ensures r.err.Some? ==>
      exists i :: 0 <= i < |rows| && r.err == ScanError(rows[i])
        && forall j :: 0 <= j < i ==> ScanError(rows[j]).None?
    ensures r.err.None? ==> r.value.Some? && |r.value.value| == |rows|
    ensures r.err.None? ==> forall i :: 0 <= i < |rows| ==> r.value.value[i] == FromRow(rows[i])
    decreases |rows|
  {
    if |rows| == 0 then Ret(Some([]), None)
    else if ScanError(rows[0]).Some? then Ret(None, ScanError(rows[0]))
    else
      var rest := ScanRows(rows[1..]);
      if rest.err.Some? then
        assert forall i :: 1 <= i < |rows| ==> rows[i] == rows[1..][i - 1];
        rest
      else
        Ret(Some([FromRow(rows[0])] + rest.value.value), None)
  }

  /** The list query the repository issues: the user, the ORDER BY choice and
      the OFFSET and LIMIT values. */
  datatype ListQuery = ListQuery(userId: string, order: Order, offset: int, limit: int)

  /** What the database answers to a list query. */
  datatype ListOutcome = ListFailed(e: Error) | ListRows(rows: seq<RawRow>)

  /** GetTransactionListByUserId: an unknown sortBy is refused before `db` is
      asked anything; a failing query gives (nil, err); otherwise the rows are
      scanned in order. */
  function GetTransactionListByUserId(db: ListQuery -> ListOutcome, userId: string, offset: int,
                                      limit: int, sortBy: string, sortType: string)
    : (r: Ret<Option<seq<Transaction>>>)
    ensures ChooseOrder(sortBy, sortType).None? ==> r == Ret(None, Some(InvalidSortBy))
    ensures r.err.None? ==> r.value.Some?
    ensures r.err.Some? ==> r.value.None?
    ensures ChooseOrder(sortBy, sortType).Some? ==>
      var q := ListQuery(userId, ChooseOrder(sortBy, sortType).value, offset, limit);
      (db(q).ListFailed? ==> r == Ret(None, Some(db(q).e)))
      && (db(q).ListRows? ==> r == ScanRows(db(q).rows))
  {
    var order := ChooseOrder(sortBy, sortType);
    if order.None? then Ret(None, Some(InvalidSortBy))
    else
      match db(ListQuery(userId, order.value, offset, limit))
      case ListFailed(e) => Ret(None, Some(e))
      case ListRows(rows) => ScanRows(rows)
  }

  /** An unknown sortBy never reaches the database: the answer is the same
      whatever the database would have said. */
  lemma InvalidSortByIssuesNoQuery(db1: ListQuery -> ListOutcome, db2: ListQuery -> ListOutcome,
                                   userId: string, offset: int, limit: int,
                                   sortBy: string, sortType: string)
    requires sortBy != "sum" && sortBy != "date"
    ensures GetTransactionListByUserId(db1, userId, offset, limit, sortBy, sortType)
         == GetTransactionListByUserId(db2, userId, offset, limit, sortBy, sortType)
         == Ret(None, Some(InvalidSortBy))
  {
  }

  /** A NULL order_id, service_id or comment reaches the listing as nil and a
      present one as its value; sum, type label and time are copied. */
  lemma NullableColumnsCarryOver(rows: seq<RawRow>, i: int)
    requires 0 <= i < |rows|
    requires ScanRows(rows).err.None?
    ensures var tr := ScanRows(rows).value.value[i];
      (tr.orderId.None? <==> rows[i].orderId.None?)
      && (tr.serviceId.None? <==> rows[i].serviceId.None?)
      && (tr.comment.None? <==> rows[i].comment.None?)
      && (rows[i].orderId.Some? ==> tr.orderId.value == rows[i].orderId.value)
      && (rows[i].serviceId.Some? ==> tr.serviceId.value == rows[i].serviceId.value)
      && (rows[i].comment.Some? ==> tr.comment.value == rows[i].comment.value)
      && Some(tr.sum) == rows[i].sum
      && Some(tr.transactionType) == rows[i].transactionType
      && Some(tr.updTime) == rows[i].updTime
  {
  }
}
