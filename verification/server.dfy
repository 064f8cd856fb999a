/** The HTTP handlers: decoding and validating requests, filling in the
    transaction-list defaults, calling the services and choosing the status
    code and body of the response.  JSON decoding is given as its outcome: a
    body that does not decode arrives as None. */
module HttpServer {
  import opened Base
  import opened Text
  import opened Validation
  import opened Dto
  import Model
  import Protocol
  import Calendar
  import BalanceRepo
  import BalanceService
  import TransactionRepo
  import TransactionService
  import ReportPeriod

  /** dto.Transaction as the list response carries it. */
  datatype TransactionView = TransactionView(
    orderId: Option<string>,
    serviceId: Option<string>,
    transactionType: string,
    sum: real,
    comment: Option<string>,
    updTime: int)

  datatype Body =
    | NoBody
    | ApiError(message: string)
    | StatusBody(status: int)
    | BalanceBody(balance: real)
    | TransactionsBody(transactions: seq<TransactionView>)
    | UrlBody(url: string)

  datatype Response = Response(code: int, body: Body)

  const InvalidBody: string := "invalid request body"
  const ReportBaseUrl: string := "http://localhost:8000/report"

  function BadRequest(message: string): Response { Response(400, ApiError(message)) }

  const ServerError: Response := Response(500, ApiError(InternalServerError))

  // POST /balance

  /** HandleIncreaseBalance: credits the user when the body is a valid
      top-up; an empty 200 on success. */
  function HandleIncreaseBalance(isUuid: string -> bool, s: Protocol.Store,
                                 exec: BalanceRepo.AddBalanceCall -> Option<Fault>,
                                 body: Option<IncreaseBalanceRequest>): (r: (Protocol.Store, Response))
    ensures body.None? ==> r == (s, BadRequest(InvalidBody))
    ensures body.Some? && !IncreaseBalanceOk(isUuid, body.value) ==>
      r == (s, BadRequest(IncreaseBalanceMessage(isUuid, body.value)))
    ensures body.Some? && IncreaseBalanceOk(isUuid, body.value) ==>
      var req := body.value;
      var f := exec(BalanceRepo.AddBalanceCall(req.userId.value, req.sum.value, req.comment));
      var credited := Protocol.Credit(s, req.userId.value, req.sum.value);
      && (f.None? ==> r == (credited, Response(200, NoBody)))
      && (f.Some? ==> r == (if f.value.committed then credited else s, ServerError))
  {
    if body.None? then (s, BadRequest(InvalidBody))
    else
      var req := body.value;
      ValidateIncreaseBalanceMeaning(isUuid, req);
      var (valid, message) := ValidateIncreaseBalance(isUuid, req);
      if !valid then (s, BadRequest(message))
      else
        var t := Model.IncreaseBalanceTransaction(req.userId.value, req.sum.value, req.comment);
        var (s', err) := BalanceService.AddBalance(s, exec, t);
        if err.Some? then (s', ServerError) else (s', Response(200, NoBody))
  }

  // GET /balance/{userId}

  /** HandleGetBalance: 400 for a path parameter that is not a UUID, 404 when
      the user has no balance, 500 for any other failure, else the balance. */
  function HandleGetBalance(isUuid: string -> bool, userId: string, q: BalanceRepo.BalanceQuery)
    : (r: Response)
    ensures !isUuid(userId) ==> r == BadRequest("parameter userId should be uuid")
    ensures isUuid(userId) && (q.NoRows? || q == BalanceRepo.Row(None)) ==>
      r == Response(404, ApiError("balance not found"))
    ensures isUuid(userId) && q.QueryFailed? && q.e != BalanceNotFound ==> r == ServerError
    ensures isUuid(userId) && q.Row? && q.balance.Some? ==> r == Response(200, BalanceBody(q.balance.value))
  {
    if !isUuid(userId) then BadRequest("parameter userId should be uuid")
    else
      var res := BalanceService.GetBalanceByUserID(BalanceRepo.GetBalanceByUserId(q));
      if res.err.Some? then
        if res.err.value == BalanceNotFound then Response(404, ApiError(ErrorText(res.err.value)))
        else ServerError
      else Response(200, BalanceBody(res.value))
  }

  /** Looking up a stored balance: 200 with the balance when the user has a
      balance row, 404 when not. */
  lemma GetBalanceOfStore(isUuid: string -> bool, s: Protocol.Store, userId: string)
    requires isUuid(userId)
    ensures var r := HandleGetBalance(isUuid, userId, BalanceRepo.Lookup(s, userId));
      (r.code == 200 <==> userId in s.balances)
      && (userId in s.balances ==> r.body == BalanceBody(s.balances[userId]))
      && (userId !in s.balances ==> r == Response(404, ApiError("balance not found")))
  {
  }

  /** After a successful top-up, the balance lookup reports the old balance
      (0 for a new user) plus the sum. */
  lemma TopUpThenGetBalance(isUuid: string -> bool, s: Protocol.Store,
                            exec: BalanceRepo.AddBalanceCall -> Option<Fault>, req: IncreaseBalanceRequest)
    requires IncreaseBalanceOk(isUuid, req)
    requires exec(BalanceRepo.AddBalanceCall(req.userId.value, req.sum.value, req.comment)).None?
    ensures var (s', resp) := HandleIncreaseBalance(isUuid, s, exec, Some(req));
      var u := req.userId.value;
      resp.code == 200
      && HandleGetBalance(isUuid, u, BalanceRepo.Lookup(s', u))
         == Response(200, BalanceBody((if u in s.balances then s.balances[u] else 0.0) + req.sum.value))
  {
  }

  // POST /transaction

  /** HandleTransaction: a valid request is applied and the stored function's
      status is returned unchanged with 200; a failed call is a 500. */
  function HandleTransaction(isUuid: string -> bool, s: Protocol.Store, fault: Option<Fault>,
                             body: Option<SaveTransactionRequest>): (r: (Protocol.Store, Response))
    ensures body.None? ==> r == (s, BadRequest(InvalidBody))
    ensures body.Some? && !SaveTransactionOk(isUuid, body.value) ==>
      r == (s, BadRequest(SaveTransactionMessage(isUuid, body.value)))
    ensures body.Some? && SaveTransactionOk(isUuid, body.value) ==>
      var req := body.value;
      var (s', code) := Protocol.Apply(s, Protocol.Key(req.orderId.value, req.userId.value, req.serviceId.value),
                                       req.sum.value, Protocol.TypeOf(req.transactionTypeId.value).value,
                                       req.comment);
      && (fault.None? ==> r == (s', Response(200, StatusBody(code))))
      && (fault.Some? ==> r == (if fault.value.committed then s' else s, ServerError))
  {
    if body.None? then (s, BadRequest(InvalidBody))
    else
      var req := body.value;
      ValidateSaveTransactionMeaning(isUuid, req);
      var (valid, message) := ValidateSaveTransaction(isUuid, req);
      if !valid then (s, BadRequest(message))
      else
        var t := Model.Transaction(req.userId.value, req.orderId, req.serviceId, req.sum.value,
                                   req.transactionTypeId.value, "", req.comment, 0);
        var (s', res) := TransactionService.SaveTransaction(s, fault, t);
        if res.err.Some? then (s', ServerError) else (s', Response(200, StatusBody(res.value)))
  }

  /** The status of a valid transaction request is the one the documented
      protocol prescribes, and it reaches the client unchanged. */
  lemma TransactionStatusIsDocumented(isUuid: string -> bool, s: Protocol.Store, req: SaveTransactionRequest)
    requires SaveTransactionOk(isUuid, req)
    ensures var (s', resp) := HandleTransaction(isUuid, s, None, Some(req));
      resp.code == 200 && resp.body.StatusBody?
      && Protocol.Documented(s, Protocol.Key(req.orderId.value, req.userId.value, req.serviceId.value),
                             req.sum.value, Protocol.TypeOf(req.transactionTypeId.value).value,
                             req.comment, resp.body.status, s')
  {
    var key := Protocol.Key(req.orderId.value, req.userId.value, req.serviceId.value);
    Protocol.ApplyDocumented(s, key, req.sum.value, Protocol.TypeOf(req.transactionTypeId.value).value, req.comment);
  }

  /** A request the validator accepts keeps a consistent store consistent,
      whatever its status. */
  lemma HandleTransactionKeepsConsistent(isUuid: string -> bool, s: Protocol.Store, fault: Option<Fault>,
                                         body: Option<SaveTransactionRequest>)
    requires Protocol.Consistent(s)
    ensures Protocol.Consistent(HandleTransaction(isUuid, s, fault, body).0)
  {
    if body.Some? && SaveTransactionOk(isUuid, body.value) && (fault.None? || fault.value.committed) {
      var req := body.value;
      Protocol.ApplyKeepsConsistent(s, Protocol.Key(req.orderId.value, req.userId.value, req.serviceId.value),
                                    req.sum.value, Protocol.TypeOf(req.transactionTypeId.value).value,
                                    req.comment);
    }
  }

  // GET /transactions

  /** The outcome of reading the query string into the list request. */
  datatype QueryRead = BadParameter(message: string) | Read(request: GetTransactionsRequest)

  /** The first value of a query parameter, if present. */
  function First(query: map<string, seq<string>>, name: string): (v: Option<string>)
    requires forall k :: k in query ==> |query[k]| >= 1
    ensures v.Some? <==> name in query
  {
    if name in query then Some(query[name][0]) else None
  }

  /** Reading the query string: the first value of each parameter; page and
      itemsPerPage must parse as integers, page being checked first. */
  function ReadQuery(query: map<string, seq<string>>): (r: QueryRead)
    requires forall k :: k in query ==> |query[k]| >= 1
    ensures r.BadParameter? <==>
      ("page" in query && Atoi(query["page"][0]).None?)
      || ("itemsPerPage" in query && Atoi(query["itemsPerPage"][0]).None?)
    ensures "page" in query && Atoi(query["page"][0]).None? ==>
      r == BadParameter("parameter page should be integer")
  {
    var page := First(query, "page");
    var items := First(query, "itemsPerPage");
    if page.Some? && Atoi(page.value).None? then BadParameter("parameter page should be integer")
    else if items.Some? && Atoi(items.value).None? then BadParameter("parameter itemsPerPage should be integer")
    else
      Read(GetTransactionsRequest(
        First(query, "userId"),
        if page.Some? then Atoi(page.value) else None,
        if items.Some? then Atoi(items.value) else None,
        First(query, "sortBy"),
        First(query, "sortType")))
  }

  /** The query string a client sends for a list request: one value per
      present parameter, numbers in decimal. */
  function QueryOf(d: GetTransactionsRequest): (query: map<string, seq<string>>)
    ensures forall k :: k in query ==> |query[k]| >= 1
  {
    var m0: map<string, seq<string>> := map[];
    var m1 := if d.userId.Some? then m0["userId" := [d.userId.value]] else m0;
    var m2 := if d.page.Some? then m1["page" := [FormatInt(d.page.value)]] else m1;
    var m3 := if d.itemsPerPage.Some? then m2["itemsPerPage" := [FormatInt(d.itemsPerPage.value)]] else m2;
    var m4 := if d.sortBy.Some? then m3["sortBy" := [d.sortBy.value]] else m3;
    if d.sortType.Some? then m4["sortType" := [d.sortType.value]] else m4
  }

  /** Each parameter of the query string of a request holds that field. */
  lemma QueryOfFields(d: GetTransactionsRequest)
    ensures First(QueryOf(d), "userId") == d.userId
    ensures First(QueryOf(d), "page") == (if d.page.Some? then Some(FormatInt(d.page.value)) else None)
    ensures First(QueryOf(d), "itemsPerPage")
         == (if d.itemsPerPage.Some? then Some(FormatInt(d.itemsPerPage.value)) else None)
    ensures First(QueryOf(d), "sortBy") == d.sortBy
    ensures First(QueryOf(d), "sortType") == d.sortType
  {
  }

  /** Reading back the query string of a request gives the request, for
      numbers within the int64 range. */
  lemma ReadQueryOfQuery(d: GetTransactionsRequest)
    requires d.page.Some? ==> MinInt64 <= d.page.value <= MaxInt64
    requires d.itemsPerPage.Some? ==> MinInt64 <= d.itemsPerPage.value <= MaxInt64
    ensures ReadQuery(QueryOf(d)) == Read(d)
  {
    QueryOfFields(d);
    if d.page.Some? {
      AtoiFormatInt(d.page.value);
    }
    if d.itemsPerPage.Some? {
      AtoiFormatInt(d.itemsPerPage.value);
    }
  }

  const DefaultLimit: int := 10
  const DefaultSortBy: string := "date"
  const DefaultSortType: string := "desc"

  /** The offset as the handler computes it: (page - 1) * limit in Go's
      64-bit int, which wraps around on overflow. */
  function OffsetAsWritten(page: int, limit: int): (offset: int)
    ensures MinInt64 <= offset <= MaxInt64
    ensures (offset - (page - 1) * limit) % TwoTo64 == 0
  {
    var a := Wrap64(page - 1);
    var offset := Wrap64(a * limit);
    OffsetCongruent(page - 1, a, limit, offset);
    offset
  }

  /** Multiplying by `limit` keeps two numbers congruent modulo 2^64. */
  lemma OffsetCongruent(x: int, a: int, limit: int, offset: int)
    requires (a - x) % TwoTo64 == 0
    requires (offset - a * limit) % TwoTo64 == 0
    ensures (offset - x * limit) % TwoTo64 == 0
  {
    var k := (a - x) / TwoTo64;
    var j := (offset - a * limit) / TwoTo64;
    assert a - x == k * TwoTo64;
    assert offset - a * limit == j * TwoTo64;
    assert a * limit - x * limit == (a - x) * limit;
    assert offset - x * limit == (j + k * limit) * TwoTo64;
    MultipleOfTwoTo64(j + k * limit);
  }

  lemma MultipleOfTwoTo64(n: int)
    ensures (n * TwoTo64) % TwoTo64 == 0
  {
  }

  /** The service request built from a validated list request: absent
      parameters take their defaults (10, "date", "desc"). */
  function ToServiceRequest(d: GetTransactionsRequest): (req: Model.GetTransactionsRequest)
    requires d.userId.Some? && d.page.Some?
    ensures req.userId == d.userId.value
    ensures req.limit == (if d.itemsPerPage.Some? then d.itemsPerPage.value else DefaultLimit)
    ensures req.sortBy == (if d.sortBy.Some? then d.sortBy.value else DefaultSortBy)
    ensures req.sortType == (if d.sortType.Some? then d.sortType.value else DefaultSortType)
    ensures req.offset == OffsetAsWritten(d.page.value, req.limit)
  {
    var limit := if d.itemsPerPage.None? then DefaultLimit else d.itemsPerPage.value;
    Model.GetTransactionsRequest(
      d.userId.value,
      OffsetAsWritten(d.page.value, limit),
      limit,
      if d.sortBy.None? then DefaultSortBy else d.sortBy.value,
      if d.sortType.None? then DefaultSortType else d.sortType.value)
  }

  function View(t: Model.Transaction): TransactionView
  {
    TransactionView(t.orderId, t.serviceId, t.transactionType, t.sum, t.comment, t.updTime)
  }

  /** The response list: one entry per transaction, in the service's order. */
  function Views(ts: seq<Model.Transaction>): (vs: seq<TransactionView>)
    ensures |vs| == |ts|
    ensures forall i :: 0 <= i < |ts| ==> vs[i] == View(ts[i])
  {
    seq(|ts|, i requires 0 <= i < |ts| => View(ts[i]))
  }

  /** HandleGetTransactions: a bad number is a 400 naming the parameter, a
      request the validator refuses is a 400 with its message, a failing
      service is a 500, and otherwise the page of transactions. */
  function HandleGetTransactions(isUuid: string -> bool, query: map<string, seq<string>>,
                                 db: TransactionRepo.ListQuery -> TransactionRepo.ListOutcome)
    : (r: Response)
    requires forall k :: k in query ==> |query[k]| >= 1
    ensures ReadQuery(query).BadParameter? ==> r == BadRequest(ReadQuery(query).message)
    ensures ReadQuery(query).Read? && !GetTransactionsOk(isUuid, ReadQuery(query).request) ==>
      r == BadRequest(GetTransactionsMessage(isUuid, ReadQuery(query).request))
    ensures ReadQuery(query).Read? && GetTransactionsOk(isUuid, ReadQuery(query).request) ==>
      var res := TransactionService.GetTransactions(db, ToServiceRequest(ReadQuery(query).request));
      (res.err.Some? ==> r == ServerError)
      && (res.err.None? ==> r == Response(200, TransactionsBody(Views(res.value.value))))
  {
    match ReadQuery(query)
    case BadParameter(message) => BadRequest(message)
    case Read(d) =>
      ValidateGetTransactionsMeaning(isUuid, d);
      var (valid, message) := ValidateGetTransactions(isUuid, d);
      if !valid then BadRequest(message)
      else
        var res := TransactionService.GetTransactions(db, ToServiceRequest(d));
        if res.err.Some? then ServerError
        else Response(200, TransactionsBody(Views(res.value.value)))
  }

  /** A validated list request always names a sort column the repository
      knows, so "invalid sortBy" cannot come back from it. */
  lemma ValidatedSortIsKnown(isUuid: string -> bool, d: GetTransactionsRequest)
    requires GetTransactionsOk(isUuid, d)
    ensures var req := ToServiceRequest(d);
      TransactionRepo.ChooseOrder(req.sortBy, req.sortType).Some?
  {
  }

  /** Without overflow, a validated request's offset is (page - 1) * limit,
      a non-negative multiple of a positive limit. */
  lemma OffsetOfValidatedRequest(isUuid: string -> bool, d: GetTransactionsRequest)
    requires GetTransactionsOk(isUuid, d) && d.page.value <= MaxInt64
    requires (d.page.value - 1) * ToServiceRequest(d).limit <= MaxInt64
    ensures var req := ToServiceRequest(d);
      req.limit >= 1
      && req.offset == (d.page.value - 1) * req.limit
      && req.offset >= 0
  {
    var limit := ToServiceRequest(d).limit;
    var pages := d.page.value - 1;
    assert Wrap64(pages) == pages;
    NonNegativeProduct(pages, limit);
  }

  lemma NonNegativeProduct(a: int, b: int)
    requires a >= 0 && b >= 0
    ensures a * b >= 0
  {
  }

  /** The offset of a page as a number, without a machine width: the rows
      of page `page` start after (page - 1) full pages. */
  function PageOffset(page: int, limit: int): (offset: int)
    requires page >= 1 && limit >= 1
    ensures offset >= 0
  {
    NonNegativeProduct(page - 1, limit);
    (page - 1) * limit
  }

  lemma MultiplyMonotone(a: int, b: int, c: int)
    requires a <= b && c >= 0
    ensures a * c <= b * c
  {
    assert b * c - a * c == (b - a) * c;
    NonNegativeProduct(b - a, c);
  }

  /** The pages partition the rows: row `i` (counted from 0) lies on page
      `page` exactly when page == i / limit + 1. */
  lemma PagesPartitionRows(page: int, limit: int, i: nat)
    requires page >= 1 && limit >= 1
    ensures PageOffset(page, limit) <= i < PageOffset(page, limit) + limit <==> page == i / limit + 1
  {
    var p := page - 1;
    var q := i / limit;
    assert q * limit <= i < q * limit + limit;
    if p < q {
      MultiplyMonotone(p + 1, q, limit);
    } else if q < p {
      MultiplyMonotone(q + 1, p, limit);
    }
  }

  /** Where (page - 1) * limit fits in an int64 the handler's offset is the
      page offset. */
  lemma OffsetAsWrittenWithoutOverflow(page: int, limit: int)
    requires 1 <= page <= MaxInt64 && limit >= 1
    requires PageOffset(page, limit) <= MaxInt64
    ensures OffsetAsWritten(page, limit) == PageOffset(page, limit)
  {
    assert Wrap64(page - 1) == page - 1;
  }

  /** A page number that passes validation but whose offset wraps: page
      2^62 + 1 of 4 rows each is given offset 0, the first page, and with 2
      rows each a negative offset. */
  lemma OffsetWrapsAround()
    ensures var page := 0x4000_0000_0000_0001;
      page <= MaxInt64
      && OffsetAsWritten(page, 4) == 0 && PageOffset(page, 4) == 0x1_0000_0000_0000_0000
      && OffsetAsWritten(page, 2) == MinInt64
  {
    var page := 0x4000_0000_0000_0001;
    assert Wrap64(page - 1) == page - 1;
    assert (page - 1) * 4 == 0x1_0000_0000_0000_0000;
    assert (page - 1) * 2 == 0x8000_0000_0000_0000;
  }

  // POST /report

  /** HandleCreateReport: for a valid year and month, asks the report service
      for the report starting at time.Date(year, month, 0) and answers with the
      report's URL, built from the request id. */
  function HandleCreateReport(isUuid: string -> bool, body: Option<CreateReportRequest>,
                              report: Calendar.Date -> Option<Error>, requestId: string): (r: Response)
    ensures body.None? ==> r == BadRequest(InvalidBody)
    ensures body.Some? && !CreateReportOk(body.value) ==> r == BadRequest(CreateReportMessage(body.value))
    ensures body.Some? && CreateReportOk(body.value) ==>
      var from := ReportPeriod.ReportDateAsWritten(body.value.year.value, body.value.month.value);
      (report(from).Some? ==> r == ServerError)
      && (report(from).None? ==> r == Response(200, UrlBody(ReportBaseUrl + "/" + requestId)))
  {
    if body.None? then BadRequest(InvalidBody)
    else
      var req := body.value;
      ValidateCreateReportMeaning(isUuid, req);
      var (valid, message) := ValidateCreateReport(isUuid, req);
      if !valid then BadRequest(message)
      else
        var from := ReportPeriod.ReportDateAsWritten(req.year.value, req.month.value);
        if report(from).Some? then ServerError
        else Response(200, UrlBody(ReportBaseUrl + "/" + requestId))
  }
}
