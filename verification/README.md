# balance_service in Dafny

A model of the application layer of the balance/ledger service. It covers:

- how requests are validated, and how the first violated constraint becomes
  a single message;
- how the transaction list is paged and ordered;
- the transaction outcome protocol, with its status codes 1..10;
- how the monthly report window is built and aggregated;
- how balance lookups map their errors.

The stored functions `save_transaction` and `add_balance` are not visible. They are
modelled by an abstract state machine (`Protocol`) built from the status-code contract
that the `/transaction` handler documents.

Modules, one per layer of the program:

| module | file | models |
|---|---|---|
| `Base` | base.dfy | nil/NULL as `Option`, Go `(value, error)` as `Ret`, the errors |
| `Text` | text.dfy | `strconv.Atoi`, `strconv.FormatInt`, `strings.Join`, int64 wrap-around |
| `Validation` | validation.dfy | the go-playground rules the requests use, and `isValidRequest` |
| `Dto` | dto.dfy | the four request structs, their tags in field order, and what validating each one answers |
| `Model` | model.dfy | the records passed between layers |
| `Protocol` | protocol.dfy | the per-(orderId, userId, serviceId) state machine and balances |
| `Calendar` | calendar.dfy | `time.Date` normalisation and `AddDate(0, 1, 0)` |
| `BalanceRepo`, `TransactionRepo`, `ReportRepo` | balance_repo.dfy, transaction_repo.dfy, report_repo.dfy | the repositories |
| `BalanceService`, `TransactionService` | balance_service.dfy, transaction_service.dfy | the services |
| `ReportPeriod` | report_period.dfy | the report start date the handler builds, and what its window covers |
| `HttpServer` | server.dfy | the handlers |

How the outside world appears in the model:

- A database call is a parameter. It is either the store (`Protocol.Store`) plus a
  possible `fault`, or a function from the query to its outcome.
- The UUID check is a parameter `isUuid`.
- Money is `real`. Instants are integers counting microseconds from 0000-01-01 UTC.

Validation messages use the Go struct field names (`UserId`, `Sum`, …). The server
builds its validator with `validator.New()` and registers no tag-name function.

## Model

| member | source | states |
|---|---|---|
| Validation.FirstFailing | internal/server/http_server.go:280 | The first tag of a field that rejects the value: every earlier tag holds, and there is none exactly when all tags hold. |
| Validation.CheckField | internal/dto/dto.go:34-39 | A nil field fails on its first tag, with kind Ptr, unless that tag is omitempty or there are no tags. A present field fails exactly when some tag rejects the value. It then reports the first such tag of the field, with the kind of the value. |
| Validation.StructErrors | internal/server/http_server.go:280 | validate.Struct reports at most one error per field. |
| Validation.ErrorsComeFromFields | internal/server/http_server.go:280 | Every error validate.Struct reports is the error of one of the fields. |
| Validation.Message | internal/server/http_server.go:282-312 | Every error gets a non-empty message. A tag and kind pair outside the switch gets "internal server error". |
| Validation.IsValidRequest | internal/server/http_server.go:276-320 | The request is valid exactly when validation reported no error. Otherwise the message is the first error's. |
| Validation.StructErrorsFirst | internal/server/http_server.go:280-281 | Struct validation reports nothing exactly when every field passes. Otherwise its first error is that of the first failing field in declaration order. |
| Validation.ValidateFieldByField | internal/server/http_server.go:280-316 | isValidRequest answers with the first failing field's message, or else with whatever the remaining fields give. |
| Validation.ValidIffNoErrors | internal/server/http_server.go:276-280 | Valid with an empty message exactly when there are no errors; invalid always carries a non-empty message. |
| Validation.OnlyFirstErrorCounts | internal/server/http_server.go:281-316 | Only the first error decides the answer; whatever follows it is ignored. |
| Validation.MessageInternalIffInexpressible | internal/server/http_server.go:282-312 | The message is "internal server error" exactly when the pair of tag and kind has no field message: gt on a non-Float64, min/max on a non-Int, or any other tag. Otherwise the message starts with "field F". |
| Dto.ValidateIncreaseBalanceMeaning | internal/dto/dto.go:11-15 | Validating a top-up accepts exactly a UUID userId and a sum > 0, and otherwise reports the first violated constraint: missing, not a UUID, or "should be > 0". |
| Dto.ValidateSaveTransactionMeaning | internal/dto/dto.go:21-28 | userId, orderId and serviceId must be present UUIDs, sum > 0 and the type in {1, 2, 3}. Otherwise the first violation in field order is reported, with "should be in [1 2 3]" for the type. |
| Dto.ValidateGetTransactionsMeaning | internal/dto/dto.go:34-40 | The list request needs a UUID userId and page >= 1. itemsPerPage >= 1, sortBy in {sum, date} and sortType in {asc, desc} apply only when present. The first violation gives the message. |
| Dto.ValidateCreateReportMeaning | internal/dto/dto.go:57-60 | A report request needs year in [2022, 2100] and month in 1..12. Otherwise it gets the >=, <= or "should be in [1 … 12]" message. |
| Dto.UserIdReportedBeforeOrderId | internal/dto/dto.go:22-23 | With a bad userId, that error is what gets reported, whatever orderId holds. |
| Dto.TransactionTypeFieldCheck | internal/dto/dto.go:26 | The `required,numeric,oneof=1 2 3` int field fails exactly when it is absent or outside {1, 2, 3}, with required or oneof as the failing tag. |
| Dto.MonthFieldCheck | internal/dto/dto.go:59 | The month field fails exactly when it is absent or outside 1..12. |
| Text.Atoi | internal/server/http_server.go:173-182 | strconv.Atoi accepts only texts that have at least one character and whose value fits an int64. |
| Text.AtoiFormatInt | internal/server/http_server.go:173 | Atoi reads back every int64 that FormatInt renders. |
| Text.FormatIntInDecimals | internal/dto/dto.go:26 | An integer's decimal text is among the decimal texts of a list exactly when the integer is in the list. This is how oneof on an int compares. |
| Text.Wrap64 | internal/server/http_server.go:214 | Go int arithmetic: the result lies in the int64 range, is congruent to the exact value modulo 2^64, and equals it whenever it fits. |
| Protocol.TypeOf | internal/server/http_server.go:126 | Only the codes 1, 2 and 3 name a transaction type (reserve, confirm, cancel), and the mapping inverts TypeCode. |
| Protocol.Apply | internal/server/http_server.go:130 | save_transaction answers a code in 1..10, and every answer other than 1 leaves the store as it was. |
| Protocol.ApplyDocumented | internal/server/http_server.go:130 | Every save_transaction answer fits the table read literally (`Table`): 10 with no balance row; 1/2/3 for reserve, 1/4/5/6 for confirm and 1/7/8/9 for cancel, each with its documented effect. It is also the answer `Documented` picks, which fixes the two open choices listed under "Left out". |
| Protocol.DocumentedWithinTable | internal/server/http_server.go:130 | `Documented` answers are table answers. A table answer that `Documented` does not give is one of the two open choices: a code other than 10 for a user without a balance row, or 3 for a reservation on a used key. |
| Protocol.TableLeavesChoices | internal/server/http_server.go:130 | The choices are real: on a used key with too little balance the table allows 2 and 3; for a user without a balance row it allows 10 and 4. |
| Protocol.DocumentedUnique | internal/server/http_server.go:130 | Once the two open choices are fixed as `Documented` fixes them, a request has exactly one answer: the same code and the same resulting store. |
| Protocol.StoreChangesIffApplied | internal/server/http_server.go:130 | The store changes exactly when the code is 1. Codes 2..10 move no funds and add no reservation. |
| Protocol.ReserveSucceedsIff | internal/server/http_server.go:130 | A reservation succeeds exactly when the user has a balance row, the key is unused and the balance covers the sum. |
| Protocol.FinaliseSucceedsIff | internal/server/http_server.go:130 | Confirm and cancel succeed exactly on a key that is reserved. |
| Protocol.TerminalStatesStay | internal/server/http_server.go:130 | A confirmed or cancelled transaction is never changed again. |
| Protocol.OnlyOwnRowsChange | internal/server/http_server.go:130 | A request touches only its own key and its own user's balance. |
| Protocol.ApplyKeepsConsistent | internal/server/http_server.go:130 | With a positive sum, no balance goes negative and every transaction keeps a balance row and a positive amount. |
| Protocol.ReserveThenCancel | internal/server/http_server.go:130 | Reserving and then cancelling restores every balance exactly and leaves the key cancelled. |
| Protocol.ReserveThenConfirm | internal/server/http_server.go:130 | After reserve and confirm the sum stays debited, a second confirm gets 5 and a cancel gets 9. |
| Protocol.Credit | internal/storage/repo/balance.go:19-28 | add_balance credits the user, creating the row at 0 when absent, and changes nothing else. |
| BalanceRepo.GetBalanceByUserId | internal/storage/repo/balance.go:30-44 | No row gives (nil, nil) and is not an error. Any other failure gives (nil, err). A row gives its balance, and a NULL balance is nil. |
| BalanceRepo.GetBalanceOfStore | internal/storage/repo/balance.go:30-44 | Against the store, a balance is found exactly when the user has a balance row, and it is that row's balance. |
| BalanceRepo.AddBalance | internal/storage/repo/balance.go:19-28 | Executes add_balance(userId, sum, comment) with the caller's three values, and returns only that call's error. The user is credited when the call took effect: it succeeded, or it failed after committing. A failure before the commit leaves the store as it was. |
| TransactionRepo.SaveTransaction | internal/storage/repo/transaction.go:21-40 | Without a fault, the stored function's status is returned as it is and fits the documented table. Any failure gives (0, err). A failure after the commit keeps the stored function's effect; one before it leaves the store as it was. |
| TransactionRepo.ChooseOrder | internal/storage/repo/transaction.go:43-56 | "sum" orders by t.sum and "date" by t.upd_time; anything else is no order. DESC is added exactly when sortType is "desc". |
| TransactionRepo.ChooseOrderRoundTrip | internal/storage/repo/transaction.go:43-56 | Each accepted (sortBy, sortType) pair gives its own ORDER BY choice, which maps back to the pair. |
| TransactionRepo.AnyOtherSortTypeIsAscending | internal/storage/repo/transaction.go:54-56 | Every sortType other than "desc" sorts like "asc". |
| TransactionRepo.ScanError | internal/storage/repo/transaction.go:82-86 | A row fails to scan exactly when sum, type or upd_time is NULL. |
| TransactionRepo.FromRow | internal/storage/repo/transaction.go:88-104 | A scanned row becomes a transaction without losing a selected column: the row can be rebuilt from the transaction (`RowOf`). The unselected user id and type id keep their zero values "" and 0. |
| TransactionRepo.FromRowOfRow | internal/storage/repo/transaction.go:88-104 | Reading back the row of a transaction gives the transaction, except for the two fields the query does not select. |
| TransactionRepo.ScanRows | internal/storage/repo/transaction.go:75-109 | The first row that fails to scan aborts with a nil list and that row's error. Otherwise every row is returned, in query order. |
| TransactionRepo.GetTransactionListByUserId | internal/storage/repo/transaction.go:42-110 | An unknown sortBy gives "invalid sortBy". A failing query gives (nil, err). Otherwise the database's rows are scanned. |
| TransactionRepo.InvalidSortByIssuesNoQuery | internal/storage/repo/transaction.go:50-51 | An unknown sortBy gets the same answer whatever the database would say, so no query is issued. |
| TransactionRepo.NullableColumnsCarryOver | internal/storage/repo/transaction.go:88-104 | A NULL order_id, service_id or comment becomes nil and a present one its value. Sum, type label and time are copied. |
| ReportRepo.Window | internal/storage/repo/report.go:27 | The window starts at dateFrom's midnight and ends exactly one month length later, which is the midnight of dateFrom.AddDate(0, 1, 0). |
| ReportRepo.GroupTotals | internal/storage/repo/report.go:21-25 | There is one group per distinct service id among the confirmed rows in the window, and its total is the sum of their amounts. |
| ReportRepo.ScanGroups | internal/storage/repo/report.go:35-47 | Scanning fails exactly when a group has a NULL service id. Otherwise there is one row per group, in order. |
| ReportRepo.GetReportRows | internal/storage/repo/report.go:19-48 | A failing query gives (nil, err) and a NULL service id the scan error. Otherwise the row names are exactly the services with a confirmed transaction in the window, each listed once with its total. |
| Calendar.MakeDate | internal/server/http_server.go:265 | time.Date always yields a real date. |
| Calendar.AddMonths | internal/storage/repo/report.go:27 | AddDate(0, n, 0) yields a real date. It lies day - 1 days after the first of the month n months on, and overflows into the following month when that month is too short. |
| Calendar.MakeDateDayNumber | internal/server/http_server.go:265 | time.Date(y, m, d) lies d - 1 days after the first of the normalised month, for any d. Day 0 is therefore the last day of the month before. |
| Calendar.AddMonthLength | internal/storage/repo/report.go:27 | AddDate(0, 1, 0) moves a date on by the length of its month. |
| Calendar.MonthSpan | internal/storage/repo/report.go:24 | The day numbers from the first of a month up to, but not including, the first of the next are exactly the days of that month. |
| ReportPeriod.ReportDateAsWritten | internal/server/http_server.go:265 | The report start the handler builds is a real date one day before the first of the requested month. |
| ReportPeriod.AsWrittenWindowStartsDayEarly | internal/server/http_server.go:265 | The handler's window starts a full day before the requested month. |
| ReportPeriod.AsWrittenMarch2022 | internal/server/http_server.go:265 | For March 2022 the window is [28 Feb, 28 Mar): it includes 28 February and excludes 30 March. |
| ReportPeriod.MonthStartWindowIsMonth | internal/storage/repo/report.go:24-27 | Started from the first of the month, an instant is in the window exactly when its date is in the requested year and month. |
| BalanceService.GetBalanceByUserID | internal/service/balance.go:42-58 | A repository error comes back as (0, err), a nil balance as BalanceNotFoundErr, and a balance as itself. |
| BalanceService.GetBalanceFromStore | internal/service/balance.go:42-58 | Through the repository, the lookup succeeds exactly when a balance row exists, and "not found" is then the only error. |
| BalanceService.NullBalanceIsNotFound | internal/service/balance.go:53-55 | A NULL balance is answered like a missing row: BalanceNotFoundErr. |
| BalanceService.AddBalance | internal/service/balance.go:30-40 | Hands the transaction's user, sum and comment to the repository. It succeeds exactly when the repository does, and returns its error unchanged. |
| BalanceService.TopUpThenLookup | internal/service/balance.go:30-58 | After a successful top-up, the lookup returns the previous balance (0 for a new user) plus the sum. |
| TransactionService.SaveTransaction | internal/service/transaction.go:25-37 | Forwards orderId, userId, serviceId, sum, type and comment; orderId and serviceId must be non-nil. Returns the status unchanged, or (0, err), and keeps the repository's effect on the store. |
| TransactionService.GetTransactions | internal/service/transaction.go:39-51 | Forwards userId, offset, limit, sortBy and sortType. Returns the list, or nil with the error. |
| HttpServer.HandleIncreaseBalance | internal/server/http_server.go:63-87 | Undecodable body: 400 "invalid request body". Invalid request: 400 with its validation message. Failing service: 500, with the credit in place if the call had committed. Otherwise an empty 200, and the user is credited. |
| HttpServer.HandleGetBalance | internal/server/http_server.go:100-121 | A userId that is not a UUID: 400. No balance (or NULL): 404 "balance not found". Other failures: 500. Otherwise 200 with the balance. |
| HttpServer.GetBalanceOfStore | internal/server/http_server.go:100-121 | On the store, the response is 200 exactly when a balance row exists, and 404 otherwise. |
| HttpServer.TopUpThenGetBalance | internal/server/http_server.go:63-121 | A valid top-up answers 200, and the next lookup shows the old balance plus the sum. |
| HttpServer.HandleTransaction | internal/server/http_server.go:132-161 | A valid request is applied and answered 200 with the protocol's code unchanged. A failed call gives 500; the request's effect stays exactly when the call had committed. Invalid input gives 400. |
| HttpServer.TransactionStatusIsDocumented | internal/server/http_server.go:156-160 | The status a client receives is the one the documented table prescribes for the request. |
| HttpServer.HandleTransactionKeepsConsistent | internal/server/http_server.go:132-161 | Handling any request keeps a consistent store consistent. |
| HttpServer.ReadQuery | internal/server/http_server.go:166-196 | Fails exactly when page or itemsPerPage is present and not an integer, and page is checked first. |
| HttpServer.ReadQueryOfQuery | internal/server/http_server.go:166-196 | Reading back the query string of a request (numbers within int64) gives the request. |
| HttpServer.OffsetAsWritten | internal/server/http_server.go:214 | The handler's offset is an int64 that agrees with the exact (page - 1) × limit modulo 2^64. |
| HttpServer.ToServiceRequest | internal/server/http_server.go:205-226 | An absent itemsPerPage, sortBy or sortType takes 10, "date" or "desc"; a present one is used as given. Offset is (page - 1) * limit in Go int arithmetic. |
| HttpServer.OffsetOfValidatedRequest | internal/server/http_server.go:214 | For a validated request whose product fits an int64: offset = (page - 1) × limit, offset >= 0 and limit >= 1. |
| HttpServer.ValidatedSortIsKnown | internal/server/http_server.go:216-226 | After validation and defaults, the sort parameters always name a known column, so "invalid sortBy" cannot come back. |
| HttpServer.HandleGetTransactions | internal/server/http_server.go:163-248 | A bad number gives 400 naming the parameter. A failed validation gives 400 with its message. A service error gives 500. Otherwise 200 with the transactions in the service's order. |
| HttpServer.OffsetWrapsAround | internal/server/http_server.go:214 | Page 2^62 + 1 passes validation, yet with limit 4 gets offset 0 and with limit 2 gets a negative offset. |
| HttpServer.OffsetAsWrittenWithoutOverflow | internal/server/http_server.go:214 | When (page - 1) × limit fits an int64, the handler's offset is the exact page offset. |
| HttpServer.PagesPartitionRows | internal/server/http_server.go:214 | With the exact offset, row i is on page p exactly when p = i / limit + 1. |
| HttpServer.HandleCreateReport | internal/server/http_server.go:250-274 | A valid request asks for the report starting at time.Date(year, month, 0). It answers 500 on failure, and otherwise 200 with http://localhost:8000/report/ followed by the request id. |

## Left out

- The bodies of the stored functions `save_transaction` and `add_balance` are not part of this model. They are modelled by `Protocol.Apply` and `Protocol.Credit`, which follow the documented status table. Each call either takes effect as a whole or not at all; a failure reported to the caller may come before or after the commit (`Base.Fault`). Concurrency and isolation between calls are not modelled.
- Two choices the table leaves open (`Protocol.Table`) are fixed in `Protocol.Apply` and `Protocol.Documented`:
  - the no-balance check (10) comes first;
  - a reservation on a used key gets 2 even when the balance is too small.
- Two readings of the table are built into both `Table` and `Documented`. A key in any state, not only an active reservation, counts as "already exists" for code 2. A cancellation returns the amount the reservation holds.
- The comment passed to `add_balance` is not stored by `Protocol.Credit`, since what the stored function does with it is not visible. It is part of the call the repository issues (`BalanceRepo.AddBalanceCall`).
- TransactionRepo.SaveTransaction: requires a type code in 1..3, because the stored function's answer to other codes is not documented. The handler only passes codes that validation accepted.
- internal/service/report.go (directory and file creation, CSV lines of the form `name;total` with `%.6f`, `log.Fatal`) is not modelled. The handler model takes the report service's outcome as a parameter. That service overwrites the repository's error with the result of `MkdirAll` before checking it, so a failed report query is not reported. This is noted only, since the file is outside the model.
- JSON decoding and encoding, `sendJsonResponse`, mux routing, Swagger, logging, request-id middleware and the database pool are left out. A body that does not decode is `None`, and the request id is a parameter.
- The UUID format and the go-playground reflection internals are left out; the UUID check is the parameter `isUuid`. Rules used by none of the four requests are not modelled. oneof on a float field is modelled as failing, whereas the library panics there; no request has such a field.
- float64 arithmetic and formatting are not modelled; sums are `real`.
- The database engine is not modelled: its ordering, OFFSET and LIMIT, and the order of GROUP BY groups. The list query's outcome is a parameter. `ReportRepo.GroupTotals` lists groups in the order their service ids first qualify, which stands for one of the orders the engine may choose.
- ReportRepo.ScanGroups: treats the `sum` column as NOT NULL, so every group total is a number. If the column could be NULL, a group whose sums are all NULL would fail to scan into its total.
- The two row loops in the repositories never check `rows.Err()`, so an error while iterating ends the loop silently. The model treats every row set as complete.
- The report window compares instants at microsecond precision in UTC. Time zones of the `upd_time` column are not modelled.
- The handlers model the code as written: the report start is day 0 and the offset wraps in int64. The corrected definitions in "## Findings" are stated beside them, with their properties proved.
- HttpServer.OffsetOfValidatedRequest: proved only when (page - 1) × limit fits an int64, because the handler's multiplication wraps otherwise (see "## Findings").
- ReportDateAsWritten is a `Date`. The model carries no hours, minutes or nanoseconds, which are all zero in the handler.
- The model of `ReportRow` follows its use in internal/storage/repo/report.go. Its declaration is not part of this model's sources.
- HttpServer.HandleGetTransactions: requires every query key to carry at least one value, as `url.Values` parsed from a request URL always does. `Query().Get` reads the first value.
- HttpServer.HandleGetBalance: `errors.Is(err, BalanceNotFoundErr)` is modelled as equality with `BalanceNotFound`. The service returns that error unwrapped.
- Dto.ValidateCreateReportMeaning: the month message's parameter is written as the twelve month numbers joined by spaces, not spelled out as a literal.

## Findings

| source | as written | input that shows it | evidently intended | confidence | as-written member | corrected member |
|---|---|---|---|---|---|---|
| internal/server/http_server.go:265 | The report start is `time.Date(year, month, 0, …)`, which Go normalises to the last day of the previous month. The window [that day, +1 month) is therefore off by one day or more. | year 2022, month 3: the window is [2022-02-28, 2022-03-28). It includes 28 February and excludes 28–31 March. | The window should be the requested calendar month, [first of the month, first of the next month). | not executed | ReportPeriod.AsWrittenMarch2022 | ReportPeriod.MonthStartWindowIsMonth |
| internal/server/http_server.go:214 | `offset = (page - 1) * limit` is computed in Go's 64-bit int and wraps on overflow. | page = 4611686018427387905 (2^62 + 1), itemsPerPage = 4: offset 0, which returns the first page. With itemsPerPage = 2 the offset is -2^63. | The offset should be the exact (page - 1) × limit, or the request should be refused when the product does not fit. | not executed | HttpServer.OffsetWrapsAround | HttpServer.PagesPartitionRows |
