/** The records the layers hand to each other. */
module Model {
  import opened Base

  /** A balance top-up as the handler hands it to the balance service. */
  datatype IncreaseBalanceTransaction = IncreaseBalanceTransaction(
    userId: string,
    sum: real,
    comment: Option<string>)

  /** A transaction: what the handler hands to the service when saving one,
      and what the repository reads back when listing them.  `updTime` is an
      instant in microseconds (see Calendar.Midnight). */
  datatype Transaction = Transaction(
    userId: string,
    orderId: Option<string>,
    serviceId: Option<string>,
    sum: real,
    transactionTypeId: int,
    transactionType: string,
    comment: Option<string>,
    updTime: int)

  /** The paging and ordering the list handler asks the service for. */
  datatype GetTransactionsRequest = GetTransactionsRequest(
    userId: string,
    offset: int,
    limit: int,
    sortBy: string,
    sortType: string)

  /** One line of the monthly report: a service and its confirmed total. */
  datatype ReportRow = ReportRow(serviceName: string, totalSum: real)
}
