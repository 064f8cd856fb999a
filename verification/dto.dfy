/** The request bodies and query parameters the handlers accept, their
    declared constraints in field order, and what validating them means. */
module Dto {
  import opened Base
  import opened Validation
  import Text

  datatype IncreaseBalanceRequest = IncreaseBalanceRequest(
    userId: Option<string>,
    sum: Option<real>,
    comment: Option<string>)

  datatype SaveTransactionRequest = SaveTransactionRequest(
    userId: Option<string>,
    orderId: Option<string>,
    serviceId: Option<string>,
    sum: Option<real>,
    transactionTypeId: Option<int>,
    comment: Option<string>)

  datatype GetTransactionsRequest = GetTransactionsRequest(
    userId: Option<string>,
    page: Option<int>,
    itemsPerPage: Option<int>,
    sortBy: Option<string>,
    sortType: Option<string>)

  datatype CreateReportRequest = CreateReportRequest(
    year: Option<int>,
    month: Option<int>)

  function StrField(o: Option<string>): Option<Value>
  {
    match o
    case None => None
    case Some(s) => Some(Str(s))
  }

  function FloatField(o: Option<real>): Option<Value>
  {
    match o
    case None => None
    case Some(f) => Some(Float(f))
  }

  function IntField(o: Option<int>): Option<Value>
  {
    match o
    case None => None
    case Some(i) => Some(Int(i))
  }

  const TransactionTypes: seq<string> := ["1", "2", "3"]
  const SortFields: seq<string> := ["sum", "date"]
  const SortDirections: seq<string> := ["asc", "desc"]
  const Months: seq<string> := ["1", "2", "3", "4", "5", "6", "7", "8", "9", "10", "11", "12"]

  const IncreaseBalanceRules: seq<FieldRule> := [
    FieldRule("UserId", [Required, Uuid]),
    FieldRule("Sum", [Required, Numeric, Gt(0)]),
    FieldRule("Comment", [])]

  const SaveTransactionRules: seq<FieldRule> := [
    FieldRule("UserId", [Required, Uuid]),
    FieldRule("OrderId", [Required, Uuid]),
    FieldRule("ServiceId", [Required, Uuid]),
    FieldRule("Sum", [Required, Numeric, Gt(0)]),
    FieldRule("TransactionTypeId", [Required, Numeric, OneOf(TransactionTypes)]),
    FieldRule("Comment", [])]

  const GetTransactionsRules: seq<FieldRule> := [
    FieldRule("UserId", [Required, Uuid]),
    FieldRule("Page", [Required, Min(1)]),
    FieldRule("ItemsPerPage", [Omitempty, Min(1)]),
    FieldRule("SortBy", [Omitempty, OneOf(SortFields)]),
    FieldRule("SortType", [Omitempty, OneOf(SortDirections)])]

  const CreateReportRules: seq<FieldRule> := [
    FieldRule("Year", [Required, Min(2022), Max(2100)]),
    FieldRule("Month", [Required, OneOf(Months)])]

  function IncreaseBalanceValues(r: IncreaseBalanceRequest): seq<Option<Value>>
  {
    [StrField(r.userId), FloatField(r.sum), StrField(r.comment)]
  }

  function SaveTransactionValues(r: SaveTransactionRequest): seq<Option<Value>>
  {
    [StrField(r.userId), StrField(r.orderId), StrField(r.serviceId),
     FloatField(r.sum), IntField(r.transactionTypeId), StrField(r.comment)]
  }

  function GetTransactionsValues(r: GetTransactionsRequest): seq<Option<Value>>
  {
    [StrField(r.userId), IntField(r.page), IntField(r.itemsPerPage),
     StrField(r.sortBy), StrField(r.sortType)]
  }

  function CreateReportValues(r: CreateReportRequest): seq<Option<Value>>
  {
    [IntField(r.year), IntField(r.month)]
  }

  /** An identifier field that is present and a UUID. */
  predicate IsUuidField(isUuid: string -> bool, o: Option<string>)
  {
    o.Some? && isUuid(o.value)
  }

  // The constraints of each request, stated directly on its fields.

  predicate IncreaseBalanceOk(isUuid: string -> bool, r: IncreaseBalanceRequest)
  {
    IsUuidField(isUuid, r.userId) && r.sum.Some? && r.sum.value > 0.0
  }

  predicate SaveTransactionOk(isUuid: string -> bool, r: SaveTransactionRequest)
  {
    && IsUuidField(isUuid, r.userId)
    && IsUuidField(isUuid, r.orderId)
    && IsUuidField(isUuid, r.serviceId)
    && r.sum.Some? && r.sum.value > 0.0
    && r.transactionTypeId.Some? && 1 <= r.transactionTypeId.value <= 3
  }

  predicate GetTransactionsOk(isUuid: string -> bool, r: GetTransactionsRequest)
  {
    && IsUuidField(isUuid, r.userId)
    && r.page.Some? && r.page.value >= 1
    && (r.itemsPerPage.Some? ==> r.itemsPerPage.value >= 1)
    && (r.sortBy.Some? ==> r.sortBy.value in SortFields)
    && (r.sortType.Some? ==> r.sortType.value in SortDirections)
  }

  predicate CreateReportOk(r: CreateReportRequest)
  {
    && r.year.Some? && 2022 <= r.year.value <= 2100
    && r.month.Some? && 1 <= r.month.value <= 12
  }

  // The message each request must produce: its first violated constraint in
  // field order, or "" when there is none.

  function IncreaseBalanceMessage(isUuid: string -> bool, r: IncreaseBalanceRequest): string
  {
    if r.userId.None? then MissingText("UserId")
    else if !isUuid(r.userId.value) then UuidText("UserId")
    else if r.sum.None? then MissingText("Sum")
    else if r.sum.value <= 0.0 then GtText("Sum", "0")
    else ""
  }

  function SaveTransactionMessage(isUuid: string -> bool, r: SaveTransactionRequest): string
  {
    if r.userId.None? then MissingText("UserId")
    else if !isUuid(r.userId.value) then UuidText("UserId")
    else if r.orderId.None? then MissingText("OrderId")
    else if !isUuid(r.orderId.value) then UuidText("OrderId")
    else if r.serviceId.None? then MissingText("ServiceId")
    else if !isUuid(r.serviceId.value) then UuidText("ServiceId")
    else if r.sum.None? then MissingText("Sum")
    else if r.sum.value <= 0.0 then GtText("Sum", "0")
    else if r.transactionTypeId.None? then MissingText("TransactionTypeId")
    else if !(1 <= r.transactionTypeId.value <= 3) then InText("TransactionTypeId", "1 2 3")
    else ""
  }

  function GetTransactionsMessage(isUuid: string -> bool, r: GetTransactionsRequest): string
  {
    if r.userId.None? then MissingText("UserId")
    else if !isUuid(r.userId.value) then UuidText("UserId")
    else if r.page.None? then MissingText("Page")
    else if r.page.value < 1 then GeText("Page", "1")
    else if r.itemsPerPage.Some? && r.itemsPerPage.value < 1 then GeText("ItemsPerPage", "1")
    else if r.sortBy.Some? && r.sortBy.value !in SortFields then InText("SortBy", "sum date")
    else if r.sortType.Some? && r.sortType.value !in SortDirections then InText("SortType", "asc desc")
    else ""
  }

  /** The month parameter text is the twelve month numbers separated by spaces. */
  function CreateReportMessage(r: CreateReportRequest): string
  {
    if r.year.None? then MissingText("Year")
    else if r.year.value < 2022 then GeText("Year", "2022")
    else if r.year.value > 2100 then LeText("Year", "2100")
    else if r.month.None? then MissingText("Month")
    else if !(1 <= r.month.value <= 12) then InText("Month", Text.Join(Months, " "))
    else ""
  }

  // isValidRequest applied to each request.

  function ValidateIncreaseBalance(isUuid: string -> bool, r: IncreaseBalanceRequest): (v: (bool, string))
  {
    IsValidRequest(StructErrors(isUuid, IncreaseBalanceRules, IncreaseBalanceValues(r)))
  }

  function ValidateSaveTransaction(isUuid: string -> bool, r: SaveTransactionRequest): (v: (bool, string))
  {
    IsValidRequest(StructErrors(isUuid, SaveTransactionRules, SaveTransactionValues(r)))
  }

  function ValidateGetTransactions(isUuid: string -> bool, r: GetTransactionsRequest): (v: (bool, string))
  {
    IsValidRequest(StructErrors(isUuid, GetTransactionsRules, GetTransactionsValues(r)))
  }

  function ValidateCreateReport(isUuid: string -> bool, r: CreateReportRequest): (v: (bool, string))
  {
    IsValidRequest(StructErrors(isUuid, CreateReportRules, CreateReportValues(r)))
  }

  // Per-field errors. Each lemma states the error a field with the given tags
  // reports, in terms of the field's value.

  /** A `required,uuid` field. */
  lemma UuidFieldCheck(isUuid: string -> bool, name: string, o: Option<string>)
    ensures CheckField(isUuid, FieldRule(name, [Required, Uuid]), StrField(o)) ==
      if o.None? then Some(Violation(name, Required, PtrKind))
      else if !isUuid(o.value) then Some(Violation(name, Uuid, StringKind))
      else None
  {
    if o.Some? {
      var tags := [Required, Uuid];
      assert Holds(isUuid, tags[0], Str(o.value));
      if isUuid(o.value) {
        assert Holds(isUuid, tags[1], Str(o.value));
      } else {
        assert FirstFailing(isUuid, tags, Str(o.value)) == Some(1);
      }
    }
  }

  /** A `required,numeric,gt=0` float field. */
  lemma PositiveFieldCheck(isUuid: string -> bool, name: string, o: Option<real>)
    ensures CheckField(isUuid, FieldRule(name, [Required, Numeric, Gt(0)]), FloatField(o)) ==
      if o.None? then Some(Violation(name, Required, PtrKind))
      else if o.value <= 0.0 then Some(Violation(name, Gt(0), Float64Kind))
      else None
  {
    if o.Some? {
      var tags := [Required, Numeric, Gt(0)];
      var v := Float(o.value);
      assert Holds(isUuid, tags[0], v) && Holds(isUuid, tags[1], v);
      if o.value <= 0.0 {
        assert FirstFailing(isUuid, tags, v) == Some(2);
      } else {
        assert Holds(isUuid, tags[2], v);
      }
    }
  }

  lemma TransactionTypesAreDecimals()
    ensures TransactionTypes == Text.Decimals([1, 2, 3])
  {
    var d := Text.Decimals([1, 2, 3]);
    assert d[0] == "1" && d[1] == "2" && d[2] == "3";
  }

  lemma MonthNumbersLow()
    ensures Text.FormatInt(1) == "1" && Text.FormatInt(2) == "2" && Text.FormatInt(3) == "3"
    ensures Text.FormatInt(4) == "4" && Text.FormatInt(5) == "5" && Text.FormatInt(6) == "6"
  {
  }

  lemma MonthNumbersHigh()
    ensures Text.FormatInt(7) == "7" && Text.FormatInt(8) == "8" && Text.FormatInt(9) == "9"
    ensures Text.FormatInt(10) == "10" && Text.FormatInt(11) == "11" && Text.FormatInt(12) == "12"
  {
    assert Text.NatToString(10) == Text.NatToString(1) + [Text.DigitChar(0)];
    assert Text.NatToString(11) == Text.NatToString(1) + [Text.DigitChar(1)];
    assert Text.NatToString(12) == Text.NatToString(1) + [Text.DigitChar(2)];
  }

  lemma MonthsAreDecimals()
    ensures Months == Text.Decimals([1, 2, 3, 4, 5, 6, 7, 8, 9, 10, 11, 12])
  {
    var ns := [1, 2, 3, 4, 5, 6, 7, 8, 9, 10, 11, 12];
    var d := Text.Decimals(ns);
    MonthNumbersLow();
    MonthNumbersHigh();
    assert forall k :: 0 <= k < 12 ==> d[k] == Text.FormatInt(ns[k]) == Months[k];
  }

  /** A `required,numeric,oneof=1 2 3` int field. */
  lemma TransactionTypeFieldCheck(isUuid: string -> bool, name: string, o: Option<int>)
    ensures CheckField(isUuid, FieldRule(name, [Required, Numeric, OneOf(TransactionTypes)]), IntField(o)) ==
      if o.None? then Some(Violation(name, Required, PtrKind))
      else if !(1 <= o.value <= 3) then Some(Violation(name, OneOf(TransactionTypes), IntKind))
      else None
  {
    if o.Some? {
      var tags := [Required, Numeric, OneOf(TransactionTypes)];
      var v := Int(o.value);
      TransactionTypesAreDecimals();
      Text.FormatIntInDecimals(o.value, [1, 2, 3]);
      assert o.value in [1, 2, 3] <==> 1 <= o.value <= 3;
      assert Holds(isUuid, tags[0], v) && Holds(isUuid, tags[1], v);
      if 1 <= o.value <= 3 {
        assert Holds(isUuid, tags[2], v);
      } else {
        assert !Holds(isUuid, tags[2], v);
        assert FirstFailing(isUuid, tags, v) == Some(2);
      }
    }
  }

  /** A `required,min=1` int field. */
  lemma PageFieldCheck(isUuid: string -> bool, name: string, o: Option<int>)
    ensures CheckField(isUuid, FieldRule(name, [Required, Min(1)]), IntField(o)) ==
      if o.None? then Some(Violation(name, Required, PtrKind))
      else if o.value < 1 then Some(Violation(name, Min(1), IntKind))
      else None
  {
    if o.Some? {
      var tags := [Required, Min(1)];
      var v := Int(o.value);
      assert Holds(isUuid, tags[0], v);
      if o.value < 1 {
        assert FirstFailing(isUuid, tags, v) == Some(1);
      } else {
        assert Holds(isUuid, tags[1], v);
      }
    }
  }

  /** An `omitempty,min=1` int field. */
  lemma OptionalMinFieldCheck(isUuid: string -> bool, name: string, o: Option<int>)
    ensures CheckField(isUuid, FieldRule(name, [Omitempty, Min(1)]), IntField(o)) ==
      if o.Some? && o.value < 1 then Some(Violation(name, Min(1), IntKind)) else None
  {
    if o.Some? {
      var tags := [Omitempty, Min(1)];
      var v := Int(o.value);
      assert Holds(isUuid, tags[0], v);
      if o.value < 1 {
        assert FirstFailing(isUuid, tags, v) == Some(1);
      } else {
        assert Holds(isUuid, tags[1], v);
      }
    }
  }

  /** An `omitempty,oneof=...` string field. */
  lemma OptionalOneOfFieldCheck(isUuid: string -> bool, name: string, options: seq<string>, o: Option<string>)
    ensures CheckField(isUuid, FieldRule(name, [Omitempty, OneOf(options)]), StrField(o)) ==
      if o.Some? && o.value !in options then Some(Violation(name, OneOf(options), StringKind)) else None
  {
    if o.Some? {
      var tags := [Omitempty, OneOf(options)];
      var v := Str(o.value);
      assert Holds(isUuid, tags[0], v);
      if o.value !in options {
        assert FirstFailing(isUuid, tags, v) == Some(1);
      } else {
        assert Holds(isUuid, tags[1], v);
      }
    }
  }

  /** The `required,min=2022,max=2100` year field. */
  lemma YearFieldCheck(isUuid: string -> bool, o: Option<int>)
    ensures CheckField(isUuid, FieldRule("Year", [Required, Min(2022), Max(2100)]), IntField(o)) ==
      if o.None? then Some(Violation("Year", Required, PtrKind))
      else if o.value < 2022 then Some(Violation("Year", Min(2022), IntKind))
      else if o.value > 2100 then Some(Violation("Year", Max(2100), IntKind))
      else None
  {
    if o.Some? {
      var tags := [Required, Min(2022), Max(2100)];
      var v := Int(o.value);
      assert Holds(isUuid, tags[0], v);
      if o.value < 2022 {
        assert FirstFailing(isUuid, tags, v) == Some(1);
      } else if o.value > 2100 {
        assert Holds(isUuid, tags[1], v);
        assert FirstFailing(isUuid, tags, v) == Some(2);
      } else {
        assert Holds(isUuid, tags[1], v) && Holds(isUuid, tags[2], v);
      }
    }
  }

  /** The `required,oneof=1 ... 12` month field. */
  lemma MonthFieldCheck(isUuid: string -> bool, o: Option<int>)
    ensures CheckField(isUuid, FieldRule("Month", [Required, OneOf(Months)]), IntField(o)) ==
      if o.None? then Some(Violation("Month", Required, PtrKind))
      else if !(1 <= o.value <= 12) then Some(Violation("Month", OneOf(Months), IntKind))
      else None
  {
    if o.Some? {
      var tags := [Required, OneOf(Months)];
      var v := Int(o.value);
      MonthsAreDecimals();
      Text.FormatIntInDecimals(o.value, [1, 2, 3, 4, 5, 6, 7, 8, 9, 10, 11, 12]);
      assert o.value in [1, 2, 3, 4, 5, 6, 7, 8, 9, 10, 11, 12] <==> 1 <= o.value <= 12;
      assert Holds(isUuid, tags[0], v);
      if 1 <= o.value <= 12 {
        assert Holds(isUuid, tags[1], v);
      } else {
        assert FirstFailing(isUuid, tags, v) == Some(1);
      }
    }
  }

  // The texts of the messages the requests can produce.

  lemma JoinTransactionTypes()
    ensures Text.Join(TransactionTypes, " ") == "1 2 3"
  {
    var p := TransactionTypes;
    assert p[1..] == ["2", "3"] && p[1..][1..] == ["3"];
    assert Text.Join(["2", "3"], " ") == "2" + " " + "3";
  }

  lemma JoinSortOptions()
    ensures Text.Join(SortFields, " ") == "sum date"
    ensures Text.Join(SortDirections, " ") == "asc desc"
  {
    assert SortFields[1..] == ["date"];
    assert SortDirections[1..] == ["desc"];
  }

  /** The parameter texts of the tags above, as `err.Param()` reports them. */
  lemma Params()
    ensures Param(Gt(0)) == "0" && Param(Min(1)) == "1"
    ensures Param(Min(2022)) == "2022" && Param(Max(2100)) == "2100"
    ensures Param(OneOf(TransactionTypes)) == "1 2 3"
    ensures Param(OneOf(SortFields)) == "sum date" && Param(OneOf(SortDirections)) == "asc desc"
  {
    JoinTransactionTypes();
    JoinSortOptions();
  }

  lemma IncreaseBalanceShape(r: IncreaseBalanceRequest)
    ensures |IncreaseBalanceRules| == |IncreaseBalanceValues(r)| == 3
    ensures IncreaseBalanceRules[0..] == IncreaseBalanceRules && IncreaseBalanceValues(r)[0..] == IncreaseBalanceValues(r)
    ensures IncreaseBalanceRules[0] == FieldRule("UserId", [Required, Uuid]) && IncreaseBalanceValues(r)[0] == StrField(r.userId)
    ensures IncreaseBalanceRules[1] == FieldRule("Sum", [Required, Numeric, Gt(0)]) && IncreaseBalanceValues(r)[1] == FloatField(r.sum)
    ensures IncreaseBalanceRules[2] == FieldRule("Comment", [])
    ensures IncreaseBalanceRules[3..] == [] && IncreaseBalanceValues(r)[3..] == []
  {
  }

  lemma SaveTransactionShape(r: SaveTransactionRequest)
    ensures |SaveTransactionRules| == |SaveTransactionValues(r)| == 6
    ensures SaveTransactionRules[0..] == SaveTransactionRules && SaveTransactionValues(r)[0..] == SaveTransactionValues(r)
    ensures SaveTransactionRules[0] == FieldRule("UserId", [Required, Uuid]) && SaveTransactionValues(r)[0] == StrField(r.userId)
    ensures SaveTransactionRules[1] == FieldRule("OrderId", [Required, Uuid]) && SaveTransactionValues(r)[1] == StrField(r.orderId)
    ensures SaveTransactionRules[2] == FieldRule("ServiceId", [Required, Uuid]) && SaveTransactionValues(r)[2] == StrField(r.serviceId)
    ensures SaveTransactionRules[3] == FieldRule("Sum", [Required, Numeric, Gt(0)]) && SaveTransactionValues(r)[3] == FloatField(r.sum)
    ensures SaveTransactionRules[4] == FieldRule("TransactionTypeId", [Required, Numeric, OneOf(TransactionTypes)])
    ensures SaveTransactionValues(r)[4] == IntField(r.transactionTypeId)
    ensures SaveTransactionRules[5] == FieldRule("Comment", [])
    ensures SaveTransactionRules[6..] == [] && SaveTransactionValues(r)[6..] == []
  {
  }

  lemma GetTransactionsShape(r: GetTransactionsRequest)
    ensures |GetTransactionsRules| == |GetTransactionsValues(r)| == 5
    ensures GetTransactionsRules[0..] == GetTransactionsRules && GetTransactionsValues(r)[0..] == GetTransactionsValues(r)
    ensures GetTransactionsRules[0] == FieldRule("UserId", [Required, Uuid]) && GetTransactionsValues(r)[0] == StrField(r.userId)
    ensures GetTransactionsRules[1] == FieldRule("Page", [Required, Min(1)]) && GetTransactionsValues(r)[1] == IntField(r.page)
    ensures GetTransactionsRules[2] == FieldRule("ItemsPerPage", [Omitempty, Min(1)])
    ensures GetTransactionsValues(r)[2] == IntField(r.itemsPerPage)
    ensures GetTransactionsRules[3] == FieldRule("SortBy", [Omitempty, OneOf(SortFields)]) && GetTransactionsValues(r)[3] == StrField(r.sortBy)
    ensures GetTransactionsRules[4] == FieldRule("SortType", [Omitempty, OneOf(SortDirections)])
    ensures GetTransactionsValues(r)[4] == StrField(r.sortType)
    ensures GetTransactionsRules[5..] == [] && GetTransactionsValues(r)[5..] == []
  {
  }

  lemma CreateReportShape(r: CreateReportRequest)
    ensures |CreateReportRules| == |CreateReportValues(r)| == 2
    ensures CreateReportRules[0..] == CreateReportRules && CreateReportValues(r)[0..] == CreateReportValues(r)
    ensures CreateReportRules[0] == FieldRule("Year", [Required, Min(2022), Max(2100)]) && CreateReportValues(r)[0] == IntField(r.year)
    ensures CreateReportRules[1] == FieldRule("Month", [Required, OneOf(Months)]) && CreateReportValues(r)[1] == IntField(r.month)
    ensures CreateReportRules[2..] == [] && CreateReportValues(r)[2..] == []
  {
  }

  // isValidRequest on each request, stated against its constraints and its
  // expected message.

  /** Validating a balance top-up reports exactly its first violated constraint. */
  lemma ValidateIncreaseBalanceMeaning(isUuid: string -> bool, r: IncreaseBalanceRequest)
    ensures ValidateIncreaseBalance(isUuid, r) == (IncreaseBalanceOk(isUuid, r), IncreaseBalanceMessage(isUuid, r))
  {
    var rs, vs := IncreaseBalanceRules, IncreaseBalanceValues(r);
    IncreaseBalanceShape(r);
    Params();
    ValidateFromField(isUuid, rs, vs, 0);
    UuidFieldCheck(isUuid, "UserId", r.userId);
    if !IsUuidField(isUuid, r.userId) { return; }
    ValidateFromField(isUuid, rs, vs, 1);
    PositiveFieldCheck(isUuid, "Sum", r.sum);
    if !(r.sum.Some? && r.sum.value > 0.0) { return; }
    ValidateFromField(isUuid, rs, vs, 2);
  }

  /** The fields of a transaction request before position `k` all pass. */
  predicate SaveTransactionPassesBefore(isUuid: string -> bool, r: SaveTransactionRequest, k: nat)
  {
    && (k > 0 ==> IsUuidField(isUuid, r.userId))
    && (k > 1 ==> IsUuidField(isUuid, r.orderId))
    && (k > 2 ==> IsUuidField(isUuid, r.serviceId))
    && (k > 3 ==> r.sum.Some? && r.sum.value > 0.0)
    && (k > 4 ==> r.transactionTypeId.Some? && 1 <= r.transactionTypeId.value <= 3)
  }

  /** Field `k` of a transaction request passes exactly when the first
      `k + 1` fields pass, and otherwise gives the expected message. */
  lemma SaveTransactionField(isUuid: string -> bool, r: SaveTransactionRequest, k: nat)
    requires k < 6 && SaveTransactionPassesBefore(isUuid, r, k)
    ensures var e := CheckField(isUuid, SaveTransactionRules[k], SaveTransactionValues(r)[k]);
      && (e.None? <==> SaveTransactionPassesBefore(isUuid, r, k + 1))
      && (e.Some? ==> !SaveTransactionOk(isUuid, r) && Message(e.value) == SaveTransactionMessage(isUuid, r))
  {
    SaveTransactionShape(r);
    if k == 0 {
      UuidFieldCheck(isUuid, "UserId", r.userId);
    } else if k == 1 {
      UuidFieldCheck(isUuid, "OrderId", r.orderId);
    } else if k == 2 {
      UuidFieldCheck(isUuid, "ServiceId", r.serviceId);
    } else if k == 3 {
      PositiveFieldCheck(isUuid, "Sum", r.sum);
      Params();
    } else if k == 4 {
      TransactionTypeFieldCheck(isUuid, "TransactionTypeId", r.transactionTypeId);
      Params();
    }
  }

  lemma {:induction false} ValidateSaveTransactionFrom(isUuid: string -> bool, r: SaveTransactionRequest, k: nat)
    requires k <= 6 && SaveTransactionPassesBefore(isUuid, r, k)
    ensures IsValidRequest(StructErrors(isUuid, SaveTransactionRules[k..], SaveTransactionValues(r)[k..])) ==
      (SaveTransactionOk(isUuid, r), SaveTransactionMessage(isUuid, r))
    decreases 6 - k
  {
    var rs, vs := SaveTransactionRules, SaveTransactionValues(r);
    SaveTransactionShape(r);
    if k < 6 {
      ValidateFromField(isUuid, rs, vs, k);
      SaveTransactionField(isUuid, r, k);
      if CheckField(isUuid, rs[k], vs[k]).None? {
        ValidateSaveTransactionFrom(isUuid, r, k + 1);
      }
    }
  }

  /** Validating a transaction request reports exactly its first violated
      constraint, checking UserId, OrderId, ServiceId, Sum and TransactionTypeId
      in that order. */
  lemma ValidateSaveTransactionMeaning(isUuid: string -> bool, r: SaveTransactionRequest)
    ensures ValidateSaveTransaction(isUuid, r) == (SaveTransactionOk(isUuid, r), SaveTransactionMessage(isUuid, r))
  {
    ValidateSaveTransactionFrom(isUuid, r, 0);
    SaveTransactionShape(r);
  }

  /** The transaction list parameters before position `k` all pass. */
  predicate GetTransactionsPassesBefore(isUuid: string -> bool, r: GetTransactionsRequest, k: nat)
  {
    && (k > 0 ==> IsUuidField(isUuid, r.userId))
    && (k > 1 ==> r.page.Some? && r.page.value >= 1)
    && (k > 2 ==> (r.itemsPerPage.Some? ==> r.itemsPerPage.value >= 1))
    && (k > 3 ==> (r.sortBy.Some? ==> r.sortBy.value in SortFields))
  }

  /** Field `k` of the transaction list parameters passes exactly when the
      first `k + 1` fields pass, and otherwise gives the expected message. */
  lemma GetTransactionsField(isUuid: string -> bool, r: GetTransactionsRequest, k: nat)
    requires k < 5 && GetTransactionsPassesBefore(isUuid, r, k)
    ensures var e := CheckField(isUuid, GetTransactionsRules[k], GetTransactionsValues(r)[k]);
      && (e.None? <==> GetTransactionsPassesBefore(isUuid, r, k + 1) && (k == 4 ==> GetTransactionsOk(isUuid, r)))
      && (e.Some? ==> !GetTransactionsOk(isUuid, r) && Message(e.value) == GetTransactionsMessage(isUuid, r))
  {
    GetTransactionsShape(r);
    Params();
    if k == 0 {
      UuidFieldCheck(isUuid, "UserId", r.userId);
    } else if k == 1 {
      PageFieldCheck(isUuid, "Page", r.page);
    } else if k == 2 {
      OptionalMinFieldCheck(isUuid, "ItemsPerPage", r.itemsPerPage);
    } else if k == 3 {
      OptionalOneOfFieldCheck(isUuid, "SortBy", SortFields, r.sortBy);
    } else {
      OptionalOneOfFieldCheck(isUuid, "SortType", SortDirections, r.sortType);
    }
  }

  lemma {:induction false} ValidateGetTransactionsFrom(isUuid: string -> bool, r: GetTransactionsRequest, k: nat)
    requires k <= 5 && GetTransactionsPassesBefore(isUuid, r, k)
    requires k == 5 ==> GetTransactionsOk(isUuid, r)
    ensures IsValidRequest(StructErrors(isUuid, GetTransactionsRules[k..], GetTransactionsValues(r)[k..])) ==
      (GetTransactionsOk(isUuid, r), GetTransactionsMessage(isUuid, r))
    decreases 5 - k
  {
    var rs, vs := GetTransactionsRules, GetTransactionsValues(r);
    GetTransactionsShape(r);
    if k < 5 {
      ValidateFromField(isUuid, rs, vs, k);
      GetTransactionsField(isUuid, r, k);
      if CheckField(isUuid, rs[k], vs[k]).None? {
        ValidateGetTransactionsFrom(isUuid, r, k + 1);
      }
    }
  }

  /** Validating the transaction list parameters reports exactly their first
      violated constraint. */
  lemma ValidateGetTransactionsMeaning(isUuid: string -> bool, r: GetTransactionsRequest)
    ensures ValidateGetTransactions(isUuid, r) == (GetTransactionsOk(isUuid, r), GetTransactionsMessage(isUuid, r))
  {
    ValidateGetTransactionsFrom(isUuid, r, 0);
    GetTransactionsShape(r);
  }

  /** Validating a report request reports exactly its first violated constraint. */
  lemma ValidateCreateReportMeaning(isUuid: string -> bool, r: CreateReportRequest)
    ensures ValidateCreateReport(isUuid, r) == (CreateReportOk(r), CreateReportMessage(r))
  {
    var rs, vs := CreateReportRules, CreateReportValues(r);
    CreateReportShape(r);
    Params();
    ValidateFromField(isUuid, rs, vs, 0);
    YearFieldCheck(isUuid, r.year);
    if !(r.year.Some? && 2022 <= r.year.value <= 2100) { return; }
    ValidateFromField(isUuid, rs, vs, 1);
    MonthFieldCheck(isUuid, r.month);
  }

  /** Fields are checked in declaration order: a bad userId is what gets
      reported, whatever orderId and the other fields hold. */
  lemma UserIdReportedBeforeOrderId(isUuid: string -> bool, r: SaveTransactionRequest, orderId: Option<string>)
    requires !IsUuidField(isUuid, r.userId)
    ensures ValidateSaveTransaction(isUuid, r) == ValidateSaveTransaction(isUuid, r.(orderId := orderId))
    ensures ValidateSaveTransaction(isUuid, r)
         == (false, if r.userId.None? then MissingText("UserId") else UuidText("UserId"))
  {
    ValidateSaveTransactionMeaning(isUuid, r);
    ValidateSaveTransactionMeaning(isUuid, r.(orderId := orderId));
  }
}
