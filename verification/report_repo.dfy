/** The report repository: confirmed transactions summed per service over
    the half-open window [dateFrom, dateFrom + 1 month). */
module ReportRepo {
  import opened Base
  import opened Model
  import opened Calendar

  /** Transaction type id 2: a confirmed transaction. */
  const ConfirmedType: int := 2

  /** A row of the transaction table as the report query reads it. */
  datatype TxRecord = TxRecord(serviceId: Option<string>, sum: real, typeId: int, updTime: int)

  /** The instants the query compares upd_time with: dateFrom and
      dateFrom.AddDate(0, 1, 0). */
  function Window(dateFrom: Date): (w: (int, int))
    requires Valid(dateFrom)
    ensures w.0 == Midnight(dateFrom)
    ensures w.1 - w.0 == DaysIn(dateFrom.year, dateFrom.month) * MicrosPerDay
  {
    AddMonthLength(dateFrom);
    (Midnight(dateFrom), Midnight(AddMonths(dateFrom, 1)))
  }

  /** The WHERE clause: confirmed, and updated within the window. */
  predicate Counts(t: TxRecord, w: (int, int))
  {
    t.typeId == ConfirmedType && w.0 <= t.updTime < w.1
  }

  /** SUM(t.sum) of the rows of one service id that the WHERE clause keeps. */
  function Total(table: seq<TxRecord>, serviceId: Option<string>, w: (int, int)): real
    decreases |table|
  {
    if |table| == 0 then 0.0
    else
      var last := table[|table| - 1];
      Total(table[..|table| - 1], serviceId, w)
        + (if Counts(last, w) && last.serviceId == serviceId then last.sum else 0.0)
  }

  /** The service ids GROUP BY produces a group for. */
  function Contributors(table: seq<TxRecord>, w: (int, int)): set<Option<string>>
  {
    set t | t in table && Counts(t, w) :: t.serviceId
  }

  /** One group of the query: a service id (possibly NULL) and its total. */
  datatype Group = Group(serviceId: Option<string>, total: real)

  function Keys(groups: seq<Group>): set<Option<string>>
  {
    set g | g in groups :: g.serviceId
  }

  predicate DistinctKeys(groups: seq<Group>)
  {
    forall i, j :: 0 <= i < j < |groups| ==> groups[i].serviceId != groups[j].serviceId
  }

  /** A service with no qualifying row has nothing to sum. */
  lemma {:induction false} TotalOfNonContributor(table: seq<TxRecord>, serviceId: Option<string>, w: (int, int))
    requires serviceId !in Contributors(table, w)
    ensures Total(table, serviceId, w) == 0.0
    decreases |table|
  {
    if |table| > 0 {
      var init := table[..|table| - 1];
      assert Contributors(init, w) <= Contributors(table, w) by {
        forall t | t in init ensures t in table {
        }
      }
      TotalOfNonContributor(init, serviceId, w);
    }
  }

  /** The index of the group for `serviceId`, or |groups| if there is none. */
  function IndexOf(groups: seq<Group>, serviceId: Option<string>): (j: nat)
    ensures j <= |groups|
    ensures j < |groups| ==> groups[j].serviceId == serviceId
    ensures j == |groups| ==> serviceId !in Keys(groups)
    decreases |groups|
  {
    if |groups| == 0 then 0
    else if groups[0].serviceId == serviceId then 0
    else
      var j := IndexOf(groups[1..], serviceId);
      assert Keys(groups) == {groups[0].serviceId} + Keys(groups[1..]) by {
        assert groups == [groups[0]] + groups[1..];
      }
      1 + j
  }

  /** The query's GROUP BY: one group per distinct service id among the
      qualifying rows, carrying the sum of their amounts.  The groups come out
      in the order their service ids first qualify. */
  method GroupTotals(table: seq<TxRecord>, w: (int, int)) returns (groups: seq<Group>)
    ensures DistinctKeys(groups)
    ensures Keys(groups) == Contributors(table, w)
    ensures forall i :: 0 <= i < |groups| ==> groups[i].total == Total(table, groups[i].serviceId, w)
  {
    groups := [];
    var i := 0;
    while i < |table|
      invariant 0 <= i <= |table|
      invariant DistinctKeys(groups)
      invariant Keys(groups) == Contributors(table[..i], w)
      invariant forall k :: 0 <= k < |groups| ==> groups[k].total == Total(table[..i], groups[k].serviceId, w)
    {
      var t := table[i];
      var prefix := table[..i + 1];
      assert prefix[..i] == table[..i];
      assert Contributors(prefix, w)
          == Contributors(table[..i], w) + (if Counts(t, w) then {t.serviceId} else {}) by {
        assert prefix == table[..i] + [t];
      }
      if Counts(t, w) {
        var j := IndexOf(groups, t.serviceId);
        if j < |groups| {
          var updated := groups[j := Group(t.serviceId, groups[j].total + t.sum)];
          assert Keys(updated) == Keys(groups) by {
            forall n | n in Keys(groups) ensures n in Keys(updated) {
              var k :| 0 <= k < |groups| && groups[k].serviceId == n;
              assert updated[k] in updated;
            }
            forall n | n in Keys(updated) ensures n in Keys(groups) {
              var k :| 0 <= k < |updated| && updated[k].serviceId == n;
              assert groups[k] in groups;
            }
          }
          groups := updated;
        } else {
          TotalOfNonContributor(table[..i], t.serviceId, w);
          assert Keys(groups + [Group(t.serviceId, t.sum)]) == Keys(groups) + {t.serviceId};
          groups := groups + [Group(t.serviceId, t.sum)];
        }
      }
      i := i + 1;
    }
    assert table[..|table|] == table;
  }

  /** Scanning the groups into report rows: a NULL service id cannot be
      scanned into a string, which aborts with a nil list. */
  function ScanGroups(groups: seq<Group>): (r: Ret<Option<seq<ReportRow>>>)
    ensures r.err.Some? <==> None in Keys(groups)
    ensures r.err.Some? ==> r == Ret(None, Some(ScanNull("service_id")))
    ensures r.err.None? ==> r.value.Some? && |r.value.value| == |groups|
    ensures r.err.None? ==> forall i :: 0 <= i < |groups| ==>
      Some(r.value.value[i].serviceName) == groups[i].serviceId
      && r.value.value[i].totalSum == groups[i].total
    decreases |groups|
  {
    if |groups| == 0 then Ret(Some([]), None)
    else
      assert Keys(groups) == {groups[0].serviceId} + Keys(groups[1..]) by {
        assert groups == [groups[0]] + groups[1..];
      }
      if groups[0].serviceId.None? then Ret(None, Some(ScanNull("service_id")))
      else
        var rest := ScanGroups(groups[1..]);
        if rest.err.Some? then rest
        else Ret(Some([ReportRow(groups[0].serviceId.value, groups[0].total)] + rest.value.value), None)
  }

  /** The names a list of report rows covers. */
  function Names(rows: seq<ReportRow>): set<Option<string>>
  {
    set r | r in rows :: Some(r.serviceName)
  }

  /** GetReportRows(dateFrom): when the query fails, (nil, err); when a
      qualifying row has no service id, the scan error; otherwise one row per
      service with a confirmed transaction in the window, carrying that
      service's total. */
  method GetReportRows(table: seq<TxRecord>, fault: Option<Error>, dateFrom: Date)
    returns (r: Ret<Option<seq<ReportRow>>>)
    requires Valid(dateFrom)
    ensures fault.Some? ==> r == Ret(None, fault)
    ensures fault.None? && None in Contributors(table, Window(dateFrom)) ==>
      r == Ret(None, Some(ScanNull("service_id")))
    ensures fault.None? && None !in Contributors(table, Window(dateFrom)) ==>
      r.err.None? && r.value.Some?
      && Names(r.value.value) == Contributors(table, Window(dateFrom))
      && (forall i, j :: 0 <= i < j < |r.value.value| ==>
            r.value.value[i].serviceName != r.value.value[j].serviceName)
      && (forall i :: 0 <= i < |r.value.value| ==>
            r.value.value[i].totalSum == Total(table, Some(r.value.value[i].serviceName), Window(dateFrom)))
  {
    if fault.Some? {
      return Ret(None, fault);
    }
    var groups := GroupTotals(table, Window(dateFrom));
    r := ScanGroups(groups);
    if r.err.None? {
      var rows := r.value.value;
      assert Names(rows) == Keys(groups) by {
        forall n | n in Names(rows) ensures n in Keys(groups) {
          var k :| 0 <= k < |rows| && Some(rows[k].serviceName) == n;
          assert groups[k] in groups;
        }
        forall n | n in Keys(groups) ensures n in Names(rows) {
          var k :| 0 <= k < |groups| && groups[k].serviceId == n;
          assert rows[k] in rows;
        }
      }
    }
  }
}
