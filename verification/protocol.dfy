/** The transaction outcome protocol that the stored functions
    `save_transaction` and `add_balance` implement, stated as an abstract
    state machine.  Each (orderId, userId, serviceId) key moves from absent to
    reserved, and from reserved to confirmed or cancelled; confirmed and
    cancelled are terminal.  The status codes 1..10 are the ones documented on
    the /transaction handler. */
module Protocol {
  import opened Base

  /** The three transaction types, numbered 1, 2, 3 on the wire. */
  datatype TxType = Reserve | Confirm | Cancel

  datatype TxState = Reserved | Confirmed | Cancelled

  datatype Key = Key(orderId: string, userId: string, serviceId: string)

  datatype Entry = Entry(state: TxState, sum: real, comment: Option<string>)

  /** The durable store: one balance row per user, one transaction row per key. */
  datatype Store = Store(balances: map<string, real>, txs: map<Key, Entry>)

  const Applied := 1
  const AlreadyReserved := 2
  const InsufficientFunds := 3
  const ConfirmNotFound := 4
  const AlreadyConfirmed := 5
  const ConfirmCancelled := 6
  const CancelNotFound := 7
  const AlreadyCancelled := 8
  const CancelConfirmed := 9
  const NoBalance := 10

  function TypeCode(t: TxType): (c: int)
    ensures 1 <= c <= 3
  {
    match t
    case Reserve => 1
    case Confirm => 2
    case Cancel => 3
  }

  /** Reads a type code from the wire; only 1, 2 and 3 name a type. */
  function TypeOf(c: int): (t: Option<TxType>)
    ensures t.Some? <==> 1 <= c <= 3
    ensures t.Some? ==> TypeCode(t.value) == c
  {
    if c == 1 then Some(Reserve)
    else if c == 2 then Some(Confirm)
    else if c == 3 then Some(Cancel)
    else None
  }

  lemma TypeCodeRoundTrip(t: TxType)
    ensures TypeOf(TypeCode(t)) == Some(t)
  {
  }

  /** A store in which no balance is negative, every transaction belongs to a
      user with a balance row and every transaction amount is positive. */
  predicate Consistent(s: Store)
  {
    (forall u :: u in s.balances ==> s.balances[u] >= 0.0)
    && (forall k :: k in s.txs ==> k.userId in s.balances && s.txs[k].sum > 0.0)
  }

  /** One call of `save_transaction(orderId, userId, serviceId, sum, type, comment)`:
      the new store and the status code.  A user without a balance row is
      answered with 10 before anything else is looked at; a reservation holds
      `sum` by taking it off the balance, a cancellation gives the held amount
      back, a confirmation keeps it. */
  function Apply(s: Store, key: Key, sum: real, op: TxType, comment: Option<string>): (r: (Store, int))
    ensures 1 <= r.1 <= 10
    ensures r.1 != Applied ==> r.0 == s
  {
    if key.userId !in s.balances then (s, NoBalance)
    else
      var balance := s.balances[key.userId];
      match op
      case Reserve =>
        if key in s.txs then (s, AlreadyReserved)
        else if balance < sum then (s, InsufficientFunds)
        else (Store(s.balances[key.userId := balance - sum],
                    s.txs[key := Entry(Reserved, sum, comment)]), Applied)
      case Confirm =>
        if key !in s.txs then (s, ConfirmNotFound)
        else if s.txs[key].state == Confirmed then (s, AlreadyConfirmed)
        else if s.txs[key].state == Cancelled then (s, ConfirmCancelled)
        else (s.(txs := s.txs[key := s.txs[key].(state := Confirmed)]), Applied)
      case Cancel =>
        if key !in s.txs then (s, CancelNotFound)
        else if s.txs[key].state == Cancelled then (s, AlreadyCancelled)
        else if s.txs[key].state == Confirmed then (s, CancelConfirmed)
        else (Store(s.balances[key.userId := balance + s.txs[key].sum],
                    s.txs[key := s.txs[key].(state := Cancelled)]), Applied)
  }

  /** `add_balance(userId, sum, comment)`: credits the user, creating the
      balance row when there is none. */
  function Credit(s: Store, userId: string, sum: real): (r: Store)
    ensures userId in r.balances
    ensures r.balances[userId] == (if userId in s.balances then s.balances[userId] else 0.0) + sum
    ensures r.txs == s.txs
    ensures forall u :: u != userId ==> (u in r.balances <==> u in s.balances)
    ensures forall u :: u != userId && u in s.balances ==> r.balances[u] == s.balances[u]
  {
    var before := if userId in s.balances then s.balances[userId] else 0.0;
    s.(balances := s.balances[userId := before + sum])
  }

  /** The documented table read literally, as a relation between a store, a
      request, a status code and the store afterwards.  It leaves two choices
      open: a user without a balance row may also be answered with a
      rejection that does not look at the balance (4 or 7, or 2 for a used
      key), and a reservation on a used key with too little balance may be
      answered 2 or 3.  A cancellation gives back the amount the reservation
      holds. */
  predicate Table(s: Store, key: Key, sum: real, op: TxType, comment: Option<string>,
                  code: int, s': Store)
  {
    var has := key.userId in s.balances;
    var balance := if has then s.balances[key.userId] else 0.0;
    (code == NoBalance && !has && s' == s)
    || match op
       case Reserve =>
         (code == AlreadyReserved && key in s.txs && s' == s)
         || (code == InsufficientFunds && has && balance < sum && s' == s)
         || (code == Applied && has && key !in s.txs && sum <= balance
             && s'.txs.Keys == s.txs.Keys + {key}
             && s'.txs[key] == Entry(Reserved, sum, comment)
             && s'.balances == s.balances[key.userId := balance - sum]
             && (forall k :: k in s.txs ==> s'.txs[k] == s.txs[k]))
       case Confirm =>
         (code == ConfirmNotFound && key !in s.txs && s' == s)
         || (code == AlreadyConfirmed && key in s.txs && s.txs[key].state == Confirmed && s' == s)
         || (code == ConfirmCancelled && key in s.txs && s.txs[key].state == Cancelled && s' == s)
         || (code == Applied && has && key in s.txs && s.txs[key].state == Reserved
             && s'.balances == s.balances
             && s'.txs == s.txs[key := Entry(Confirmed, s.txs[key].sum, s.txs[key].comment)])
       case Cancel =>
         (code == CancelNotFound && key !in s.txs && s' == s)
         || (code == AlreadyCancelled && key in s.txs && s.txs[key].state == Cancelled && s' == s)
         || (code == CancelConfirmed && key in s.txs && s.txs[key].state == Confirmed && s' == s)
         || (code == Applied && has && key in s.txs && s.txs[key].state == Reserved
             && s'.balances == s.balances[key.userId := balance + s.txs[key].sum]
             && s'.txs == s.txs[key := Entry(Cancelled, s.txs[key].sum, s.txs[key].comment)])
  }

  /** The table with the two open choices fixed: 10 is answered before
      anything else, and 2 before 3. */
  predicate Documented(s: Store, key: Key, sum: real, op: TxType, comment: Option<string>,
                       code: int, s': Store)
  {
    if key.userId !in s.balances then code == 10 && s' == s
    else
      var balance := s.balances[key.userId];
      match op
      case Reserve =>
        (code == 2 && key in s.txs && s' == s)
        || (code == 3 && key !in s.txs && balance < sum && s' == s)
        || (code == 1 && key !in s.txs && sum <= balance
            && s'.txs.Keys == s.txs.Keys + {key}
            && s'.txs[key] == Entry(Reserved, sum, comment)
            && s'.balances == s.balances[key.userId := balance - sum]
            && (forall k :: k in s.txs ==> s'.txs[k] == s.txs[k]))
      case Confirm =>
        (code == 4 && key !in s.txs && s' == s)
        || (code == 5 && key in s.txs && s.txs[key].state == Confirmed && s' == s)
        || (code == 6 && key in s.txs && s.txs[key].state == Cancelled && s' == s)
        || (code == 1 && key in s.txs && s.txs[key].state == Reserved
            && s'.balances == s.balances
            && s'.txs == s.txs[key := Entry(Confirmed, s.txs[key].sum, s.txs[key].comment)])
      case Cancel =>
        (code == 7 && key !in s.txs && s' == s)
        || (code == 8 && key in s.txs && s.txs[key].state == Cancelled && s' == s)
        || (code == 9 && key in s.txs && s.txs[key].state == Confirmed && s' == s)
        || (code == 1 && key in s.txs && s.txs[key].state == Reserved
            && s'.balances == s.balances[key.userId := balance + s.txs[key].sum]
            && s'.txs == s.txs[key := Entry(Cancelled, s.txs[key].sum, s.txs[key].comment)])
  }

  /** The fixed choices are answers the table allows, and they are the only
      place where the table leaves room: any other answer it allows is the
      documented one. */
  lemma DocumentedWithinTable(s: Store, key: Key, sum: real, op: TxType, comment: Option<string>,
                              code: int, s': Store)
    ensures Documented(s, key, sum, op, comment, code, s') ==> Table(s, key, sum, op, comment, code, s')
    ensures Table(s, key, sum, op, comment, code, s') ==>
      || Documented(s, key, sum, op, comment, code, s')
      || (key.userId !in s.balances && code != NoBalance)
      || (op == Reserve && code == InsufficientFunds && key in s.txs)
  {
  }

  /** The two choices are real: on a used key with too little balance the
      table allows both 2 and 3, and for a user without a balance row both
      10 and 4. */
  lemma TableLeavesChoices()
    ensures var k := Key("o", "u", "x");
      var used := Store(map["u" := 0.0], map[k := Entry(Cancelled, 1.0, None)]);
      Table(used, k, 5.0, Reserve, None, AlreadyReserved, used)
      && Table(used, k, 5.0, Reserve, None, InsufficientFunds, used)
    ensures var k := Key("o", "u", "x");
      var empty := Store(map[], map[]);
      Table(empty, k, 5.0, Confirm, None, NoBalance, empty)
      && Table(empty, k, 5.0, Confirm, None, ConfirmNotFound, empty)
  {
  }

  /** `Apply` gives the documented answer, which the table allows. */
  lemma ApplyDocumented(s: Store, key: Key, sum: real, op: TxType, comment: Option<string>)
    ensures var (s', code) := Apply(s, key, sum, op, comment);
      Documented(s, key, sum, op, comment, code, s') && Table(s, key, sum, op, comment, code, s')
  {
    var (s', code) := Apply(s, key, sum, op, comment);
    DocumentedWithinTable(s, key, sum, op, comment, code, s');
  }

  /** With the two choices fixed, a request has exactly one answer. */
  lemma DocumentedUnique(s: Store, key: Key, sum: real, op: TxType, comment: Option<string>,
                         c1: int, s1: Store, c2: int, s2: Store)
    requires Documented(s, key, sum, op, comment, c1, s1)
    requires Documented(s, key, sum, op, comment, c2, s2)
    ensures c1 == c2 && s1 == s2
  {
    if key.userId in s.balances && op == Reserve && c1 == 1 {
      assert s1.txs.Keys == s2.txs.Keys;
      assert forall k :: k in s1.txs ==> s1.txs[k] == s2.txs[k];
    }
  }

  /** Code 1 is the only answer that changes the store, and it always does. */
  lemma StoreChangesIffApplied(s: Store, key: Key, sum: real, op: TxType, comment: Option<string>)
    ensures var (s', code) := Apply(s, key, sum, op, comment);
      code == Applied <==> s' != s
  {
    var (s', code) := Apply(s, key, sum, op, comment);
    if code == Applied {
      assert key in s'.txs;
      assert key !in s.txs || s'.txs[key].state != s.txs[key].state;
    }
  }

  /** A reservation succeeds exactly when the user has a balance row, the key
      is unused and the balance covers the sum. */
  lemma ReserveSucceedsIff(s: Store, key: Key, sum: real, comment: Option<string>)
    ensures Apply(s, key, sum, Reserve, comment).1 == Applied
        <==> key.userId in s.balances && key !in s.txs && sum <= s.balances[key.userId]
  {
  }

  /** Confirmation and cancellation succeed exactly on a reserved key. */
  lemma FinaliseSucceedsIff(s: Store, key: Key, sum: real, op: TxType, comment: Option<string>)
    requires op != Reserve
    ensures Apply(s, key, sum, op, comment).1 == Applied
        <==> key.userId in s.balances && key in s.txs && s.txs[key].state == Reserved
  {
  }

  /** Confirmed and cancelled are terminal: no request moves them again. */
  lemma TerminalStatesStay(s: Store, key: Key, sum: real, op: TxType, comment: Option<string>, k: Key)
    requires k in s.txs && s.txs[k].state != Reserved
    ensures var s' := Apply(s, key, sum, op, comment).0;
      k in s'.txs && s'.txs[k] == s.txs[k]
  {
  }

  /** A request touches only its own key and its own user's balance. */
  lemma OnlyOwnRowsChange(s: Store, key: Key, sum: real, op: TxType, comment: Option<string>)
    ensures var s' := Apply(s, key, sum, op, comment).0;
      (forall k :: k != key ==> (k in s'.txs <==> k in s.txs))
      && (forall k :: k != key && k in s.txs ==> s'.txs[k] == s.txs[k])
      && s'.balances.Keys == s.balances.Keys
      && (forall u :: u != key.userId && u in s.balances ==> s'.balances[u] == s.balances[u])
  {
  }

  /** With a positive sum, every request keeps the store consistent. */
  lemma ApplyKeepsConsistent(s: Store, key: Key, sum: real, op: TxType, comment: Option<string>)
    requires Consistent(s) && sum > 0.0
    ensures Consistent(Apply(s, key, sum, op, comment).0)
  {
  }

  /** A positive credit keeps the store consistent. */
  lemma CreditKeepsConsistent(s: Store, userId: string, sum: real)
    requires Consistent(s) && sum > 0.0
    ensures Consistent(Credit(s, userId, sum))
  {
  }

  /** Reserving and then cancelling the same key gives the user back exactly
      the balance they had; the key is left cancelled. */
  lemma ReserveThenCancel(s: Store, key: Key, sum: real, c1: Option<string>, sum2: real, c2: Option<string>)
    requires Apply(s, key, sum, Reserve, c1).1 == Applied
    ensures var (s1, _) := Apply(s, key, sum, Reserve, c1);
      var (s2, code) := Apply(s1, key, sum2, Cancel, c2);
      code == Applied
      && s2.balances == s.balances
      && s2.txs == s.txs[key := Entry(Cancelled, sum, c1)]
  {
    var (s1, _) := Apply(s, key, sum, Reserve, c1);
    assert s1.balances[key.userId] == s.balances[key.userId] - sum;
  }

  /** Reserving and then confirming leaves the sum debited for good; a second
      confirmation is answered with 5 and a late cancellation with 9. */
  lemma ReserveThenConfirm(s: Store, key: Key, sum: real, c1: Option<string>, sum2: real, c2: Option<string>)
    requires Apply(s, key, sum, Reserve, c1).1 == Applied
    ensures var (s1, _) := Apply(s, key, sum, Reserve, c1);
      var (s2, code) := Apply(s1, key, sum2, Confirm, c2);
      code == Applied
      && s2.balances[key.userId] == s.balances[key.userId] - sum
      && Apply(s2, key, sum2, Confirm, c2).1 == AlreadyConfirmed
      && Apply(s2, key, sum2, Cancel, c2).1 == CancelConfirmed
  {
  }
}
