/** The three tables (orders, refunds, status history) with their unique keys,
    the statements the program runs against them, and the history trigger. */
module Tables {
  import opened Status

  type Time = int

  /** Order numbers, QR ids, image data and the like are only ever compared with
      each other, so a text is its index in a table of all texts. */
  type Text = int

  const EMPTY: Text := 0

  datatype RefundState = Pending | Success | Failure

  datatype Row = Row(
    gs: Text, price: int, notifyUrl: Text, status: OrderStatus,
    qrId: Option<Text>, qrImage: Text, qrExpiresAt: Option<Time>,
    paidAt: Option<Time>, notifiedAt: Option<Time>, completedAt: Option<Time>,
    cancelledAt: Option<Time>, failureReason: Text, updatedAt: Time)

  datatype Refund = Refund(order: Text, price: int, state: RefundState, createdAt: Time)

  /** A row of order_status_history; no `from` means the order was created. */
  datatype Change = Change(order: Text, from: Option<OrderStatus>, to: OrderStatus)

  datatype DB = DB(orders: map<Text, Row>, refunds: map<Text, Refund>, history: seq<Change>)

  const EmptyDB := DB(map[], map[], [])

  /** The sets of extra columns the program writes together with a status. */
  datatype Patch =
    | NoFields
    | QRFields(qrId: Text, qrImage: Text, expiresAt: Time)
    | PaidField(paidAt: Time)
    | NotifiedField(notifiedAt: Time)
    | CompletedField(completedAt: Time)
    | FailureField(reason: Text)
    | CancelFields(cancelledAt: Time, remark: Text)

  function WithPatch(r: Row, p: Patch): Row {
    match p
    case NoFields => r
    case QRFields(q, image, at) => r.(qrId := Some(q), qrImage := image, qrExpiresAt := Some(at))
    case PaidField(at) => r.(paidAt := Some(at))
    case NotifiedField(at) => r.(notifiedAt := Some(at))
    case CompletedField(at) => r.(completedAt := Some(at))
    case FailureField(reason) => r.(failureReason := reason)
    case CancelFields(at, remark) =>
      if remark == EMPTY then r.(cancelledAt := Some(at))
      else r.(cancelledAt := Some(at), failureReason := remark)
  }

  datatype Write =
    | NoWrite
    | InsertOrder(id: Text, row: Row)
    | SetOrder(id: Text, status: OrderStatus, patch: Patch, now: Time)
    | SetOrderIf(id: Text, expected: OrderStatus, status: OrderStatus, patch: Patch, now: Time)
    | InsertRefund(no: Text, refund: Refund)
    | SetRefund(no: Text, state: RefundState)

  /** No other order holds this non-empty machine order number. */
  predicate GsFree(orders: map<Text, Row>, gs: Text) {
    gs != EMPTY ==> forall i :: i in orders ==> orders[i].gs != gs
  }

  /** No other order holds the QR id that a patch assigns. */
  predicate QRFree(orders: map<Text, Row>, id: Text, p: Patch) {
    p.QRFields? ==> forall i :: i in orders && i != id ==> orders[i].qrId != Some(p.qrId)
  }

  /** Whether a statement touches a row: keys are unique, and a conditional
      update needs the expected status. */
  predicate Succeeds(db: DB, w: Write) {
    match w
    case NoWrite => true
    case InsertOrder(id, row) => id !in db.orders && GsFree(db.orders, row.gs)
    case SetOrder(id, _, p, _) => id in db.orders && QRFree(db.orders, id, p)
    case SetOrderIf(id, expected, _, p, _) =>
      id in db.orders && db.orders[id].status == expected && QRFree(db.orders, id, p)
    case InsertRefund(no, _) => no !in db.refunds
    case SetRefund(no, _) => no in db.refunds
  }

  /** The trigger: a change is recorded on insert, and on update only when the
      status really differs. */
  function Logged(history: seq<Change>, id: Text, from: Option<OrderStatus>, to: OrderStatus): seq<Change> {
    if from == Some(to) then history else history + [Change(id, from, to)]
  }

  function Put(db: DB, id: Text, status: OrderStatus, p: Patch, now: Time): DB
    requires id in db.orders
  {
    var was := db.orders[id];
    DB(db.orders[id := WithPatch(was, p).(status := status, updatedAt := now)], db.refunds,
       Logged(db.history, id, Some(was.status), status))
  }

  function Perform(db: DB, w: Write): DB {
    if !Succeeds(db, w) then db else
    match w
    case NoWrite => db
    case InsertOrder(id, row) =>
      DB(db.orders[id := row], db.refunds, Logged(db.history, id, None, row.status))
    case SetOrder(id, status, p, now) => Put(db, id, status, p, now)
    case SetOrderIf(id, _, status, p, now) => Put(db, id, status, p, now)
    case InsertRefund(no, refund) => db.(refunds := db.refunds[no := refund])
    case SetRefund(no, state) => db.(refunds := db.refunds[no := db.refunds[no].(state := state)])
  }

  // ---------------------------------------------------------------- lookups

  ghost function OrderByGs(db: DB, gs: Text): Option<Text> {
    if i :| i in db.orders && db.orders[i].gs == gs then Some(i) else None
  }

  ghost function OrderByQR(db: DB, q: Text): Option<Text> {
    if i :| i in db.orders && db.orders[i].qrId == Some(q) then Some(i) else None
  }

  ghost predicate GsUnique(orders: map<Text, Row>) {
    forall i, j :: i in orders && j in orders && orders[i].gs == orders[j].gs != EMPTY ==> i == j
  }

  ghost predicate QRUnique(orders: map<Text, Row>) {
    forall i, j :: i in orders && j in orders && orders[i].qrId == orders[j].qrId != None ==> i == j
  }

  /** The unique indexes on gs_order_no and pvs_qr_id. */
  ghost predicate KeysUnique(db: DB) {
    GsUnique(db.orders) && QRUnique(db.orders)
  }

  lemma PutKeepsKeys(db: DB, id: Text, status: OrderStatus, p: Patch, now: Time)
    requires KeysUnique(db) && id in db.orders && QRFree(db.orders, id, p)
    ensures KeysUnique(Put(db, id, status, p, now))
  {
    var r := Put(db, id, status, p, now).orders[id];
    assert r.gs == db.orders[id].gs;
    assert r.qrId == if p.QRFields? then Some(p.qrId) else db.orders[id].qrId;
  }

  lemma PerformKeepsKeys(db: DB, w: Write)
    requires KeysUnique(db)
    requires w.InsertOrder? ==> w.row.qrId.None?
    ensures KeysUnique(Perform(db, w))
  {
    if Succeeds(db, w) {
      match w
      case SetOrder(id, status, p, now) => PutKeepsKeys(db, id, status, p, now);
      case SetOrderIf(id, _, status, p, now) => PutKeepsKeys(db, id, status, p, now);
      case _ =>
    }
  }

  // ---------------------------------------------------------------- history

  /** The history rows of one order, oldest first. */
  ghost function HistoryOf(h: seq<Change>, id: Text): (r: seq<Change>) {
    if h == [] then []
    else
      var rest := HistoryOf(h[..|h| - 1], id);
      if h[|h| - 1].order == id then rest + [h[|h| - 1]] else rest
  }

  ghost predicate Chained(s: seq<Change>) {
    && (s != [] ==> s[0].from == None)
    && (forall k :: 0 <= k < |s| - 1 ==> s[k + 1].from == Some(s[k].to))
    && (forall k :: 0 <= k < |s| ==> s[k].from != Some(s[k].to))
  }

  ghost predicate HistoryAgreesFor(db: DB, id: Text) {
    var s := HistoryOf(db.history, id);
    && Chained(s)
    && (s == [] <==> id !in db.orders)
    && (id in db.orders && s != [] ==> s[|s| - 1].to == db.orders[id].status)
  }

  /** The log tells, per order, a chain that starts at creation, never repeats
      a status and ends at the current one; only known orders have one. */
  ghost predicate HistoryAgrees(db: DB) {
    forall id :: HistoryAgreesFor(db, id)
  }

  lemma HistoryOfAppend(h: seq<Change>, c: Change, id: Text)
    ensures HistoryOf(h + [c], id) == HistoryOf(h, id) + (if c.order == id then [c] else [])
  {
    assert (h + [c])[..|h|] == h;
  }

  lemma ChainedSnoc(s: seq<Change>, c: Change)
    requires Chained(s) && c.from != Some(c.to)
    requires c.from == if s == [] then None else Some(s[|s| - 1].to)
    ensures Chained(s + [c])
  {
    var t := s + [c];
    forall k | 0 <= k < |t| - 1 ensures t[k + 1].from == Some(t[k].to) {
      if k < |s| - 1 { assert s[k + 1].from == Some(s[k].to); }
    }
  }

  lemma LoggedKeepsHistory(db: DB, db': DB, id: Text, from: Option<OrderStatus>, i: Text)
    requires HistoryAgreesFor(db, i)
    requires id in db'.orders && db'.orders.Keys == db.orders.Keys + {id}
    requires i in db.orders && i != id ==> db'.orders[i] == db.orders[i]
    requires from == if id in db.orders then Some(db.orders[id].status) else None
    requires db'.history == Logged(db.history, id, from, db'.orders[id].status)
    ensures HistoryAgreesFor(db', i)
  {
    var c := Change(id, from, db'.orders[id].status);
    var s := HistoryOf(db.history, i);
    HistoryOfAppend(db.history, c, i);
    if i == id && from != Some(c.to) {
      assert HistoryOf(db'.history, i) == s + [c];
      ChainedSnoc(s, c);
    } else {
      assert HistoryOf(db'.history, i) == s;
      assert i in db'.orders <==> i in db.orders;
    }
  }

  /** Every statement, run by whomever, keeps the log in step with the table. */
  lemma PerformKeepsHistory(db: DB, w: Write)
    requires HistoryAgrees(db)
    ensures HistoryAgrees(Perform(db, w))
  {
    var db' := Perform(db, w);
    forall i ensures HistoryAgreesFor(db', i) {
      assert HistoryAgreesFor(db, i);
      if Succeeds(db, w) && (w.InsertOrder? || w.SetOrder? || w.SetOrderIf?) {
        LoggedKeepsHistory(db, db', w.id, if w.id in db.orders then Some(db.orders[w.id].status) else None, i);
      } else {
        assert db'.orders == db.orders && db'.history == db.history;
      }
    }
  }

  // ---------------------------------------------------------------- the store

  /** The store the services hold. `up` says whether the database answers this
      statement; an unanswered statement changes nothing and reports failure. */
  class Store {
    var orders: map<Text, Row>
    var refunds: map<Text, Refund>
    var history: seq<Change>

    constructor ()
      ensures State() == EmptyDB
    {
      orders, refunds, history := map[], map[], [];
    }

    ghost function State(): DB
      reads this
    {
      DB(orders, refunds, history)
    }

    method Record(id: Text, from: Option<OrderStatus>, to: OrderStatus)
      modifies this`history
      ensures history == Logged(old(history), id, from, to)
    {
      if from != Some(to) {
        history := history + [Change(id, from, to)];
      }
    }

    method Create(id: Text, row: Row, up: bool) returns (ok: bool)
      modifies this
      ensures ok == (up && Succeeds(old(State()), InsertOrder(id, row)))
      ensures State() == if up then Perform(old(State()), InsertOrder(id, row)) else old(State())
    {
      ok := up && id !in orders && (row.gs == EMPTY || forall i :: i in orders ==> orders[i].gs != row.gs);
      if ok {
        orders := orders[id := row];
        Record(id, None, row.status);
      }
    }

    method UpdateStatusAndFields(id: Text, status: OrderStatus, p: Patch, now: Time, up: bool) returns (ok: bool)
      modifies this
      ensures ok == (up && Succeeds(old(State()), SetOrder(id, status, p, now)))
      ensures State() == if up then Perform(old(State()), SetOrder(id, status, p, now)) else old(State())
    {
      ok := up && id in orders && QRFree(orders, id, p);
      if ok {
        var before := orders[id];
        orders := orders[id := WithPatch(before, p).(status := status, updatedAt := now)];
        Record(id, Some(before.status), status);
      }
    }

    method UpdateStatusGuardedAndFields(id: Text, expected: OrderStatus, status: OrderStatus, p: Patch,
                                        now: Time, up: bool) returns (updated: bool)
      modifies this
      ensures updated == (up && Succeeds(old(State()), SetOrderIf(id, expected, status, p, now)))
      ensures State() == if up then Perform(old(State()), SetOrderIf(id, expected, status, p, now)) else old(State())
    {
      updated := up && id in orders && orders[id].status == expected && QRFree(orders, id, p);
      if updated {
        var before := orders[id];
        orders := orders[id := WithPatch(before, p).(status := status, updatedAt := now)];
        Record(id, Some(before.status), status);
      }
    }

    method CreateRefund(no: Text, refund: Refund, up: bool) returns (ok: bool)
      modifies this`refunds
      ensures ok == (up && Succeeds(old(State()), InsertRefund(no, refund)))
      ensures State() == if up then Perform(old(State()), InsertRefund(no, refund)) else old(State())
    {
      ok := up && no !in refunds;
      if ok { refunds := refunds[no := refund]; }
    }

    method UpdateRefund(no: Text, state: RefundState, up: bool) returns (ok: bool)
      modifies this`refunds
      ensures ok == (up && Succeeds(old(State()), SetRefund(no, state)))
      ensures State() == if up then Perform(old(State()), SetRefund(no, state)) else old(State())
    {
      ok := up && no in refunds;
      if ok { refunds := refunds[no := refunds[no].(state := state)]; }
    }

    method GetByGsOrderNo(gs: Text) returns (r: Option<Text>)
      requires KeysUnique(State()) && gs != EMPTY
      ensures r == OrderByGs(State(), gs)
      ensures if r.Some? then r.value in orders && orders[r.value].gs == gs else forall i :: i in orders ==> orders[i].gs != gs
    {
      if i :| i in orders && orders[i].gs == gs {
        r := Some(i);
      } else {
        r := None;
      }
    }

    method GetByPVSQrID(q: Text) returns (r: Option<Text>)
      requires KeysUnique(State())
      ensures r == OrderByQR(State(), q)
      ensures if r.Some? then r.value in orders && orders[r.value].qrId == Some(q)
              else forall i :: i in orders ==> orders[i].qrId != Some(q)
    {
      if i :| i in orders && orders[i].qrId == Some(q) {
        r := Some(i);
      } else {
        r := None;
      }
    }
  }
}
