/** The background worker: one scan corrects a bounded batch of stuck orders,
    oldest first, then retries a bounded batch of payment notices. */
module Reconciler {
  import opened Status
  import opened Tables
  import opened Protocol
  import opened Wording
  import opened Services

  const REFUND_STUCK_AGE: Time := 600 // seconds

  // ---------------------------------------------------------------- listings

  /** A row as a listing returned it. */
  datatype Snap = Snap(id: Text, row: Row)

  predicate Stuck(r: Row, now: Time) {
    || (r.status == QRShown && r.qrExpiresAt.Some? && r.qrExpiresAt.value < now)
    || (r.status == RefundPending && r.updatedAt < now - REFUND_STUCK_AGE)
  }

  function StuckIds(orders: map<Text, Row>, now: Time): set<Text> {
    set id | id in orders && Stuck(orders[id], now)
  }

  predicate Unnotified(r: Row) {
    r.status == PaymentConfirmed && r.notifiedAt.None?
  }

  function UnnotifiedIds(orders: map<Text, Row>): set<Text> {
    set id | id in orders && Unnotified(orders[id])
  }

  function Ids(l: seq<Snap>): set<Text> {
    set k | 0 <= k < |l| :: l[k].id
  }

  ghost predicate Current(orders: map<Text, Row>, l: seq<Snap>) {
    && (forall k :: 0 <= k < |l| ==> l[k].id in orders && l[k].row == orders[l[k].id])
    && (forall j, k :: 0 <= j < k < |l| ==> l[j].id != l[k].id)
  }

  function Min(a: int, b: int): int {
    if a < b then a else b
  }

  function Max(a: int, b: int): int {
    if a < b then b else a
  }

  /** SELECT of the rows `ids`, ORDER BY updated_at ASC LIMIT `limit`; rows of the
      same age come in any order. */
  ghost predicate Listing(orders: map<Text, Row>, ids: set<Text>, limit: nat, l: seq<Snap>) {
    && Current(orders, l) && Ids(l) <= ids <= orders.Keys
    && |l| == Min(limit, |ids|)
    && (forall j, k :: 0 <= j < k < |l| ==> l[j].row.updatedAt <= l[k].row.updatedAt)
    && (forall id, k :: id in ids && id !in Ids(l) && 0 <= k < |l| ==> l[k].row.updatedAt <= orders[id].updatedAt)
  }

  lemma Member<T>(s: set<T>) returns (x: T)
    requires |s| > 0
    ensures x in s
  {
    x :| x in s;
  }

  lemma {:induction false} OldestExists(orders: map<Text, Row>, ids: set<Text>)
    requires |ids| > 0 && ids <= orders.Keys
    ensures exists id :: id in ids && forall j :: j in ids ==> orders[id].updatedAt <= orders[j].updatedAt
    decreases |ids|
  {
    var i := Member(ids);
    var rest := ids - {i};
    if |rest| > 0 {
      OldestExists(orders, rest);
      var o :| o in rest && forall j :: j in rest ==> orders[o].updatedAt <= orders[j].updatedAt;
      var best := if orders[i].updatedAt <= orders[o].updatedAt then i else o;
      assert forall j :: j in ids ==> j == i || j in rest;
      assert best in ids && forall j :: j in ids ==> orders[best].updatedAt <= orders[j].updatedAt;
    } else {
      assert forall j :: j in ids ==> j == i;
    }
  }

  lemma {:induction false} CurrentSize(orders: map<Text, Row>, l: seq<Snap>)
    requires Current(orders, l)
    ensures |Ids(l)| == |l|
    decreases |l|
  {
    if l != [] {
      var n := |l| - 1;
      CurrentSize(orders, l[..n]);
      assert Ids(l) == Ids(l[..n]) + {l[n].id};
    }
  }

  /** The oldest rows of `ids` are listed, `rest` is not yet. */
  ghost predicate Partly(orders: map<Text, Row>, ids: set<Text>, rest: set<Text>, l: seq<Snap>) {
    && Current(orders, l) && rest <= ids <= orders.Keys && Ids(l) == ids - rest && |l| + |rest| == |ids|
    && (forall j, k :: 0 <= j < k < |l| ==> l[j].row.updatedAt <= l[k].row.updatedAt)
    && (forall id, k :: id in rest && 0 <= k < |l| ==> l[k].row.updatedAt <= orders[id].updatedAt)
  }

  lemma IdsSnoc(l: seq<Snap>, s: Snap)
    ensures Ids(l + [s]) == Ids(l) + {s.id}
  {
    var l' := l + [s];
    assert forall k :: 0 <= k < |l| ==> l'[k] == l[k];
    assert l'[|l|] == s;
  }

  lemma ListNext(orders: map<Text, Row>, ids: set<Text>, rest: set<Text>, l: seq<Snap>, id: Text)
    requires Partly(orders, ids, rest, l)
    requires id in rest && forall j :: j in rest ==> orders[id].updatedAt <= orders[j].updatedAt
    ensures Partly(orders, ids, rest - {id}, l + [Snap(id, orders[id])])
  {
    var l', rest' := l + [Snap(id, orders[id])], rest - {id};
    IdsSnoc(l, Snap(id, orders[id]));
    assert ids - rest' == (ids - rest) + {id};
    forall j, k | 0 <= j < k < |l'| ensures l'[j].id != l'[k].id && l'[j].row.updatedAt <= l'[k].row.updatedAt {
      if k == |l| { assert l[j].id in Ids(l); }
    }
  }

  /** The rows of a listing, accumulated one by one. */
  method List(orders: map<Text, Row>, ids: set<Text>, limit: nat) returns (l: seq<Snap>)
    requires ids <= orders.Keys
    ensures Listing(orders, ids, limit, l)
  {
    l := [];
    var rest := ids;
    while |l| < limit && |rest| > 0
      invariant Partly(orders, ids, rest, l) && |l| <= limit
      decreases |rest|
    {
      OldestExists(orders, rest);
      var id :| id in rest && forall j :: j in rest ==> orders[id].updatedAt <= orders[j].updatedAt;
      ListNext(orders, ids, rest, l, id);
      l := l + [Snap(id, orders[id])];
      rest := rest - {id};
    }
  }

  lemma StuckStatuses(orders: map<Text, Row>, now: Time, limit: nat, l: seq<Snap>)
    requires Listing(orders, StuckIds(orders, now), limit, l)
    ensures forall k :: 0 <= k < |l| ==> l[k].row.status == QRShown || l[k].row.status == RefundPending
  {
    assert forall k :: 0 <= k < |l| ==> l[k].id in Ids(l);
  }

  // ---------------------------------------------------------------- what a scan does

  /** Tables, log and counters while a scan goes on. */
  datatype Pass = Pass(db: DB, events: seq<Event>, fixed: nat)

  function At(answers: seq<seq<Env>>, i: nat): seq<Env> {
    if i < |answers| then answers[i] else []
  }

  /** PVS answers with a state that calls for a correction and the guarded write lands. */
  predicate Corrects(orders: map<Text, Row>, s: Snap, envs: seq<Env>) {
    && Head(envs).state.Some? && CorrectionTarget(s.row.status, Head(envs).state.value).Some?
    && Head(Tail(envs)).up && s.id in orders && orders[s.id].status == s.row.status
  }

  ghost function FixOne(p: Pass, s: Snap, envs: seq<Env>): Pass {
    var t := Alone(p.db, FixAsk(s.id, s.row), envs);
    Pass(t.db, p.events + t.events, p.fixed + if Corrects(p.db.orders, s, envs) then 1 else 0)
  }

  lemma FixUnfolds(p: Pass, s: Snap, envs: seq<Env>)
    ensures var answer := Head(envs).state;
      if answer.None? || CorrectionTarget(s.row.status, answer.value).None? then FixOne(p, s, envs) == p
      else
        var t := Alone(p.db, FixWrite(s.id, s.row, answer.value), Tail(envs));
        FixOne(p, s, envs) == Pass(t.db, p.events + t.events, p.fixed + if Corrects(p.db.orders, s, envs) then 1 else 0)
  {
    AloneStep(p.db, FixAsk(s.id, s.row), envs);
  }

  ghost function FixAll(p: Pass, l: seq<Snap>, answers: seq<seq<Env>>): Pass
    decreases |l|
  {
    if l == [] then p else FixOne(FixAll(p, l[..|l| - 1], answers), l[|l| - 1], At(answers, |l| - 1))
  }

  /** The row is old enough when its turn comes, GS accepts and the mark is written. */
  ghost predicate Retried(db: DB, s: Snap, envs: seq<Env>) {
    Due(s.row, Head(envs).now) && NoticeLands(db, s.id, s.row, Tail(envs))
  }

  ghost function RetryOne(p: Pass, s: Snap, envs: seq<Env>): Pass {
    var t := Alone(p.db, RetryCheck(s.id, s.row), envs);
    Pass(t.db, p.events + t.events, p.fixed + if Retried(p.db, s, envs) then 1 else 0)
  }

  lemma RetryUnfolds(p: Pass, s: Snap, envs: seq<Env>)
    ensures
      if !Due(s.row, Head(envs).now) then RetryOne(p, s, envs) == p
      else
        var t := Alone(p.db, NotifyAsk(s.id, s.row), Tail(envs));
        RetryOne(p, s, envs) ==
          Pass(t.db, p.events + t.events, p.fixed + if NoticeLands(p.db, s.id, s.row, Tail(envs)) then 1 else 0)
  {
    AloneStep(p.db, RetryCheck(s.id, s.row), envs);
  }

  ghost function RetryAll(p: Pass, l: seq<Snap>, answers: seq<seq<Env>>): Pass
    decreases |l|
  {
    if l == [] then p else RetryOne(RetryAll(p, l[..|l| - 1], answers), l[|l| - 1], At(answers, |l| - 1))
  }

  /** A scan: its clock, what its two listings returned and the answers it got. */
  datatype Round = Round(now: Time, stuck: seq<Snap>, answers: seq<seq<Env>>, pending: seq<Snap>, retries: seq<seq<Env>>)

  ghost function Middle(p: Pass, s: Round): Pass {
    FixAll(p, s.stuck, s.answers)
  }

  ghost function End(p: Pass, s: Round): Pass {
    RetryAll(Middle(p, s), s.pending, s.retries)
  }

  ghost predicate ListsStuck(p: Pass, s: Round, batch: nat) {
    Listing(p.db.orders, StuckIds(p.db.orders, s.now), batch, s.stuck)
  }

  /** Both listings are those of the tables at their moment. */
  ghost predicate Listed(p: Pass, s: Round, batch: nat) {
    var m := Middle(p, s).db.orders;
    ListsStuck(p, s, batch) && Listing(m, UnnotifiedIds(m), batch, s.pending)
  }

  /** What was listed, when the second listing may have failed. */
  ghost predicate Scanned(p: Pass, s: Round, upPending: bool, batch: nat) {
    if upPending then Listed(p, s, batch) else ListsStuck(p, s, batch) && s.pending == []
  }

  /** From `before`, one scan with these answers, when the first listing succeeds. */
  ghost predicate Scans(before: Pass, s: Round, now: Time, answers: seq<seq<Env>>, retries: seq<seq<Env>>,
                        upPending: bool, batch: nat, after: Pass) {
    && s.now == now && s.answers == answers && s.retries == retries
    && Scanned(before, s, upPending, batch) && after == End(before, s)
  }

  datatype RunRecord = RunRecord(scanned: nat, fixed: nat)

  /** An answered correction of an order that still has the status it was listed
      with gives it the status that PVS's number stands for; any other changes nothing. */
  predicate Fixes(before: map<Text, Row>, after: map<Text, Row>, id: Text, listed: OrderStatus, envs: seq<Env>) {
    if id in before && before[id].status == listed && Head(envs).state.Some? && Head(Tail(envs)).up
    then id in after && after[id].status == StatusFixed(listed, Head(envs).state.value)
    else after == before
  }

  class Worker {
    const service: OrderService
    const batchSize: nat
    var runs: seq<RunRecord>
    var scanned: nat // counters of the scan under way
    var fixed: nat

    constructor (service: OrderService, batchSize: nat)
      ensures this.service == service && this.batchSize == batchSize && runs == []
    {
      this.service, this.batchSize := service, batchSize;
      runs, scanned, fixed := [], 0, 0;
    }

    ghost function Now(): Pass
      reads this`fixed, service`log, service.store
    {
      Pass(service.store.State(), service.log, fixed)
    }

    method ReconcileQRShown(s: Snap, envs: seq<Env>)
      requires s.row.status == QRShown
      modifies this`fixed, service`log, service.store
      ensures Now() == FixOne(old(Now()), s, envs)
      ensures Fixes(old(service.store.orders), service.store.orders, s.id, QRShown, envs)
    {
      var store := service.store;
      FixUnfolds(Now(), s, envs);
      var answer := Head(envs).state;
      if answer.None? { return; }
      FixedMeaning(QRShown, answer.value);
      var to := CorrectionTarget(QRShown, answer.value);
      if to.None? { return; }
      var updated := Confirm(s, answer.value, to.value, Tail(envs));
      if updated {
        fixed := fixed + 1;
      }
    }

    /** The guarded write of a correction, and the notice if it confirmed a payment. */
    method Confirm(s: Snap, ghost state: int, to: OrderStatus, envs: seq<Env>) returns (updated: bool)
      requires CorrectionTarget(s.row.status, state) == Some(to)
      modifies service`log, service.store
      ensures service.Did(old(service.log), Alone(old(service.store.State()), FixWrite(s.id, s.row, state), envs))
      ensures updated <==> Head(envs).up && s.id in old(service.store.orders) && old(service.store.orders)[s.id].status == s.row.status
      ensures if updated then s.id in service.store.orders && service.store.orders[s.id].status == to
              else service.store.orders == old(service.store.orders)
    {
      var store, e := service.store, Head(envs);
      CorrectionWrites(store.State(), s.id, s.row, state, to, envs);
      updated := store.UpdateStatusGuardedAndFields(s.id, s.row.status, to, PaidPatch(to, e.now), e.now, e.up);
      if updated && to == PaymentConfirmed {
        service.log := service.log + [Confirmed(s.id)];
        var _ := service.NotifyPaymentIfNeeded(s.id, SeenPaid(s.row, e.now), Tail(envs));
      }
    }

    method ReconcileRefundPending(s: Snap, envs: seq<Env>)
      requires s.row.status == RefundPending
      modifies this`fixed, service`log, service.store
      ensures Now() == FixOne(old(Now()), s, envs)
      ensures Fixes(old(service.store.orders), service.store.orders, s.id, RefundPending, envs)
    {
      var store := service.store;
      FixUnfolds(Now(), s, envs);
      var answer := Head(envs).state;
      if answer.None? { return; }
      if answer.value != 4 { return; }
      var e := Head(Tail(envs));
      AloneStep(store.State(), FixWrite(s.id, s.row, answer.value), Tail(envs));
      var updated := store.UpdateStatusGuardedAndFields(s.id, RefundPending, Refunded, NoFields, e.now, e.up);
      if updated {
        fixed := fixed + 1;
      }
    }

    /** One row of the second loop. */
    method RetryRow(s: Snap, envs: seq<Env>)
      modifies this`fixed, service`log, service.store
      ensures Now() == RetryOne(old(Now()), s, envs)
    {
      var o := s.row;
      RetryUnfolds(Now(), s, envs);
      if Head(envs).now - o.updatedAt < NOTIFY_MIN_AGE { return; }
      if o.notifyUrl == EMPTY || o.notifiedAt.Some? { return; }
      var after := service.NotifyPaymentIfNeeded(s.id, o, Tail(envs));
      if o.notifiedAt.None? && after.notifiedAt.Some? {
        fixed := fixed + 1;
      }
    }

    method RetryUnnotified(answers: seq<seq<Env>>, up: bool) returns (ghost pending: seq<Snap>)
      modifies this`fixed, this`scanned, service`log, service.store
      ensures up ==> Listing(old(service.store.orders), UnnotifiedIds(old(service.store.orders)), batchSize, pending)
      ensures !up ==> pending == []
      ensures Now() == RetryAll(old(Now()), pending, answers) && scanned == old(scanned) + |pending|
    {
      if !up { return []; }
      var l := List(service.store.orders, UnnotifiedIds(service.store.orders), batchSize);
      scanned := scanned + |l|;
      for i := 0 to |l|
        invariant Now() == RetryAll(old(Now()), l[..i], answers) && scanned == old(scanned) + |l|
      {
        assert l[..i + 1][..i] == l[..i];
        RetryRow(l[i], At(answers, i));
      }
      assert l[..|l|] == l;
      return l;
    }

    method CorrectStuck(l: seq<Snap>, answers: seq<seq<Env>>)
      requires forall k :: 0 <= k < |l| ==> l[k].row.status == QRShown || l[k].row.status == RefundPending
      modifies this`fixed, service`log, service.store
      ensures Now() == FixAll(old(Now()), l, answers)
    {
      for i := 0 to |l|
        invariant Now() == FixAll(old(Now()), l[..i], answers)
      {
        assert l[..i + 1][..i] == l[..i];
        match l[i].row.status
        case QRShown => ReconcileQRShown(l[i], At(answers, i));
        case RefundPending => ReconcileRefundPending(l[i], At(answers, i));
      }
      assert l[..|l|] == l;
    }

    /** The first half: list the stuck orders, start the counters, correct. */
    method FixStuck(now: Time, answers: seq<seq<Env>>) returns (ghost stuck: seq<Snap>)
      modifies this`fixed, this`scanned, service`log, service.store
      ensures Listing(old(service.store.orders), StuckIds(old(service.store.orders), now), batchSize, stuck)
      ensures Now() == FixAll(Pass(old(service.store.State()), old(service.log), 0), stuck, answers) && scanned == |stuck|
    {
      var l := List(service.store.orders, StuckIds(service.store.orders, now), batchSize);
      scanned, fixed := |l|, 0;
      StuckStatuses(service.store.orders, now, batchSize, l);
      CorrectStuck(l, answers);
      return l;
    }

    /** Both loops, one after the other. */
    method BothLoops(now: Time, answers: seq<seq<Env>>, retries: seq<seq<Env>>, upPending: bool) returns (ghost s: Round)
      modifies this`fixed, this`scanned, service`log, service.store
      ensures Scans(Pass(old(service.store.State()), old(service.log), 0), s, now, answers, retries, upPending, batchSize, Now())
      ensures scanned == |s.stuck| + |s.pending|
    {
      ghost var before := Pass(service.store.State(), service.log, 0);
      ghost var stuck := FixStuck(now, answers);
      ghost var mid := Now();
      ghost var pending := RetryUnnotified(retries, upPending);
      s := Round(now, stuck, answers, pending, retries);
      assert Middle(before, s) == mid;
    }

    method RecordRun(up: bool)
      modifies this`runs
      ensures runs == old(runs) + if up then [RunRecord(scanned, fixed)] else []
    {
      if up { runs := runs + [RunRecord(scanned, fixed)]; }
    }

    /** One pass. `upStuck`, `upPending` and `upRecord` say whether the two
        listings and the final insert reach the database. */
    method Scan(now: Time, answers: seq<seq<Env>>, retries: seq<seq<Env>>, upStuck: bool, upPending: bool, upRecord: bool)
        returns (ghost s: Round)
      modifies this, service`log, service.store
      ensures !upStuck ==> Now() == old(Now()) && runs == old(runs)
      ensures upStuck ==>
                Scans(Pass(old(service.store.State()), old(service.log), 0), s, now, answers, retries, upPending, batchSize, Now())
      ensures upStuck ==> runs == old(runs) + if upRecord then [RunRecord(|s.stuck| + |s.pending|, fixed)] else []
    {
      if upStuck {
        s := BothLoops(now, answers, retries, upPending);
        RecordRun(upRecord);
      } else {
        s := Round(now, [], [], [], []);
      }
    }
  }
}
