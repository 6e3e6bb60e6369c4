/** What each call does when it runs alone and the database answers: the rows it
    leaves, the calls it makes and the answers it gives, spelled out. */
module Outcomes {
  import opened Status
  import opened Wording
  import opened Tables
  import opened Protocol
  import opened Interleaved
  import Serial
  import R = Refunds

  // ---------------------------------------------------------------- notices

  /** GS took the notice: it answered with no code, or with "success". */
  predicate Took(code: Option<string>) {
    code == Some("") || code == Some("success")
  }

  /** A row whose payment GS has yet to be told. */
  predicate Untold(r: Row) {
    r.notifyUrl != EMPTY && r.notifiedAt.None? && r.status == PaymentConfirmed
  }

  /** GS is asked about an untold row, whatever else; the row is marked, and
      nothing else written, when GS takes the notice and the mark is answered;
      otherwise nothing at all is written. */
  lemma NoticeOutcome(db: DB, id: Text, seen: Row, envs: seq<Env>)
    requires id in db.orders && db.orders[id].status == PaymentConfirmed
    ensures var t, e := Alone(db, NotifyAsk(id, seen), envs), Head(Tail(envs));
      && t.events == (if Untold(seen) then [AskedNotify(id)] else [])
      && t.db == if Untold(seen) && Took(Head(envs).returnCode) && e.up
                 then db.(orders := db.orders[id := db.orders[id].(notifiedAt := Some(e.now), updatedAt := e.now)])
                 else db
  {
    NoticeTrace(db, id, seen, envs);
    MarkWrites(db, id, Head(Tail(envs)).now);
  }

  lemma NoticeTrace(db: DB, id: Text, seen: Row, envs: seq<Env>)
    ensures var e := Head(Tail(envs));
      var w := if Untold(seen) && Took(Head(envs).returnCode) && e.up
               then SetOrder(id, PaymentConfirmed, NotifiedField(e.now), e.now) else NoWrite;
      Alone(db, NotifyAsk(id, seen), envs) == Trace(Perform(db, w), if Untold(seen) then [AskedNotify(id)] else [])
  {
    AloneStep(db, NotifyAsk(id, seen), envs);
    if Untold(seen) && Took(Head(envs).returnCode) { AloneStep(db, NotifyWrite(id), Tail(envs)); }
  }

  lemma MarkWrites(db: DB, id: Text, now: Time)
    requires id in db.orders && db.orders[id].status == PaymentConfirmed
    ensures Perform(db, SetOrder(id, PaymentConfirmed, NotifiedField(now), now)) ==
            db.(orders := db.orders[id := db.orders[id].(notifiedAt := Some(now), updatedAt := now)])
  {
  }

  /** A notice that GS does not take leaves the whole database as it was, so the
      order stays among the unnotified. */
  lemma RefusedNotice(db: DB, id: Text, seen: Row, envs: seq<Env>)
    requires Head(envs).returnCode.None? || (Head(envs).returnCode.value != "" && Head(envs).returnCode.value != "success")
    ensures Alone(db, NotifyAsk(id, seen), envs).db == db
  {
    AloneStep(db, NotifyAsk(id, seen), envs);
  }

  // ---------------------------------------------------------------- guarded writes

  /** A guarded write that meets the status it expects: the row takes the new
      status, and with a confirmation the payment moment and the notice. */
  lemma GuardedOutcome(db: DB, id: Text, to: OrderStatus, envs: seq<Env>)
    requires id in db.orders && Head(envs).up
    ensures var r, t, now := db.orders[id], GuardedTrace(db, id, db.orders[id], to, envs), Head(envs).now;
      && id in t.db.orders && t.db.orders[id].status == to && t.db.orders - {id} == db.orders - {id}
      && t.db.orders[id].paidAt == (if to == PaymentConfirmed then Some(now) else r.paidAt)
      && t.db.orders[id].notifiedAt ==
           (if to == PaymentConfirmed && r.notifyUrl != EMPTY && r.notifiedAt.None? && Took(Head(Tail(envs)).returnCode) && Head(Tail(Tail(envs))).up
            then Some(Head(Tail(Tail(envs))).now) else r.notifiedAt)
      && t.events ==
           if to != PaymentConfirmed then []
           else if r.notifyUrl != EMPTY && r.notifiedAt.None? then [Confirmed(id), AskedNotify(id)]
           else [Confirmed(id)]
  {
    var r, now := db.orders[id], Head(envs).now;
    var w := SetOrderIf(id, r.status, to, PaidPatch(to, now), now);
    var db' := Perform(db, w);
    assert Succeeds(db, w);
    assert db'.orders == db.orders[id := WithPatch(r, PaidPatch(to, now)).(status := to, updatedAt := now)];
    if to == PaymentConfirmed { NoticeOutcome(db', id, SeenPaid(r, now), Tail(envs)); }
  }

  // ---------------------------------------------------------------- deliveries and corrections

  lemma DeliveryOutcome(db: DB, key: HookKey, told: Option<PVSStatus>, id: Text, envs: seq<Env>)
    requires key != ById(EMPTY) && Lookup(db, key) == Some(id) && id in db.orders && Head(envs).up
    ensures var to := Aimed(told, db.orders[id].status);
      Serve(db, Webhook(key, told), envs) ==
        if to.None? then Trace(db, []) else GuardedTrace(db, id, db.orders[id], to.value, Tail(envs))
  {
    AloneStep(db, HookRead(key, told), envs);
    DeliveryRead(db, key, told, id, Head(envs));
    var to := Aimed(told, db.orders[id].status);
    if to.Some? { DeliveryWrites(db, id, key, told.value, db.orders[id], to.value, Tail(envs)); }
  }

  /** An answered correction of a stuck order, in PVS's own numbers: 5 confirms the
      payment and tells GS, 3 fails the order, 6 times it out, 4 reverses it or
      completes its refund, and every other answer leaves it alone. */
  lemma CorrectionOutcome(db: DB, id: Text, envs: seq<Env>)
    requires id in db.orders && (db.orders[id].status == QRShown || db.orders[id].status == RefundPending)
    requires Head(envs).state.Some? && Head(Tail(envs)).up
    ensures var r, t, state := db.orders[id], Serve(db, Correct(id), envs), Head(envs).state.value;
      && id in t.db.orders && t.db.orders[id].status == StatusFixed(r.status, state) && t.db.orders - {id} == db.orders - {id}
      && t.db.orders[id].paidAt == (if r.status == QRShown && state == 5 then Some(Head(Tail(envs)).now) else r.paidAt)
      && (AskedNotify(id) in t.events <==> r.status == QRShown && state == 5 && r.notifyUrl != EMPTY && r.notifiedAt.None?)
      && (StatusFixed(r.status, state) == r.status ==> t == Trace(db, []))
  {
    var r, state := db.orders[id], Head(envs).state.value;
    var to := CorrectionTarget(r.status, state);
    FixedMeaning(r.status, state);
    AloneStep(db, FixAsk(id, r), envs);
    if to.Some? {
      CorrectionWrites(db, id, r, state, to.value, Tail(envs));
      GuardedOutcome(db, id, to.value, Tail(envs));
    }
  }

  // ---------------------------------------------------------------- creation

  predicate Filled(req: CreateReq) {
    req.gs != EMPTY && req.notifyUrl != EMPTY && req.price > 0
  }

  /** A repeated request for an order that has a QR image: the same answer again,
      and not a single write nor question to PVS. */
  lemma RepeatedCreate(db: DB, req: CreateReq, id: Text, envs: seq<Env>)
    requires KeysUnique(db) && Filled(req) && Head(envs).up
    requires id in db.orders && db.orders[id].gs == req.gs && db.orders[id].qrImage != EMPTY
    ensures Serve(db, Create(req), envs) == Trace(db, [ReplyQR(req.gs, id, db.orders[id].qrImage)])
  {
    assert OrderByGs(db, req.gs) == Some(id);
    AloneStep(db, CreateRead(req), envs);
  }

  /** A repeated request for an order without an image meets the unique key: no
      answer, no write, no question to PVS. */
  lemma RefusedCreate(db: DB, req: CreateReq, id: Text, envs: seq<Env>)
    requires KeysUnique(db) && req.gs != EMPTY && Head(envs).up
    requires id in db.orders && db.orders[id].gs == req.gs && db.orders[id].qrImage == EMPTY
    ensures Serve(db, Create(req), envs) == Trace(db, [])
  {
    if Begin(db, Create(req)).Some? {
      assert OrderByGs(db, req.gs) == Some(id);
      AloneStep(db, CreateRead(req), envs);
      AloneStep(db, CreateInsert(req, Head(envs).freshId), Tail(envs));
    }
  }

  /** Over runs: once a machine was given a QR, every later complete request for the
      same order, run alone and answered, gets the very same answer and writes
      nothing, exactly when that QR has an image. */
  lemma AnswerIsRepeated(s: Sys, k: nat, req: CreateReq, envs: seq<Env>)
    requires Reachable(s) && k < |s.log| && s.log[k].ReplyQR? && s.log[k].gs == req.gs
    requires Filled(req) && Head(envs).up
    ensures var t := Serve(s.db, Create(req), envs);
      t.db == s.db && t.events == if s.log[k].url != EMPTY then [s.log[k]] else []
  {
    ReachableInv(s);
    var id := s.log[k].id;
    assert Happened(s.db, s.log[k]);
    if s.log[k].url != EMPTY { RepeatedCreate(s.db, req, id, envs); } else { RefusedCreate(s.db, req, id, envs); }
  }

  /** The row of a new order, and the row once it shows its QR. */
  function BornRow(req: CreateReq, now: Time): Row {
    Row(req.gs, req.price, req.notifyUrl, Received, None, EMPTY, None, None, None, None, None, EMPTY, now)
  }

  function ShownRow(req: CreateReq, qr: QR, now: Time): Row {
    Row(req.gs, req.price, req.notifyUrl, QRShown, Some(qr.id), qr.image, Some(now + 180), None, None, None, None, EMPTY, now)
  }

  /** The first request for a machine order: PVS is asked once; with its QR the
      order is shown for 180 seconds and the machine answered, without it the order
      is FAILED and the machine is not. */
  lemma FirstCreate(db: DB, req: CreateReq, envs: seq<Env>)
    requires Filled(req) && Head(envs).freshId !in db.orders
    requires forall i :: i in db.orders ==> db.orders[i].gs != req.gs
    requires Head(Tail(envs)).up && Head(Tail(Tail(Tail(envs)))).up
    requires var qr := Head(Tail(Tail(envs))).qr; qr.Some? ==> forall i :: i in db.orders ==> db.orders[i].qrId != Some(qr.value.id)
    ensures var id, qr, now := Head(envs).freshId, Head(Tail(Tail(envs))).qr, Head(Tail(Tail(Tail(envs)))).now;
      var t := Serve(db, Create(req), envs);
      && t.db.orders == db.orders[id := if qr.Some? then ShownRow(req, qr.value, now)
                                        else BornRow(req, now).(status := Failed)]
      && t.events == if qr.Some? then [AskedQR(req.gs, id), Shown(id), ReplyQR(req.gs, id, qr.value.image)] else [AskedQR(req.gs, id)]
  {
    var id, e1, e2, e3 := Head(envs).freshId, Tail(envs), Tail(Tail(envs)), Tail(Tail(Tail(envs)));
    var born, qr := InsertOrder(id, BornRow(req, Head(e1).now)), Head(e2).qr;
    var db' := Perform(db, born);
    AloneStep(db, CreateRead(req), envs);
    AloneStep(db, CreateInsert(req, id), e1);
    assert db'.orders == db.orders[id := BornRow(req, Head(e1).now)];
    AloneStep(db', CreateAsk(req, id), e2);
    if qr.Some? {
      AloneStep(db', CreateShow(req, id, qr.value), e3);
      assert Succeeds(db', SetOrder(id, QRShown, QRFields(qr.value.id, qr.value.image, Head(e3).now + QR_EXPIRY), Head(e3).now));
    } else {
      AloneStep(db', CreateFail(id), e3);
    }
  }

  // ---------------------------------------------------------------- completion, cancellation, refund

  /** The machine reports how the sale ended: a success needs out-stock status 2
      and a confirmed payment, a failure an order that is not settled yet. */
  lemma CompleteOutcome(db: DB, id: Text, gs: Text, success: bool, outStock: int, envs: seq<Env>)
    requires id != EMPTY && gs != EMPTY && Head(envs).up && Head(Tail(envs)).up
    ensures var t := Serve(db, Complete(id, gs, success, outStock), envs);
      && t.events == []
      && if id in db.orders && db.orders[id].gs == gs && CompletionFits(db.orders[id].status, success, outStock)
         then t.db.orders == db.orders[id := CompletedRow(db.orders[id], success, Head(envs).now, Head(Tail(envs)).now)]
         else t.db == db
  {
    AloneStep(db, CompleteRead(id, gs, success, outStock), envs);
    CompletionRead(db, id, gs, success, outStock, Head(envs));
    var o := Advance(db, CompleteRead(id, gs, success, outStock), Head(envs));
    if o.next.Some? { AloneStep(db, o.next.value, Tail(envs)); }
  }

  lemma CompletionRead(db: DB, id: Text, gs: Text, success: bool, outStock: int, env: Env)
    requires env.up
    ensures Advance(db, CompleteRead(id, gs, success, outStock), env) ==
            if id in db.orders && db.orders[id].gs == gs && CompletionFits(db.orders[id].status, success, outStock)
            then Go(if success then CompleteWrite(id, Done, CompletedField(env.now))
                    else CompleteWrite(id, Failed, FailureField(COMPLETE_FAILED)))
            else Finished
  {
    if id in db.orders { MachineEdges(db.orders[id].status); }
  }

  predicate CompletionFits(s: OrderStatus, success: bool, outStock: int) {
    if success then outStock == 2 && s == PaymentConfirmed
    else s == Received || s == QRRequested || s == QRShown || s == PaymentConfirmed
  }

  /** A success leaves its moment, a failure its reason, and neither the other's. */
  function CompletedRow(r: Row, success: bool, now: Time, written: Time): Row {
    if success then r.(status := Done, completedAt := Some(now), updatedAt := written)
    else r.(status := Failed, failureReason := COMPLETE_FAILED, updatedAt := written)
  }

  lemma CancelOutcome(db: DB, id: Text, gs: Text, remark: Text, envs: seq<Env>)
    requires id != EMPTY && gs != EMPTY && Head(envs).up && Head(Tail(envs)).up
    ensures var t := Serve(db, Cancel(id, gs, remark), envs);
      && t.events == []
      && if id in db.orders && db.orders[id].gs == gs && (db.orders[id].status == QRShown || db.orders[id].status == PaymentConfirmed)
         then t.db.orders == db.orders[id := CancelledRow(db.orders[id], remark, Head(envs).now, Head(Tail(envs)).now)]
         else t.db == db
  {
    AloneStep(db, CancelRead(id, gs, remark), envs);
    CancellationRead(db, id, gs, remark, Head(envs));
    CancellationWrites(db, id, remark, Head(envs).now, Head(Tail(envs)).now);
    AloneStep(db, CancelWrite(id, CancelFields(Head(envs).now, remark)), Tail(envs));
  }

  lemma CancellationWrites(db: DB, id: Text, remark: Text, now: Time, written: Time)
    ensures id in db.orders ==>
              Perform(db, SetOrder(id, Cancelled, CancelFields(now, remark), written)).orders ==
              db.orders[id := CancelledRow(db.orders[id], remark, now, written)]
  {
  }

  lemma CancellationRead(db: DB, id: Text, gs: Text, remark: Text, env: Env)
    requires env.up
    ensures Advance(db, CancelRead(id, gs, remark), env) ==
            if id in db.orders && db.orders[id].gs == gs && (db.orders[id].status == QRShown || db.orders[id].status == PaymentConfirmed)
            then Go(CancelWrite(id, CancelFields(env.now, remark)))
            else Finished
  {
    if id in db.orders { MachineEdges(db.orders[id].status); }
  }

  /** The remark of a cancellation is kept, if there is one. */
  function CancelledRow(r: Row, remark: Text, now: Time, written: Time): Row {
    r.(status := Cancelled, cancelledAt := Some(now), failureReason := if remark != EMPTY then remark else r.failureReason,
       updatedAt := written)
  }

  lemma SettleOutcome(db: DB, r: RefundReq, ok: bool, envs: seq<Env>)
    requires r.order in db.orders && r.no in db.refunds && Head(envs).up && Head(Tail(envs)).up
    ensures var t := Alone(db, RefundSettle(r, ok), envs);
      && t.events == []
      && t.db.refunds == db.refunds[r.no := db.refunds[r.no].(state := if ok then Success else Failure)]
      && r.order in t.db.orders && t.db.orders - {r.order} == db.orders - {r.order}
      && t.db.orders[r.order] ==
         db.orders[r.order].(status := if ok then RefundPending else RefundFailed,
                             updatedAt := if ok then Head(envs).now else Head(Tail(envs)).now)
  {
    var w := if ok then SetOrder(r.order, RefundPending, NoFields, Head(envs).now) else SetRefund(r.no, Failure);
    var w' := if ok then SetRefund(r.no, Success) else SetOrder(r.order, RefundFailed, NoFields, Head(Tail(envs)).now);
    SettleIs(db, r, ok, envs, w, w');
    assert Succeeds(db, w) && Succeeds(Perform(db, w), w');
  }

  lemma SettleIs(db: DB, r: RefundReq, ok: bool, envs: seq<Env>, w: Write, w': Write)
    requires Head(envs).up && Head(Tail(envs)).up
    requires w == if ok then SetOrder(r.order, RefundPending, NoFields, Head(envs).now) else SetRefund(r.no, Failure)
    requires w' == if ok then SetRefund(r.no, Success) else SetOrder(r.order, RefundFailed, NoFields, Head(Tail(envs)).now)
    ensures Alone(db, RefundSettle(r, ok), envs) == Trace(Perform(Perform(db, w), w'), [])
  {
    AloneStep(db, RefundSettle(r, ok), envs);
    AloneStep(Perform(db, w), RefundSettle2(r, ok), Tail(envs));
  }

  lemma AskOutcome(db: DB, r: RefundReq, envs: seq<Env>)
    requires r.order in db.orders && r.no in db.refunds && Head(Tail(envs)).up && Head(Tail(Tail(envs))).up
    ensures var t, ok := Alone(db, RefundAsk(r), envs), Head(envs).reversed == Some(true);
      && t.events == [AskedReverse(r.no, r.order)]
      && t.db.refunds == db.refunds[r.no := db.refunds[r.no].(state := if ok then Success else Failure)]
      && r.order in t.db.orders && t.db.orders[r.order].status == if ok then RefundPending else RefundFailed
  {
    AloneStep(db, RefundAsk(r), envs);
    SettleOutcome(db, r, Head(envs).reversed == Some(true), Tail(envs));
  }

  lemma InsertStep(db: DB, r: RefundReq, seen: Row, env: Env)
    requires r.no !in db.refunds && env.up
    ensures var o, f := Advance(db, RefundInsert(r, seen), env), Refund(r.order, r.price, Pending, env.now);
      o.next == Some(RefundAsk(r)) && o.events == [] && Perform(db, o.write) == db.(refunds := db.refunds[r.no := f])
  {
  }

  lemma InsertOutcome(db: DB, r: RefundReq, seen: Row, envs: seq<Env>)
    requires r.no !in db.refunds && Head(envs).up
    ensures var db' := db.(refunds := db.refunds[r.no := Refund(r.order, r.price, Pending, Head(envs).now)]);
      Alone(db, RefundInsert(r, seen), envs) == Alone(db', RefundAsk(r), Tail(envs))
  {
    InsertStep(db, r, seen, Head(envs));
    AloneStep(db, RefundInsert(r, seen), envs);
    NoEvents(Alone(db.(refunds := db.refunds[r.no := Refund(r.order, r.price, Pending, Head(envs).now)]), RefundAsk(r), Tail(envs)));
  }

  lemma NoEvents(t: Trace)
    ensures Trace(t.db, [] + t.events) == t
  {
  }

  lemma EntitledGoesOn(db: DB, r: RefundReq, envs: seq<Env>)
    requires R.Entitled(db, r) && Head(envs).up && Head(Tail(envs)).up
    ensures Serve(db, AskRefund(r), envs) == Alone(db, RefundInsert(r, db.orders[r.order]), Tail(Tail(envs)))
  {
    var row := db.orders[r.order];
    MachineEdges(row.status);
    AloneStep(db, RefundRead(r), envs);
    AloneStep(db, RefundLookup(r, row), Tail(envs));
  }

  /** An entitled refund request that is answered throughout: one row with its
      amount, one reverse, and both rows settled as PVS said. */
  lemma RefundOutcome(db: DB, r: RefundReq, envs: seq<Env>)
    requires R.Entitled(db, r) && |envs| >= 6 && forall i :: 0 <= i < 6 ==> envs[i].up
    ensures var t, ok := Serve(db, AskRefund(r), envs), envs[3].reversed == Some(true);
      && t.events == [AskedReverse(r.no, r.order)]
      && t.db.refunds == db.refunds[r.no := Refund(r.order, r.price, if ok then Success else Failure, envs[2].now)]
      && r.order in t.db.orders && t.db.orders[r.order].status == if ok then RefundPending else RefundFailed
  {
    var e1, e2, e3, e4 := envs[1..], envs[2..], envs[3..], envs[4..];
    assert Tail(envs) == e1 && Tail(e1) == e2 && Tail(e2) == e3 && Tail(e3) == e4 && Tail(e4) == envs[5..];
    EntitledGoesOn(db, r, envs);
    InsertOutcome(db, r, db.orders[r.order], e2);
    AskOutcome(db.(refunds := db.refunds[r.no := Refund(r.order, r.price, Pending, envs[2].now)]), r, e3);
  }

  /** The answer to a refund under way is pending, and success once PVS has
      delivered the reversal. */
  lemma ReversalIsTold(db: DB, no: Text, key: HookKey, envs: seq<Env>)
    requires R.Orderly(db) && no in db.refunds && StatusOfRefund(db, no) == RefundPending
    requires key != ById(EMPTY) && Lookup(db, key) == Some(db.refunds[no].order) && Serial.Answered(envs)
    ensures var gs, t := db.orders[db.refunds[no].order].gs, Serve(db, Webhook(key, Some(Reversed)), envs);
      && R.RefundStatus(db, no, gs, EMPTY) == Some((no, R.AnswerPending))
      && R.RefundStatus(t.db, no, gs, EMPTY) == Some((no, R.AnswerSuccess))
  {
    var id := db.refunds[no].order;
    R.LookupRoutesAgree(db, no);
    R.AnswersMean(db, no);
    AimedMeaning(Some(Reversed), RefundPending);
    DeliveryOutcome(db, key, Some(Reversed), id, envs);
    assert Succeeds(db, SetOrderIf(id, RefundPending, Refunded, NoFields, Head(Tail(envs)).now));
  }

  function StatusOfRefund(db: DB, no: Text): OrderStatus
    requires no in db.refunds && db.refunds[no].order in db.orders
  {
    db.orders[db.refunds[no].order].status
  }

  // ---------------------------------------------------------------- what the machine reads

  /** The codes of POST /order/status, and to whom they are told. */
  lemma CodesMean(db: DB, gs: Text, id: Text)
    ensures id !in db.orders || gs == EMPTY || db.orders[id].gs != gs <==> QueryStatus(db, gs, id) == None
    ensures QueryStatus(db, gs, id).Some? ==>
              var s, code := db.orders[id].status, QueryStatus(db, gs, id).value;
              && (code == 1 <==> s == Received || s == QRRequested || s == QRShown)
              && (code == 2 <==> s == PaymentConfirmed || s == Done)
              && (code == 3 <==> s == Failed || s == Cancelled)
              && (code == 4 <==> s == RefundPending)
              && (code == 5 <==> s == Refunded || s == RefundFailed)
              && (code == 6 <==> s == Timeout)
  {
  }

  /** In every reachable state a machine that reads code 2 has a paid order. */
  lemma CodeTwoIsPaid(s: Sys, gs: Text, id: Text)
    requires Reachable(s) && QueryStatus(s.db, gs, id) == Some(2)
    ensures Confirmed(id) in s.log && s.db.orders[id].paidAt.Some?
  {
    ReachableInv(s);
    CodesMean(s.db, gs, id);
    assert RowOk(s.db.orders[id]);
    PaidIffConfirmed(s, id);
  }
}
