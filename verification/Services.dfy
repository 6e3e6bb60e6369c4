/** The two services, statement by statement over the store.  Each method is
    proved to do exactly what its call does when run alone in the protocol. */
module Services {
  import opened Status
  import opened Tables
  import opened Protocol
  import opened Wording
  import opened Outcomes
  import opened Refunds

  datatype Error = InvalidInput | NotFound | InvalidTransition | NotRefundable | Unavailable | PVSFailed

  datatype Result<+T> = Ok(value: T) | Err(error: Error)

  datatype CreateReply = CreateReply(qrUrl: Text, id: Text)

  class OrderService {
    const store: Store
    var log: seq<Event> // calls made to PVS and GS, and milestones

    constructor (store: Store)
      ensures this.store == store && log == []
    {
      this.store := store;
      log := [];
    }

    /** The tables and the log are now what `t` says, started from `before`. */
    twostate predicate Did(before: seq<Event>, t: Trace)
      reads this, store
    {
      store.State() == t.db && log == before + t.events
    }

    /** Ask PVS for the QR of a new order and show it, or mark the order failed. */
    method ShowQR(req: CreateReq, id: Text, envs: seq<Env>) returns (r: Result<CreateReply>)
      modifies this`log, store
      ensures Did(old(log), Alone(old(store.State()), CreateAsk(req, id), envs))
      ensures Replied(Alone(old(store.State()), CreateAsk(req, id), envs).events, req.gs, r)
      ensures r != Err(InvalidInput)
    {
      AloneStep(store.State(), CreateAsk(req, id), envs);
      log := log + [AskedQR(req.gs, id)];
      var qr, e := Head(envs).qr, Head(Tail(envs));
      if qr.None? {
        AloneStep(store.State(), CreateFail(id), Tail(envs));
        var _ := store.UpdateStatusAndFields(id, Failed, NoFields, e.now, e.up);
        return Err(PVSFailed);
      }
      AloneStep(store.State(), CreateShow(req, id, qr.value), Tail(envs));
      var shown := store.UpdateStatusAndFields(id, QRShown, QRFields(qr.value.id, qr.value.image, e.now + QR_EXPIRY), e.now, e.up);
      if !shown {
        return Err(Unavailable);
      }
      log := log + [Shown(id), ReplyQR(req.gs, id, qr.value.image)];
      return Ok(CreateReply(qr.value.image, id));
    }

    method NewOrder(req: CreateReq, id: Text, envs: seq<Env>) returns (r: Result<CreateReply>)
      modifies this`log, store
      ensures Did(old(log), Alone(old(store.State()), CreateInsert(req, id), envs))
      ensures Replied(Alone(old(store.State()), CreateInsert(req, id), envs).events, req.gs, r)
      ensures r != Err(InvalidInput)
    {
      var e := Head(envs);
      AloneStep(store.State(), CreateInsert(req, id), envs);
      var created := store.Create(id, NewRow(req, e.now), e.up);
      if !created {
        return Err(Unavailable);
      }
      r := ShowQR(req, id, Tail(envs));
    }

    method CreateOrder(req: CreateReq, envs: seq<Env>) returns (r: Result<CreateReply>)
      requires KeysUnique(store.State())
      modifies this`log, store
      ensures Did(old(log), Serve(old(store.State()), Create(req), envs))
      ensures Replied(Serve(old(store.State()), Create(req), envs).events, req.gs, r)
      ensures r == Err(InvalidInput) <==> req.gs == EMPTY || req.notifyUrl == EMPTY || req.price <= 0
      ensures forall id :: Filled(req) && Head(envs).up && Answers(old(store.orders), req.gs, id) ==>
                && r == Ok(CreateReply(old(store.orders)[id].qrImage, id))
                && store.State() == old(store.State()) && log == old(log) + [ReplyQR(req.gs, id, old(store.orders)[id].qrImage)]
    {
      forall id | Filled(req) && Head(envs).up && Answers(store.orders, req.gs, id) {
        RepeatedCreate(store.State(), req, id, envs);
      }
      if req.gs == EMPTY || req.notifyUrl == EMPTY || req.price <= 0 {
        return Err(InvalidInput);
      }
      var e := Head(envs);
      var existing := store.GetByGsOrderNo(req.gs);
      if e.up && existing.Some? && store.orders[existing.value].qrImage != EMPTY {
        var image := store.orders[existing.value].qrImage;
        log := log + [ReplyQR(req.gs, existing.value, image)];
        return Ok(CreateReply(image, existing.value));
      }
      r := NewOrder(req, e.freshId, Tail(envs));
    }

    /** Tell GS about a confirmed payment, best effort; returns the order as the
        caller sees it afterwards. */
    method NotifyPaymentIfNeeded(id: Text, order: Row, envs: seq<Env>) returns (after: Row)
      modifies this`log, store
      ensures Did(old(log), Alone(old(store.State()), NotifyAsk(id, order), envs))
      ensures after.(notifiedAt := order.notifiedAt) == order
      ensures after.notifiedAt.Some? <==> order.notifiedAt.Some? || NoticeLands(old(store.State()), id, order, envs)
      ensures IsConfirmed(old(store.orders), id) ==> IsConfirmed(store.orders, id)
      ensures Head(envs).returnCode.None? || (Head(envs).returnCode.value != "" && Head(envs).returnCode.value != "success") ==>
                store.State() == old(store.State()) && after == order
      ensures Untold(order) && Head(Tail(envs)).up && id in old(store.orders)
              && (Head(envs).returnCode == Some("") || Head(envs).returnCode == Some("success")) ==>
                && after.notifiedAt == Some(Head(Tail(envs)).now)
                && id in store.orders && store.orders[id].notifiedAt == Some(Head(Tail(envs)).now)
    {
      after := order;
      if order.notifyUrl == EMPTY || order.notifiedAt.Some? {
        return;
      }
      if order.status != PaymentConfirmed {
        return;
      }
      log := log + [AskedNotify(id)];
      if !Accepted(Head(envs)) {
        return;
      }
      var e := Head(Tail(envs));
      AloneStep(store.State(), NotifyWrite(id), Tail(envs));
      var marked := store.UpdateStatusAndFields(id, order.status, NotifiedField(e.now), e.now, e.up);
      if !marked {
        return;
      }
      after := after.(notifiedAt := Some(e.now));
    }

    /** The conditional write of a delivery that passed the table check, and the
        notice to GS if this write confirmed the payment. */
    method Deliver(id: Text, ghost key: HookKey, told: PVSStatus, seen: Row, to: OrderStatus, envs: seq<Env>)
        returns (r: Result<bool>)
      requires WebhookTarget(told, seen.status) == Some(to)
      modifies this`log, store
      ensures Did(old(log), Alone(old(store.State()), HookWrite(id, key, told, seen), envs))
      ensures r == Ok(true) <==>
              Head(envs).up && Succeeds(old(store.State()), SetOrderIf(id, seen.status, to, NoFields, Head(envs).now))
      ensures if r == Ok(true) then id in store.orders && store.orders[id].status == to else store.State() == old(store.State())
      ensures r.Err? ==> r == Err(Unavailable)
    {
      var e := Head(envs);
      DeliveryWrites(store.State(), id, key, told, seen, to, envs);
      var updated := store.UpdateStatusGuardedAndFields(id, seen.status, to, PaidPatch(to, e.now), e.now, e.up);
      if !e.up { return Err(Unavailable); }
      if !updated { return Ok(false); }
      if to == PaymentConfirmed {
        log := log + [Confirmed(id)];
        var _ := NotifyPaymentIfNeeded(id, SeenPaid(seen, e.now), Tail(envs));
      }
      return Ok(true);
    }

    /** A delivery for a known order: what it says, and whether the table allows it. */
    method Decide(id: Text, ghost key: HookKey, told: Option<PVSStatus>, envs: seq<Env>) returns (r: Result<bool>)
      requires Lookup(store.State(), key) == Some(id) && id in store.orders && Head(envs).up
      modifies this`log, store
      ensures Did(old(log), Alone(old(store.State()), HookRead(key, told), envs))
      ensures (r == Err(InvalidInput) <==> told.None?) && r != Err(NotFound)
      ensures if r == Ok(true)
              then id in store.orders && CanTransitionTo(old(store.orders)[id].status, store.orders[id].status)
              else store.State() == old(store.State())
    {
      AloneStep(store.State(), HookRead(key, told), envs);
      DeliveryRead(store.State(), key, told, id, Head(envs));
      var order := store.orders[id];
      if told.None? { return Err(InvalidInput); }
      var to := WebhookTarget(told.value, order.status);
      if to.None? { return Ok(false); }
      if !CanTransitionTo(order.status, to.value) { return Ok(false); }
      r := Deliver(id, key, told.value, order, to.value, Tail(envs));
    }

    method HandlePVSWebhook(qrId: Text, reference: Text, text: string, stateId: int, envs: seq<Env>)
        returns (r: Result<bool>)
      requires KeysUnique(store.State())
      modifies this`log, store
      ensures var key := if qrId != EMPTY then ByQR(qrId) else ById(reference);
        var hit := Lookup(old(store.State()), key);
        && Did(old(log), Serve(old(store.State()), Webhook(key, ResolveWebhookStatus(text, stateId)), envs))
        && (r == Err(NotFound) <==> key != ById(EMPTY) && Head(envs).up && hit.None?)
        && (r == Err(InvalidInput) <==>
              key == ById(EMPTY) || (Head(envs).up && hit.Some? && !Understood(text, stateId)))
        && (hit.Some? && key != ById(EMPTY) && Head(envs).up && Head(Tail(envs)).up ==>
              && hit.value in old(store.orders)
              && Heard(old(store.orders), store.orders, hit.value, text, stateId, Head(Tail(envs)).now))
        && (if r == Ok(true)
            then hit.Some? && hit.value in store.orders
                 && CanTransitionTo(old(store.orders)[hit.value].status, store.orders[hit.value].status)
            else store.State() == old(store.State()))
    {
      var e := Head(envs);
      ghost var key := if qrId != EMPTY then ByQR(qrId) else ById(reference);
      AloneStep(store.State(), HookRead(key, ResolveWebhookStatus(text, stateId)), envs);
      var hit;
      if qrId != EMPTY {
        hit := store.GetByPVSQrID(qrId);
      } else if reference != EMPTY {
        hit := if reference in store.orders then Some(reference) else None;
      } else {
        return Err(InvalidInput);
      }
      TextMeaning(text, stateId);
      if !e.up { return Err(Unavailable); }
      if hit.None? { return Err(NotFound); }
      if Head(Tail(envs)).up { HearingOutcome(store.State(), key, text, stateId, hit.value, envs); }
      r := Decide(hit.value, key, ResolveWebhookStatus(text, stateId), envs);
    }

    method CompleteOrder(id: Text, gs: Text, success: bool, outStock: int, envs: seq<Env>) returns (r: Result<()>)
      modifies this`log, store
      ensures Did(old(log), Serve(old(store.State()), Complete(id, gs, success, outStock), envs))
      ensures r.Ok? ==>
                && id in old(store.orders)
                && store.orders == old(store.orders)[id := CompletedRow(old(store.orders)[id], success, Head(envs).now, Head(Tail(envs)).now)]
      ensures r.Err? ==> store.State() == old(store.State())
      ensures r == Err(InvalidInput) <==>
              id == EMPTY || gs == EMPTY
              || (Head(envs).up && id in old(store.orders) && (old(store.orders)[id].gs != gs || (success && outStock != 2)))
      ensures r == Err(NotFound) <==> id != EMPTY && gs != EMPTY && Head(envs).up && id !in old(store.orders)
      ensures r == Err(InvalidTransition) <==>
              Head(envs).up && id != EMPTY && gs != EMPTY && id in old(store.orders) && old(store.orders)[id].gs == gs && (success ==> outStock == 2)
              && !CompletionFits(old(store.orders)[id].status, success, outStock)
    {
      if id in store.orders { MachineEdges(store.orders[id].status); }
      AloneStep(store.State(), CompleteRead(id, gs, success, outStock), envs);
      if Head(envs).up { CompletionRead(store.State(), id, gs, success, outStock, Head(envs)); }
      var e := Head(envs);
      if gs == EMPTY || id == EMPTY { return Err(InvalidInput); }
      if !e.up { return Err(Unavailable); }
      if id !in store.orders { return Err(NotFound); }
      var order := store.orders[id];
      if order.gs != gs { return Err(InvalidInput); }
      var to, fields;
      if success && outStock == STOCK_OUT_OK {
        to, fields := Done, CompletedField(e.now);
      } else if !success {
        to, fields := Failed, FailureField(COMPLETE_FAILED);
      } else {
        return Err(InvalidInput);
      }
      if !CanTransitionTo(order.status, to) { return Err(InvalidTransition); }
      var e' := Head(Tail(envs));
      AloneStep(store.State(), CompleteWrite(id, to, fields), Tail(envs));
      var written := store.UpdateStatusAndFields(id, to, fields, e'.now, e'.up);
      r := if written then Ok(()) else Err(Unavailable);
    }

    method CancelOrder(id: Text, gs: Text, remark: Text, envs: seq<Env>) returns (r: Result<()>)
      modifies this`log, store
      ensures Did(old(log), Serve(old(store.State()), Cancel(id, gs, remark), envs))
      ensures r.Ok? ==>
                && id in old(store.orders)
                && (|| old(store.orders)[id].status == Cancelled
                    || store.orders == old(store.orders)[id := CancelledRow(old(store.orders)[id], remark, Head(envs).now, Head(Tail(envs)).now)])
      ensures r == Err(InvalidInput) <==>
              id == EMPTY || gs == EMPTY || (Head(envs).up && id in old(store.orders) && old(store.orders)[id].gs != gs)
      ensures r == Err(NotFound) <==> id != EMPTY && gs != EMPTY && Head(envs).up && id !in old(store.orders)
      ensures r.Err? ==> store.State() == old(store.State())
      ensures (Head(envs).up && id != EMPTY && gs != EMPTY && id in old(store.orders) && old(store.orders)[id].gs == gs
               && old(store.orders)[id].status == Cancelled) ==> r == Ok(()) && store.State() == old(store.State())
      ensures r == Err(InvalidTransition) <==>
              Head(envs).up && id != EMPTY && gs != EMPTY && id in old(store.orders) && old(store.orders)[id].gs == gs
              && old(store.orders)[id].status != Cancelled && old(store.orders)[id].status != QRShown && old(store.orders)[id].status != PaymentConfirmed
    {
      if id in store.orders { MachineEdges(store.orders[id].status); }
      AloneStep(store.State(), CancelRead(id, gs, remark), envs);
      CancellationWrites(store.State(), id, remark, Head(envs).now, Head(Tail(envs)).now);
      if Head(envs).up { CancellationRead(store.State(), id, gs, remark, Head(envs)); }
      var e := Head(envs);
      if gs == EMPTY || id == EMPTY { return Err(InvalidInput); }
      if !e.up { return Err(Unavailable); }
      if id !in store.orders { return Err(NotFound); }
      var order := store.orders[id];
      if order.gs != gs { return Err(InvalidInput); }
      if order.status == Cancelled { return Ok(()); }
      if !CanTransitionTo(order.status, Cancelled) { return Err(InvalidTransition); }
      var fields, e' := CancelFields(e.now, remark), Head(Tail(envs));
      AloneStep(store.State(), CancelWrite(id, fields), Tail(envs));
      var written := store.UpdateStatusAndFields(id, Cancelled, fields, e'.now, e'.up);
      r := if written then Ok(()) else Err(Unavailable);
    }
  }

  class RefundService {
    const store: Store
    var log: seq<Event>

    constructor (store: Store)
      ensures this.store == store && log == []
    {
      this.store := store;
      log := [];
    }

    twostate predicate Did(before: seq<Event>, t: Trace)
      reads this, store
    {
      store.State() == t.db && log == before + t.events
    }

    /** PVS answered a reverse: two best-effort statements, in the order of its answer. */
    method Settle(r: RefundReq, ok: bool, envs: seq<Env>)
      modifies store
      ensures Trace(store.State(), []) == Alone(old(store.State()), RefundSettle(r, ok), envs)
    {
      var e, e' := Head(envs), Head(Tail(envs));
      AloneStep(store.State(), RefundSettle(r, ok), envs);
      if ok {
        var _ := store.UpdateStatusAndFields(r.order, RefundPending, NoFields, e.now, e.up);
        var _ := store.UpdateRefund(r.no, Success, e'.up);
      } else {
        var _ := store.UpdateRefund(r.no, Failure, e.up);
        var _ := store.UpdateStatusAndFields(r.order, RefundFailed, NoFields, e'.now, e'.up);
      }
    }

    /** A refund that passed the checks: insert its row, ask PVS, settle. */
    method Reverse(r: RefundReq, order: Row, envs: seq<Env>) returns (answer: Result<Answer>)
      requires CanTransitionTo(order.status, RefundPending)
      modifies this`log, store
      ensures Did(old(log), Alone(old(store.State()), RefundInsert(r, order), envs))
      ensures Told(log[|old(log)|..], r, Head(Tail(envs)).reversed, answer)
      ensures answer.Err? ==> answer.error == Unavailable || answer.error == PVSFailed
    {
      var e, e' := Head(envs), Head(Tail(envs));
      AloneStep(store.State(), RefundInsert(r, order), envs);
      var created := store.CreateRefund(r.no, Tables.Refund(r.order, r.price, Pending, e.now), e.up);
      if !created { return Err(Unavailable); }
      AloneStep(store.State(), RefundAsk(r), Tail(envs));
      log := log + [AskedReverse(r.no, r.order)];
      Settle(r, e'.reversed == Some(true), Tail(Tail(envs)));
      if e'.reversed.None? { return Err(PVSFailed); }
      return Ok(MapForRefund(order.status, if e'.reversed.value then Success else Failure));
    }

    /** An earlier request with this number decides the answer; otherwise the
        order must be refundable and paid. */
    method Check(r: RefundReq, order: Row, envs: seq<Env>) returns (answer: Result<Answer>)
      modifies this`log, store
      ensures Did(old(log), Alone(old(store.State()), RefundLookup(r, order), envs))
      ensures r.no in old(store.refunds) ==> Repeated(old(store.State()), store.State(), r, order, answer)
      ensures r.no !in old(store.refunds) ==> Told(log[|old(log)|..], r, Head(Tail(Tail(envs))).reversed, answer)
      ensures answer != Err(InvalidInput) && answer != Err(NotFound)
      ensures answer == Err(NotRefundable) <==> Head(envs).up && r.no !in old(store.refunds) && !Refundable(order)
    {
      AloneStep(store.State(), RefundLookup(r, order), envs);
      if !Head(envs).up { return Err(Unavailable); }
      if r.no in store.refunds { return Ok(MapForRefund(order.status, store.refunds[r.no].state)); }
      if !CanTransitionTo(order.status, RefundPending) { return Err(NotRefundable); }
      if order.paidAt.None? { return Err(NotRefundable); }
      answer := Reverse(r, order, Tail(envs));
    }

    method Refund(r: RefundReq, envs: seq<Env>) returns (answer: Result<Answer>)
      modifies this`log, store
      ensures Did(old(log), Serve(old(store.State()), AskRefund(r), envs))
      ensures r.order in old(store.orders) && r.no in old(store.refunds) ==>
                Repeated(old(store.State()), store.State(), r, old(store.orders)[r.order], answer)
      ensures r.no !in old(store.refunds) ==> Told(log[|old(log)|..], r, Head(Tail(Tail(Tail(envs)))).reversed, answer)
      ensures answer == Err(InvalidInput) <==>
              r.no == EMPTY || r.gs == EMPTY || r.order == EMPTY || r.price <= 0
              || (Head(envs).up && r.order in old(store.orders) && old(store.orders)[r.order].gs != r.gs)
      ensures answer == Err(NotFound) <==>
              r.no != EMPTY && r.gs != EMPTY && r.order != EMPTY && r.price > 0 && Head(envs).up && r.order !in old(store.orders)
      ensures answer == Err(NotRefundable) ==>
                r.order in old(store.orders) && r.no !in old(store.refunds) && !Refundable(old(store.orders)[r.order])
    {
      if r.no == EMPTY || r.gs == EMPTY || r.order == EMPTY || r.price <= 0 { return Err(InvalidInput); }
      if !Head(envs).up { return Err(Unavailable); }
      if r.order !in store.orders { return Err(NotFound); }
      var order := store.orders[r.order];
      if order.gs != r.gs { return Err(InvalidInput); }
      answer := Check(r, order, Tail(envs));
    }
  }

  predicate IsConfirmed(orders: map<Text, Row>, id: Text) {
    id in orders && orders[id].status == PaymentConfirmed
  }

  predicate Refundable(order: Row) {
    (order.status == PaymentConfirmed || order.status == Done || order.status == Failed) && order.paidAt.Some?
  }

  /** The row that answers a repeated request of this machine. */
  predicate Answers(orders: map<Text, Row>, gs: Text, id: Text) {
    id in orders && orders[id].gs == gs && orders[id].qrImage != EMPTY
  }

  /** What a delivery does to the orders, in the words of PVS: its order takes the
      status told, and with a confirmation the payment moment; no other order changes. */
  predicate Heard(before: map<Text, Row>, after: map<Text, Row>, id: Text, text: string, stateId: int, now: Time)
    requires id in before
  {
    var s := before[id].status;
    && id in after && after[id].status == StatusTold(s, text, stateId) && after - {id} == before - {id}
    && after[id].paidAt == if s == QRShown && SaysApproved(text, stateId) then Some(now) else before[id].paidAt
  }

  lemma HearingOutcome(db: DB, key: HookKey, text: string, stateId: int, id: Text, envs: seq<Env>)
    requires key != ById(EMPTY) && Lookup(db, key) == Some(id) && id in db.orders && Head(envs).up && Head(Tail(envs)).up
    ensures Heard(db.orders, Serve(db, Webhook(key, ResolveWebhookStatus(text, stateId)), envs).db.orders, id, text, stateId,
                  Head(Tail(envs)).now)
  {
    var told, s := ResolveWebhookStatus(text, stateId), db.orders[id].status;
    DeliveryOutcome(db, key, told, id, envs);
    ToldMeaning(s, text, stateId);
    ConfirmationIsApproval(s, text, stateId);
    if Aimed(told, s).Some? { GuardedOutcome(db, id, Aimed(told, s).value, Tail(envs)); }
  }

  lemma ConfirmationIsApproval(s: OrderStatus, text: string, stateId: int)
    ensures Aimed(ResolveWebhookStatus(text, stateId), s) == Some(PaymentConfirmed) <==> s == QRShown && SaysApproved(text, stateId)
  {
    TextMeaning(text, stateId);
    AimedMeaning(ResolveWebhookStatus(text, stateId), s);
  }

  /** The machine hears what PVS said to the reverse; without a reverse it gets
      some other error. */
  predicate Told(es: seq<Event>, r: RefundReq, reversed: Option<bool>, answer: Result<Answer>) {
    if es == [] then answer.Err? && answer.error != PVSFailed
    else
      && es == [AskedReverse(r.no, r.order)]
      && answer == if reversed.None? then Err(PVSFailed) else if reversed.value then Ok(AnswerWaiting) else Ok(AnswerFail)
  }

  /** A repeated refund number changes nothing, and is answered from its row. */
  predicate Repeated(before: DB, after: DB, r: RefundReq, order: Row, answer: Result<Answer>)
    requires r.no in before.refunds
  {
    var state := before.refunds[r.no].state;
    var told := if order.status == Refunded then AnswerSuccess else if state == Success then AnswerWaiting else AnswerFail;
    after == before && (answer.Ok? ==> answer.value == told)
  }

  /** A machine's answer is the one QR reply of its call, or an error without one. */
  predicate Replied(es: seq<Event>, gs: Text, r: Result<CreateReply>) {
    match r
    case Ok(c) => es != [] && es[|es| - 1] == ReplyQR(gs, c.id, c.qrUrl)
    case Err(_) => forall k :: 0 <= k < |es| ==> !es[k].ReplyQR?
  }

  /** GS accepts the notice and the mark is written. */
  ghost predicate NoticeLands(db: DB, id: Text, order: Row, envs: seq<Env>) {
    && order.notifyUrl != EMPTY && order.notifiedAt.None? && order.status == PaymentConfirmed
    && Accepted(Head(envs)) && Head(Tail(envs)).up && id in db.orders
  }
}
