/** What survives when any number of deliveries, corrections, notices, machine
    calls and refunds interleave step by step, conditional and unconditional
    writes alike. */
module Interleaved {
  import opened Status
  import opened Tables
  import opened Protocol

  // ---------------------------------------------------------------- the invariant

  /** Statuses only a paid order has, and those of an order without a QR. */
  predicate PaidStatus(s: OrderStatus) {
    s == PaymentConfirmed || s == Done || s == RefundFailed
  }

  predicate UnshownStatus(s: OrderStatus) {
    s == Received || s == Failed || s == RefundPending || s == Refunded
  }

  /** A row whose QR was never shown is unpaid and in an early or failed status;
      a shown row never has the code of a pending order unless it awaits payment. */
  predicate RowOk(r: Row) {
    && r.gs != EMPTY && r.notifyUrl != EMPTY
    && (PaidStatus(r.status) ==> r.paidAt.Some?)
    && (r.status == QRShown ==> r.paidAt.None?)
    && (r.notifiedAt.Some? ==> r.paidAt.Some?)
    && (r.qrId.None? ==> r.paidAt.None? && r.qrImage == EMPTY && UnshownStatus(r.status))
    && (r.qrId.Some? ==> r.status != Received && r.status != QRRequested)
  }

  ghost predicate DbOk(db: DB) {
    && KeysUnique(db)
    && forall id :: id in db.orders ==> RowOk(db.orders[id])
  }

  predicate PaidIn(db: DB, id: Text) {
    id in db.orders && db.orders[id].paidAt.Some?
  }

  predicate ShownIn(db: DB, id: Text) {
    id in db.orders && db.orders[id].qrId.Some?
  }

  predicate Unshown(db: DB, id: Text, gs: Text) {
    id in db.orders && db.orders[id].qrId.None? && db.orders[id].gs == gs
  }

  /** What a call in flight knows, stale snapshot included. */
  ghost predicate ActorOk(db: DB, a: Actor) {
    match a
    case CreateRead(req) => req.gs != EMPTY && req.notifyUrl != EMPTY
    case CreateInsert(req, id) => req.gs != EMPTY && req.notifyUrl != EMPTY && id !in db.orders
    case CreateAsk(req, id) => Unshown(db, id, req.gs)
    case CreateShow(req, id, _) => Unshown(db, id, req.gs)
    case CreateFail(id) => id in db.orders && db.orders[id].qrId.None?
    case HookWrite(id, key, told, seen) =>
      && Named(db, key, id)
      && WebhookTarget(told, seen.status).Some?
      && CanTransitionTo(seen.status, WebhookTarget(told, seen.status).value)
    case FixAsk(id, seen) => id in db.orders
    case FixWrite(id, seen, state) => id in db.orders && CorrectionTarget(seen.status, state).Some?
    case RetryCheck(id, seen) => PaidIn(db, id)
    case NotifyAsk(id, seen) => PaidIn(db, id)
    case NotifyWrite(id) => PaidIn(db, id)
    case CompleteWrite(id, to, p) =>
      id in db.orders && (to == Done || to == Failed) && (to == Done ==> PaidIn(db, id)) && (p.CompletedField? || p.FailureField?)
    case CancelWrite(id, p) => ShownIn(db, id) && p.CancelFields?
    case RefundLookup(r, seen) => r.order in db.orders && (seen.paidAt.Some? ==> PaidIn(db, r.order))
    case RefundInsert(r, seen) => PaidIn(db, r.order)
    case RefundAsk(r) => PaidIn(db, r.order) && r.no in db.refunds
    case RefundSettle(r, _) => PaidIn(db, r.order)
    case RefundSettle2(r, _) => PaidIn(db, r.order)
    case _ => true
  }

  /** The order a delivery names. */
  predicate Named(db: DB, key: HookKey, id: Text) {
    id in db.orders && (if key.ById? then key.id == id else db.orders[id].qrId == Some(key.q))
  }

  predicate Creating(a: Actor) {
    a.CreateInsert? || a.CreateAsk? || a.CreateShow? || a.CreateFail?
  }

  /** What an event says about the tables ever after. */
  predicate Happened(db: DB, e: Event) {
    match e
    case AskedQR(gs, id) => id in db.orders && db.orders[id].gs == gs
    case AskedReverse(no, id) => no in db.refunds && PaidIn(db, id)
    case AskedNotify(id) => PaidIn(db, id)
    case Shown(id) => ShownIn(db, id)
    case Confirmed(id) => PaidIn(db, id)
    case ReplyQR(gs, id, url) => ShownIn(db, id) && db.orders[id].gs == gs && db.orders[id].qrImage == url
  }

  /** Pairs of events that must not both be in a log: a second QR request for
      one machine order, a second reverse for one refund number, a second
      showing or confirmation of one order, two different answers to one machine. */
  predicate Clash(e: Event, f: Event) {
    match (e, f)
    case (AskedQR(g, _), AskedQR(h, _)) => g == h
    case (AskedReverse(m, _), AskedReverse(n, _)) => m == n
    case (Shown(i), Shown(j)) => i == j
    case (Confirmed(i), Confirmed(j)) => i == j
    case (ReplyQR(g, i, u), ReplyQR(h, j, v)) => g == h && (i != j || u != v)
    case _ => false
  }

  ghost predicate LogOk(db: DB, log: seq<Event>) {
    && (forall k :: 0 <= k < |log| ==> Happened(db, log[k]))
    && (forall k, l :: 0 <= k < l < |log| ==> !Clash(log[k], log[l]))
    && (forall id :: PaidIn(db, id) ==> Confirmed(id) in log)
    && (forall id :: ShownIn(db, id) ==> Shown(id) in log)
  }

  /** A request still to be made is not in the log yet. */
  ghost predicate NotYet(log: seq<Event>, a: Actor) {
    && (a.CreateAsk? ==> forall k :: 0 <= k < |log| ==> !(log[k].AskedQR? && log[k].id == a.id))
    && (a.RefundAsk? ==> forall k :: 0 <= k < |log| ==> !(log[k].AskedReverse? && log[k].no == a.refund.no))
  }

  /** Two calls never create the same order nor reverse for the same refund number. */
  predicate Apart(a: Actor, b: Actor) {
    && (Creating(a) && Creating(b) ==> a.id != b.id)
    && (a.RefundAsk? && b.RefundAsk? ==> a.refund.no != b.refund.no)
  }

  /** A call in flight and what it knows, in one system state. */
  ghost predicate InFlightOk(s: Sys, a: Actor) {
    && ActorOk(s.db, a) && NotYet(s.log, a)
    && (Creating(a) ==> a.id in s.issued)
  }

  ghost predicate AllApart(s: Sys) {
    forall p, q :: p in s.actors && q in s.actors && p != q ==> Apart(s.actors[p], s.actors[q])
  }

  ghost predicate Inv(s: Sys) {
    && DbOk(s.db) && LogOk(s.db, s.log)
    && s.db.orders.Keys <= s.issued && EMPTY !in s.issued
    && (forall p :: p in s.actors ==> InFlightOk(s, s.actors[p]))
    && AllApart(s)
  }

  // ---------------------------------------------------------------- what a step does to the tables

  /** A row keeps its machine number, and its QR, payment and notice marks once there;
      only the creator of an order gives it a QR. Once past waiting for payment
      it never waits again. */
  predicate RowGrows(r: Row, r': Row, a: Actor, id: Text) {
    && r'.gs == r.gs
    && (r.qrId.Some? ==> r'.qrId == r.qrId && r'.qrImage == r.qrImage)
    && (r.paidAt.Some? ==> r'.paidAt == r.paidAt)
    && (r.notifiedAt.Some? ==> r'.notifiedAt.Some?)
    && (r.qrId.None? && r'.qrId.Some? ==> a.CreateShow? && a.id == id)
    && (r.qrId.Some? && r.status != QRShown ==> r'.status != QRShown)
  }

  /** Rows stay and only grow; only the creator of an order inserts it, and only
      a refund call inserts its refund. */
  ghost predicate Grows(db: DB, a: Actor, db': DB) {
    && (forall id :: id in db.orders ==> id in db'.orders && RowGrows(db.orders[id], db'.orders[id], a, id))
    && (forall id :: id in db'.orders && id !in db.orders ==> a.CreateInsert? && a.id == id)
    && db.refunds.Keys <= db'.refunds.Keys
    && (forall no :: no in db'.refunds && no !in db.refunds ==> a.RefundInsert? && a.refund.no == no)
  }

  predicate HarmlessPut(r: Row, a: Actor, id: Text, status: OrderStatus, p: Patch) {
    var r' := WithPatch(r, p).(status := status);
    RowOk(r') && RowGrows(r, r', a, id)
  }

  /** A statement that this call may issue without harm to any other. */
  predicate Harmless(db: DB, a: Actor, w: Write) {
    match w
    case NoWrite => true
    case InsertOrder(id, row) => RowOk(row) && row.qrId.None? && a.CreateInsert? && a.id == id
    case SetOrder(id, status, p, now) => id in db.orders ==> HarmlessPut(db.orders[id], a, id, status, p)
    case SetOrderIf(id, e, status, p, now) =>
      id in db.orders && db.orders[id].status == e ==> HarmlessPut(db.orders[id], a, id, status, p)
    case InsertRefund(no, r) => a.RefundInsert? && a.refund.no == no
    case SetRefund(no, st) => true
  }

  lemma PutGrows(db: DB, a: Actor, id: Text, status: OrderStatus, p: Patch, now: Time)
    requires id in db.orders && HarmlessPut(db.orders[id], a, id, status, p)
    ensures Grows(db, a, Put(db, id, status, p, now)) && RowOk(Put(db, id, status, p, now).orders[id])
  {
    var r, r' := db.orders[id], Put(db, id, status, p, now).orders[id];
    assert r' == WithPatch(r, p).(status := status).(updatedAt := now);
    assert RowOk(r') && RowGrows(r, r', a, id);
  }

  lemma HarmlessGrows(db: DB, a: Actor, w: Write)
    requires DbOk(db) && Harmless(db, a, w)
    ensures DbOk(Perform(db, w)) && Grows(db, a, Perform(db, w))
  {
    PerformKeepsKeys(db, w);
    if Succeeds(db, w) {
      match w
      case SetOrder(id, status, p, now) => PutGrows(db, a, id, status, p, now);
      case SetOrderIf(id, _, status, p, now) => PutGrows(db, a, id, status, p, now);
      case _ =>
    }
  }

  // ---------------------------------------------------------------- one step keeps the invariant

  /** The edges that conditional writes follow. */
  predicate ConditionalEdge(from: OrderStatus, to: OrderStatus) {
    && (to == PaymentConfirmed ==> from == QRShown)
    && (to == Timeout ==> from == QRShown)
    && (to == PaymentConfirmed || to == Timeout || to == Failed || to == RefundPending || to == Refunded)
  }

  lemma WebhookEdge(told: PVSStatus, from: OrderStatus)
    requires WebhookTarget(told, from).Some? && CanTransitionTo(from, WebhookTarget(told, from).value)
    ensures ConditionalEdge(from, WebhookTarget(told, from).value)
  {
  }

  lemma RowConditional(r: Row, a: Actor, id: Text, to: OrderStatus, now: Time)
    requires RowOk(r) && ConditionalEdge(r.status, to)
    ensures HarmlessPut(r, a, id, to, PaidPatch(to, now))
  {
  }

  lemma ConditionalHarmless(db: DB, a: Actor, id: Text, seen: Row, to: OrderStatus, env: Env)
    requires DbOk(db) && id in db.orders && ConditionalEdge(seen.status, to)
    ensures var o := Conditional(db, id, seen, to, env);
      var db' := Perform(db, o.write);
      && Harmless(db, a, o.write)
      && (o.next.Some? ==> o.next.value.NotifyAsk? && o.next.value.id == id && PaidIn(db', id) && o.events == [Confirmed(id)])
      && (o.events != [] ==> o.next.Some? && !PaidIn(db, id))
  {
    if db.orders[id].status == seen.status {
      RowConditional(db.orders[id], a, id, to, env.now);
    }
  }

  lemma GuardedHarmless(db: DB, a: Actor, env: Env)
    requires DbOk(db) && ActorOk(db, a) && (a.HookWrite? || a.FixWrite?)
    ensures Harmless(db, a, Advance(db, a, env).write)
  {
    match a
    case HookWrite(id, key, told, seen) =>
      WebhookEdge(told, seen.status);
      ConditionalHarmless(db, a, id, seen, WebhookTarget(told, seen.status).value, env);
    case FixWrite(id, seen, state) =>
      ConditionalHarmless(db, a, id, seen, CorrectionTarget(seen.status, state).value, env);
  }

  lemma CreateHarmless(db: DB, a: Actor, env: Env)
    requires DbOk(db) && ActorOk(db, a)
    requires a.CreateRead? || a.CreateInsert? || a.CreateAsk? || a.CreateShow? || a.CreateFail?
    ensures Harmless(db, a, Advance(db, a, env).write)
  {
  }

  lemma RefundHarmless(db: DB, a: Actor, env: Env)
    requires DbOk(db) && ActorOk(db, a)
    requires a.RefundRead? || a.RefundLookup? || a.RefundInsert? || a.RefundAsk? || a.RefundSettle? || a.RefundSettle2?
    ensures Harmless(db, a, Advance(db, a, env).write)
  {
  }

  lemma BlindHarmless(db: DB, a: Actor, env: Env)
    requires DbOk(db) && ActorOk(db, a)
    requires a.HookRead? || a.FixAsk? || a.RetryCheck? || a.NotifyAsk? || a.NotifyWrite?
             || a.CompleteRead? || a.CompleteWrite? || a.CancelRead? || a.CancelWrite?
    ensures Harmless(db, a, Advance(db, a, env).write)
  {
  }

  lemma AdvanceHarmless(db: DB, a: Actor, env: Env)
    requires DbOk(db) && ActorOk(db, a)
    ensures Harmless(db, a, Advance(db, a, env).write)
  {
    if a.HookWrite? || a.FixWrite? {
      GuardedHarmless(db, a, env);
    } else if a.CreateRead? || a.CreateInsert? || a.CreateAsk? || a.CreateShow? || a.CreateFail? {
      CreateHarmless(db, a, env);
    } else if a.RefundRead? || a.RefundLookup? || a.RefundInsert? || a.RefundAsk? || a.RefundSettle? || a.RefundSettle2? {
      RefundHarmless(db, a, env);
    } else {
      BlindHarmless(db, a, env);
    }
  }

  /** A call's next state, and its events, are in order after its step. */
  ghost predicate OutcomeOk(db: DB, o: Outcome) {
    var db' := Perform(db, o.write);
    && (o.next.Some? ==> ActorOk(db', o.next.value))
    && (forall k :: 0 <= k < |o.events| ==> Happened(db', o.events[k]))
  }

  lemma EdgeInto(from: OrderStatus, to: OrderStatus)
    requires CanTransitionTo(from, to)
    ensures to == Done ==> from == PaymentConfirmed
    ensures to == Cancelled ==> from == QRShown || from == PaymentConfirmed
  {
  }

  lemma LookupOk(db: DB, a: Actor, env: Env)
    requires DbOk(db) && (a.CreateRead? || a.HookRead?) && ActorOk(db, a)
    requires a.CreateRead? ==> env.freshId !in db.orders
    ensures OutcomeOk(db, Advance(db, a, env))
  {
  }

  lemma MachineReadOk(db: DB, a: Actor, env: Env)
    requires DbOk(db) && (a.CompleteRead? || a.CancelRead?)
    ensures OutcomeOk(db, Advance(db, a, env))
  {
    if a.id in db.orders {
      var from := db.orders[a.id].status;
      if CanTransitionTo(from, Done) { EdgeInto(from, Done); }
      if CanTransitionTo(from, Cancelled) { EdgeInto(from, Cancelled); }
    }
  }

  lemma CreateOk(db: DB, a: Actor, env: Env)
    requires DbOk(db) && ActorOk(db, a) && (a.CreateInsert? || a.CreateShow? || a.CreateAsk? || a.CreateFail?)
    ensures OutcomeOk(db, Advance(db, a, env))
  {
  }

  lemma ConditionalOk(db: DB, a: Actor, env: Env)
    requires DbOk(db) && ActorOk(db, a) && (a.HookWrite? || a.FixWrite?)
    ensures OutcomeOk(db, Advance(db, a, env))
  {
    match a
    case HookWrite(id, key, told, seen) =>
      WebhookEdge(told, seen.status);
      ConditionalHarmless(db, a, id, seen, WebhookTarget(told, seen.status).value, env);
    case FixWrite(id, seen, state) =>
      ConditionalHarmless(db, a, id, seen, CorrectionTarget(seen.status, state).value, env);
  }

  lemma RefundOk(db: DB, a: Actor, env: Env)
    requires DbOk(db) && ActorOk(db, a)
    requires a.RefundInsert? || a.RefundSettle? || a.RefundSettle2?
    ensures OutcomeOk(db, Advance(db, a, env))
  {
    AdvanceHarmless(db, a, env);
    HarmlessGrows(db, a, Advance(db, a, env).write);
    assert RowGrows(db.orders[a.refund.order], Perform(db, Advance(db, a, env).write).orders[a.refund.order], a, a.refund.order);
  }

  lemma AdvanceOk(db: DB, a: Actor, env: Env)
    requires DbOk(db) && ActorOk(db, a)
    requires a.CreateRead? ==> env.freshId !in db.orders
    ensures OutcomeOk(db, Advance(db, a, env))
  {
    match a
    case CreateRead(_) => LookupOk(db, a, env);
    case HookRead(_, _) => LookupOk(db, a, env);
    case CreateInsert(_, _) => CreateOk(db, a, env);
    case CreateAsk(_, _) => CreateOk(db, a, env);
    case CreateShow(_, _, _) => CreateOk(db, a, env);
    case CreateFail(_) => CreateOk(db, a, env);
    case HookWrite(_, _, _, _) => ConditionalOk(db, a, env);
    case FixWrite(_, _, _) => ConditionalOk(db, a, env);
    case FixAsk(_, _) =>
    case RetryCheck(_, _) =>
    case NotifyAsk(_, _) =>
    case NotifyWrite(_) =>
    case CompleteRead(_, _, _, _) => MachineReadOk(db, a, env);
    case CompleteWrite(_, _, _) =>
    case CancelRead(_, _, _) => MachineReadOk(db, a, env);
    case CancelWrite(_, _) =>
    case RefundRead(_) =>
    case RefundLookup(_, _) =>
    case RefundAsk(_) =>
    case _ => RefundOk(db, a, env);
  }

  /** A stale call stays in order whatever another call does. */
  lemma OthersOk(db: DB, a: Actor, db': DB, b: Actor)
    requires Grows(db, a, db') && Apart(a, b) && ActorOk(db, b)
    ensures ActorOk(db', b)
  {
  }

  lemma HappenedStays(db: DB, a: Actor, db': DB, e: Event)
    requires Grows(db, a, db') && Happened(db, e)
    ensures Happened(db', e)
  {
  }

  /** No step repeats what the log already holds. */
  lemma NoClash(db: DB, log: seq<Event>, a: Actor, env: Env, e: Event)
    requires DbOk(db) && ActorOk(db, a) && LogOk(db, log) && NotYet(log, a)
    requires e in log
    ensures forall f :: f in Advance(db, a, env).events ==> !Clash(e, f)
  {
    assert Happened(db, e);
    if a.HookWrite? || a.FixWrite? { ConfirmDoesNotClash(db, a, env, e); }
  }

  lemma ConfirmDoesNotClash(db: DB, a: Actor, env: Env, e: Event)
    requires DbOk(db) && ActorOk(db, a) && Happened(db, e) && (a.HookWrite? || a.FixWrite?)
    ensures forall f :: f in Advance(db, a, env).events ==> !Clash(e, f)
  {
    match a
    case HookWrite(id, key, told, seen) =>
      WebhookEdge(told, seen.status);
      ConditionalHarmless(db, a, id, seen, WebhookTarget(told, seen.status).value, env);
    case FixWrite(id, seen, state) =>
      ConditionalHarmless(db, a, id, seen, CorrectionTarget(seen.status, state).value, env);
  }

  /** The log stays in order: new events happened, clash with none, and explain
      every payment and every QR the step brought. */
  lemma LogStaysOk(db: DB, log: seq<Event>, a: Actor, env: Env)
    requires DbOk(db) && ActorOk(db, a) && LogOk(db, log) && NotYet(log, a)
    requires a.CreateRead? ==> env.freshId !in db.orders
    ensures LogOk(Perform(db, Advance(db, a, env).write), log + Advance(db, a, env).events)
  {
    var o := Advance(db, a, env);
    var db', log' := Perform(db, o.write), log + o.events;
    AdvanceHarmless(db, a, env);
    HarmlessGrows(db, a, o.write);
    AdvanceOk(db, a, env);
    forall k | 0 <= k < |log'| ensures Happened(db', log'[k]) {
      if k < |log| { HappenedStays(db, a, db', log[k]); }
    }
    forall k, l | 0 <= k < l < |log'| ensures !Clash(log'[k], log'[l]) {
      if l >= |log| > k { NoClash(db, log, a, env, log[k]); }
    }
    NewMarksLogged(db, a, env);
  }

  /** A statement that marks no payment and shows no QR. */
  predicate NoMark(w: Write) {
    match w
    case InsertOrder(_, row) => row.paidAt.None? && row.qrId.None?
    case SetOrder(_, _, p, _) => !p.PaidField? && !p.QRFields?
    case SetOrderIf(_, _, _, p, _) => !p.PaidField? && !p.QRFields?
    case _ => true
  }

  lemma NoMarkMarksNothing(db: DB, w: Write, id: Text)
    requires NoMark(w)
    ensures PaidIn(Perform(db, w), id) ==> PaidIn(db, id)
    ensures ShownIn(Perform(db, w), id) ==> ShownIn(db, id)
  {
  }

  /** Only the write of a delivery or correction marks a payment, and only the
      creator's last write shows a QR. */
  lemma Marking(db: DB, a: Actor, env: Env)
    requires ActorOk(db, a)
    ensures var o := Advance(db, a, env);
      || NoMark(o.write)
      || (o.write.SetOrder? && o.events != [] && o.events[0] == Shown(o.write.id) && o.write.patch.QRFields?)
      || (o.write.SetOrderIf? && o.events == [Confirmed(o.write.id)] && o.write.patch.PaidField?)
  {
  }

  lemma NewMarksLogged(db: DB, a: Actor, env: Env)
    requires ActorOk(db, a)
    ensures var o := Advance(db, a, env);
      var db' := Perform(db, o.write);
      && (forall id :: PaidIn(db', id) && !PaidIn(db, id) ==> Confirmed(id) in o.events)
      && (forall id :: ShownIn(db', id) && !ShownIn(db, id) ==> Shown(id) in o.events)
  {
    var o := Advance(db, a, env);
    Marking(db, a, env);
    if NoMark(o.write) {
      forall id { NoMarkMarksNothing(db, o.write, id); }
    }
  }

  lemma OthersStay(s: Sys, pid: nat, env: Env, p: nat)
    requires Inv(s) && pid in s.actors && p in s.actors && p != pid && Fresh(s, s.actors[pid], env)
    ensures var s' := Apply(s, Move(pid, env));
      p in s'.actors && s'.actors[p] == s.actors[p] && InFlightOk(s', s.actors[p])
  {
    var a := s.actors[pid];
    assert InFlightOk(s, a) && InFlightOk(s, s.actors[p]);
    AdvanceHarmless(s.db, a, env);
    HarmlessGrows(s.db, a, Advance(s.db, a, env).write);
    OthersOk(s.db, a, Perform(s.db, Advance(s.db, a, env).write), s.actors[p]);
    OthersNotYet(s.db, s.log, a, env, s.actors[p]);
  }

  lemma MoveKeepsTables(s: Sys, pid: nat, env: Env)
    requires Inv(s) && pid in s.actors && Fresh(s, s.actors[pid], env)
    ensures var s' := Apply(s, Move(pid, env));
      && DbOk(s'.db) && LogOk(s'.db, s'.log) && s'.db.orders.Keys <= s'.issued && EMPTY !in s'.issued
      && (pid in s'.actors ==> InFlightOk(s', s'.actors[pid]))
  {
    var a := s.actors[pid];
    assert InFlightOk(s, a);
    AdvanceHarmless(s.db, a, env);
    HarmlessGrows(s.db, a, Advance(s.db, a, env).write);
    AdvanceOk(s.db, a, env);
    LogStaysOk(s.db, s.log, a, env);
    if Advance(s.db, a, env).next.Some? { NextNotYet(s.db, s.log, a, env); }
  }

  lemma MoveKeepsApart(s: Sys, pid: nat, env: Env)
    requires Inv(s) && pid in s.actors && Fresh(s, s.actors[pid], env)
    ensures AllApart(Apply(s, Move(pid, env)))
  {
    var s' := Apply(s, Move(pid, env));
    forall p, q | p in s'.actors && q in s'.actors && p != q ensures Apart(s'.actors[p], s'.actors[q]) {
      if p == pid {
        NextApart(s, pid, env, q);
      } else if q == pid {
        NextApart(s, pid, env, p);
      }
    }
  }

  lemma BeginOk(s: Sys, call: Call)
    requires Inv(s) && Begin(s.db, call).Some?
    ensures var a := Begin(s.db, call).value;
      InFlightOk(s, a) && !Creating(a) && !a.RefundAsk?
  {
  }

  lemma StartKeepsInv(s: Sys, pid: nat, call: Call)
    requires Inv(s)
    ensures Inv(Apply(s, Start(pid, call)))
  {
    if Begin(s.db, call).Some? { BeginOk(s, call); }
  }

  lemma MoveKeepsInv(s: Sys, pid: nat, env: Env)
    requires Inv(s)
    ensures Inv(Apply(s, Move(pid, env)))
  {
    if pid in s.actors && Fresh(s, s.actors[pid], env) {
      var s' := Apply(s, Move(pid, env));
      MoveKeepsTables(s, pid, env);
      MoveKeepsApart(s, pid, env);
      forall p | p in s'.actors ensures InFlightOk(s', s'.actors[p]) {
        if p != pid { OthersStay(s, pid, env, p); }
      }
    }
  }

  /** The inductive step: whatever moves next, everything stays in order. */
  lemma StepKeepsInv(s: Sys, step: Step)
    requires Inv(s)
    ensures Inv(Apply(s, step))
  {
    match step
    case Start(pid, call) => StartKeepsInv(s, pid, call);
    case Move(pid, env) => MoveKeepsInv(s, pid, env);
  }

  lemma OthersNotYet(db: DB, log: seq<Event>, a: Actor, env: Env, b: Actor)
    requires NotYet(log, b) && Apart(a, b)
    ensures NotYet(log + Advance(db, a, env).events, b)
  {
  }

  lemma NextNotYet(db: DB, log: seq<Event>, a: Actor, env: Env)
    requires DbOk(db) && ActorOk(db, a) && LogOk(db, log) && Advance(db, a, env).next.Some?
    ensures NotYet(log + Advance(db, a, env).events, Advance(db, a, env).next.value)
  {
  }

  /** A call keeps creating the order it began with, and only the insert of a
      refund leads to its reverse. */
  lemma NextKeepsNames(db: DB, a: Actor, env: Env)
    requires Advance(db, a, env).next.Some?
    ensures var b := Advance(db, a, env).next.value;
      && (Creating(b) ==> if a.CreateRead? then b.id == env.freshId else Creating(a) && b.id == a.id)
      && (b.RefundAsk? ==> a.RefundInsert? && b.refund == a.refund && a.refund.no !in db.refunds)
  {
  }

  lemma NextApart(s: Sys, pid: nat, env: Env, p: nat)
    requires Inv(s) && pid in s.actors && p in s.actors && p != pid && Fresh(s, s.actors[pid], env)
    requires Advance(s.db, s.actors[pid], env).next.Some?
    ensures Apart(s.actors[p], Advance(s.db, s.actors[pid], env).next.value)
    ensures Apart(Advance(s.db, s.actors[pid], env).next.value, s.actors[p])
  {
    NextKeepsNames(s.db, s.actors[pid], env);
    assert InFlightOk(s, s.actors[p]);
  }

  // ---------------------------------------------------------------- every run

  lemma {:induction false} RunKeepsInv(s: Sys, steps: seq<Step>)
    requires Inv(s)
    ensures Inv(Exec(s, steps))
    decreases steps
  {
    if steps != [] {
      StepKeepsInv(s, steps[0]);
      RunKeepsInv(Apply(s, steps[0]), steps[1..]);
    }
  }

  lemma ReachableInv(s: Sys)
    requires Reachable(s)
    ensures Inv(s)
  {
    var steps :| s == Exec(Init, steps);
    RunKeepsInv(Init, steps);
  }

  /** For one machine order PVS is asked for a QR at most once, and every answer
      the machine ever gets for it carries the same order number and QR. */
  lemma OneQRPerMachineOrder(s: Sys, k: nat, l: nat)
    requires Reachable(s) && k < l < |s.log|
    ensures s.log[k].AskedQR? && s.log[l].AskedQR? ==> s.log[k].gs != s.log[l].gs
    ensures s.log[k].ReplyQR? && s.log[l].ReplyQR? && s.log[k].gs == s.log[l].gs ==> s.log[k] == s.log[l]
  {
    ReachableInv(s);
    assert !Clash(s.log[k], s.log[l]);
  }

  /** PVS is asked to reverse at most once per refund number. */
  lemma OneReversePerRefundNumber(s: Sys, k: nat, l: nat)
    requires Reachable(s) && k < l < |s.log|
    ensures s.log[k].AskedReverse? && s.log[l].AskedReverse? ==> s.log[k].no != s.log[l].no
  {
    ReachableInv(s);
    assert !Clash(s.log[k], s.log[l]);
  }

  /** No order has two confirming writes, whoever races for them. */
  lemma ConfirmedAtMostOnce(s: Sys, k: nat, l: nat)
    requires Reachable(s) && k < l < |s.log|
    ensures s.log[k].Confirmed? && s.log[l].Confirmed? ==> s.log[k].id != s.log[l].id
    ensures s.log[k].Shown? && s.log[l].Shown? ==> s.log[k].id != s.log[l].id
  {
    ReachableInv(s);
    assert !Clash(s.log[k], s.log[l]);
  }

  /** An order counts as paid exactly when its confirming write happened. */
  lemma PaidIffConfirmed(s: Sys, id: Text)
    requires Reachable(s)
    ensures PaidIn(s.db, id) <==> Confirmed(id) in s.log
  {
    ReachableInv(s);
    if Confirmed(id) in s.log {
      var k :| 0 <= k < |s.log| && s.log[k] == Confirmed(id);
      assert Happened(s.db, s.log[k]);
    }
  }

  lemma StepGrows(s: Sys, step: Step, id: Text)
    requires Inv(s) && id in s.db.orders
    ensures id in Apply(s, step).db.orders
    ensures var r, r' := s.db.orders[id], Apply(s, step).db.orders[id];
      && r'.gs == r.gs
      && (r.paidAt.Some? ==> r'.paidAt == r.paidAt)
      && (r.qrId.Some? ==> r'.qrId.Some? && (r.status != QRShown ==> r'.status != QRShown))
  {
    if step.Move? && step.pid in s.actors && Fresh(s, s.actors[step.pid], step.env) {
      var a := s.actors[step.pid];
      assert InFlightOk(s, a);
      AdvanceHarmless(s.db, a, step.env);
      HarmlessGrows(s.db, a, Advance(s.db, a, step.env).write);
    }
  }

  /** Whatever runs on, from any reachable state: the moment of payment is never
      cleared nor rewritten. */
  lemma {:induction false} PaymentMarkStays(s: Sys, steps: seq<Step>, id: Text)
    requires Inv(s) && PaidIn(s.db, id)
    ensures PaidIn(Exec(s, steps).db, id) && Exec(s, steps).db.orders[id].paidAt == s.db.orders[id].paidAt
    decreases steps
  {
    if steps != [] {
      StepGrows(s, steps[0], id);
      StepKeepsInv(s, steps[0]);
      PaymentMarkStays(Apply(s, steps[0]), steps[1..], id);
    }
  }

  /** Once an order has shown its QR, the code a machine reads for it leaves "1"
      at most once: after any other answer it never answers "1" again. */
  lemma {:induction false} PendingCodeNeverReturns(s: Sys, steps: seq<Step>, gs: Text, id: Text)
    requires Inv(s) && ShownIn(s.db, id)
    requires QueryStatus(s.db, gs, id).Some? && QueryStatus(s.db, gs, id) != Some(1)
    ensures QueryStatus(Exec(s, steps).db, gs, id).Some? && QueryStatus(Exec(s, steps).db, gs, id) != Some(1)
    decreases steps
  {
    if steps != [] {
      StepGrows(s, steps[0], id);
      StepKeepsInv(s, steps[0]);
      PendingCodeNeverReturns(Apply(s, steps[0]), steps[1..], gs, id);
    }
  }

  /** Every reverse and every payment notice, however stale the row its call
      read, goes out for an order that is paid at that moment; and the statuses
      that stand for money received are only ever held by paid orders. */
  lemma OnlyPaidOrdersReversedOrNotified(s: Sys, pid: nat, env: Env)
    requires Reachable(s) && pid in s.actors
    ensures forall e :: e in Advance(s.db, s.actors[pid], env).events && (e.AskedReverse? || e.AskedNotify?) ==> PaidIn(s.db, e.id)
    ensures forall id :: id in s.db.orders && PaidStatus(s.db.orders[id].status) ==> PaidIn(s.db, id)
  {
    ReachableInv(s);
    assert InFlightOk(s, s.actors[pid]);
  }

  lemma {:induction false} RunKeepsHistory(s: Sys, steps: seq<Step>)
    requires HistoryAgrees(s.db)
    ensures HistoryAgrees(Exec(s, steps).db)
    decreases steps
  {
    if steps != [] {
      var step := steps[0];
      if step.Move? && step.pid in s.actors {
        PerformKeepsHistory(s.db, Advance(s.db, s.actors[step.pid], step.env).write);
      }
      RunKeepsHistory(Apply(s, step), steps[1..]);
    }
  }

  /** The history table is right in every reachable state. */
  lemma HistoryAlwaysAgrees(s: Sys)
    requires Reachable(s)
    ensures HistoryAgrees(s.db)
  {
    var steps :| s == Exec(Init, steps);
    RunKeepsHistory(Init, steps);
  }
}
