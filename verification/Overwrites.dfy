/** Exactly which steps change a status under interleaving, which of them leave
    the transition table, and exactly when a terminal status can still change. */
module Overwrites {
  import opened Status
  import opened Tables
  import opened Protocol
  import opened Interleaved
  import Serial

  // ---------------------------------------------------------------- one step

  /** The status that a call is about to write to an order without looking. */
  function BlindTarget(a: Actor, id: Text): Option<OrderStatus> {
    match a
    case CreateShow(_, i, _) => if i == id then Some(QRShown) else None
    case CreateFail(i) => if i == id then Some(Failed) else None
    case NotifyWrite(i) => if i == id then Some(PaymentConfirmed) else None
    case CompleteWrite(i, to, _) => if i == id then Some(to) else None
    case CancelWrite(i, _) => if i == id then Some(Cancelled) else None
    case RefundSettle(r, ok) => if r.order == id && ok then Some(RefundPending) else None
    case RefundSettle2(r, ok) => if r.order == id && !ok then Some(RefundFailed) else None
    case _ => None
  }

  /** The status that a delivery or correction is about to write to an order that
      still has the status it read. */
  function GuardedTarget(a: Actor, id: Text, current: OrderStatus): Option<OrderStatus> {
    match a
    case HookWrite(i, _, told, seen) => if i == id && seen.status == current then WebhookTarget(told, current) else None
    case FixWrite(i, seen, state) => if i == id && seen.status == current then CorrectionTarget(current, state) else None
    case _ => None
  }

  /** The QR that an order is about to show is not another order's. */
  predicate QRIsFree(db: DB, a: Actor, id: Text) {
    a.CreateShow? ==> QRFree(db.orders, id, QRFields(a.qr.id, a.qr.image, 0))
  }

  /** A blind write of another status. */
  predicate Overwrites(db: DB, a: Actor, id: Text)
    requires id in db.orders
  {
    var t := BlindTarget(a, id);
    t.Some? && t.value != db.orders[id].status && QRIsFree(db, a, id)
  }

  predicate CanMove(s: Sys, pid: nat, env: Env) {
    pid in s.actors && Fresh(s, s.actors[pid], env)
  }

  /** What a step does to the status of an order, exactly. */
  function StatusAfter(db: DB, a: Actor, env: Env, id: Text): OrderStatus
    requires id in db.orders
  {
    var current := db.orders[id].status;
    if !env.up then current
    else if Overwrites(db, a, id) then BlindTarget(a, id).value
    else if GuardedTarget(a, id, current).Some? then GuardedTarget(a, id, current).value
    else current
  }

  /** A call that issues no update of an order. */
  predicate LeavesStatus(a: Actor) {
    match a
    case CreateShow(_, _, _) => false
    case CreateFail(_) => false
    case HookWrite(_, _, _, _) => false
    case FixWrite(_, _, _) => false
    case NotifyWrite(_) => false
    case CompleteWrite(_, _, _) => false
    case CancelWrite(_, _) => false
    case RefundSettle(_, _) => false
    case RefundSettle2(_, _) => false
    case _ => true
  }

  lemma NoUpdate(db: DB, a: Actor, env: Env, id: Text)
    requires LeavesStatus(a) && id in db.orders
    ensures var db' := Perform(db, Advance(db, a, env).write);
      id in db'.orders && db'.orders[id].status == db.orders[id].status
  {
    var w := Advance(db, a, env).write;
    assert w.NoWrite? || w.InsertOrder? || w.InsertRefund?;
  }

  lemma GuardedUpdate(db: DB, a: Actor, env: Env, id: Text)
    requires (a.HookWrite? || a.FixWrite?) && id in db.orders
    ensures var db' := Perform(db, Advance(db, a, env).write);
      id in db'.orders && db'.orders[id].status == StatusAfter(db, a, env, id)
  {
  }

  lemma BlindUpdate(db: DB, a: Actor, env: Env, id: Text)
    requires !LeavesStatus(a) && !a.HookWrite? && !a.FixWrite? && id in db.orders
    requires ActorOk(db, a)
    ensures var db' := Perform(db, Advance(db, a, env).write);
      id in db'.orders && db'.orders[id].status == StatusAfter(db, a, env, id)
  {
  }

  lemma StepStatus(db: DB, a: Actor, env: Env, id: Text)
    requires ActorOk(db, a) && id in db.orders
    ensures var db' := Perform(db, Advance(db, a, env).write);
      id in db'.orders && db'.orders[id].status == StatusAfter(db, a, env, id)
  {
    if LeavesStatus(a) {
      NoUpdate(db, a, env, id);
    } else if a.HookWrite? || a.FixWrite? {
      GuardedUpdate(db, a, env, id);
    } else {
      BlindUpdate(db, a, env, id);
    }
  }

  lemma GuardedIsEdge(db: DB, a: Actor, id: Text)
    requires ActorOk(db, a) && id in db.orders && GuardedTarget(a, id, db.orders[id].status).Some?
    ensures Serial.SerialEdge(db.orders[id].status, GuardedTarget(a, id, db.orders[id].status).value)
    ensures !IsTerminal(db.orders[id].status)
  {
  }

  /** A step changes the status of an order exactly when the database answers and
      it is a blind write of another status, or a guarded write whose guard holds. */
  lemma StatusChangesIff(s: Sys, pid: nat, env: Env, id: Text)
    requires Inv(s) && CanMove(s, pid, env) && id in s.db.orders
    ensures var a, db' := s.actors[pid], Apply(s, Move(pid, env)).db;
      && id in db'.orders
      && (db'.orders[id].status != s.db.orders[id].status <==>
            env.up && (Overwrites(s.db, a, id) || GuardedTarget(a, id, s.db.orders[id].status).Some?))
  {
    var a := s.actors[pid];
    assert InFlightOk(s, a);
    StepStatus(s.db, a, env, id);
    if GuardedTarget(a, id, s.db.orders[id].status).Some? {
      GuardedIsEdge(s.db, a, id);
      Serial.SerialEdgeFollows(s.db.orders[id].status, GuardedTarget(a, id, s.db.orders[id].status).value);
    }
  }

  /** A step takes an order off the transition table exactly when it is a blind
      write of a status that no path leads to. */
  lemma OffTableIff(s: Sys, pid: nat, env: Env, id: Text)
    requires Inv(s) && CanMove(s, pid, env) && id in s.db.orders
    ensures var a, db' := s.actors[pid], Apply(s, Move(pid, env)).db;
      var from := s.db.orders[id].status;
      && id in db'.orders
      && (db'.orders[id].status != from && !Path(from, db'.orders[id].status) <==>
            env.up && Overwrites(s.db, a, id) && !Path(from, BlindTarget(a, id).value))
  {
    var a, from := s.actors[pid], s.db.orders[id].status;
    assert InFlightOk(s, a);
    StepStatus(s.db, a, env, id);
    if GuardedTarget(a, id, from).Some? {
      GuardedIsEdge(s.db, a, id);
      Serial.SerialEdgeIsPath(from, GuardedTarget(a, id, from).value);
    }
  }

  // ---------------------------------------------------------------- all that may follow

  /** A row that a notice would still be sent for. */
  predicate Ready(seen: Row) {
    seen.notifyUrl != EMPTY && seen.notifiedAt.None? && seen.status == PaymentConfirmed
  }

  /** A refund call that goes on to ask PVS. */
  predicate RefundGoesOn(db: DB, a: Actor, id: Text) {
    match a
    case RefundLookup(r, seen) =>
      r.order == id && CanTransitionTo(seen.status, RefundPending) && seen.paidAt.Some? && r.no !in db.refunds
    case RefundInsert(r, _) => r.order == id && r.no !in db.refunds
    case RefundAsk(r) => r.order == id
    case _ => false
  }

  predicate NoticeGoesOn(a: Actor, id: Text) {
    (a.RetryCheck? || a.NotifyAsk?) && a.id == id && Ready(a.seen)
  }

  /** A call in flight that can still write another status to a terminal order. */
  predicate Threatens(db: DB, a: Actor, id: Text)
    requires id in db.orders
  {
    || Overwrites(db, a, id)
    || (a.CreateAsk? && a.id == id)
    || NoticeGoesOn(a, id)
    || RefundGoesOn(db, a, id)
    || (a.RefundSettle? && !a.ok && a.refund.order == id && db.orders[id].status != RefundFailed)
  }

  ghost predicate Finished(s: Sys, id: Text) {
    && id in s.db.orders && IsTerminal(s.db.orders[id].status)
    && forall p :: p in s.actors ==> !Threatens(s.db, s.actors[p], id)
  }

  lemma TerminalKeepsStatus(db: DB, a: Actor, env: Env, id: Text)
    requires DbOk(db) && ActorOk(db, a) && id in db.orders && IsTerminal(db.orders[id].status) && !Overwrites(db, a, id)
    ensures StatusAfter(db, a, env, id) == db.orders[id].status
  {
    if GuardedTarget(a, id, db.orders[id].status).Some? { GuardedIsEdge(db, a, id); }
  }

  lemma TerminalReads(db: DB, a: Actor, env: Env, id: Text)
    requires DbOk(db) && ActorOk(db, a) && id in db.orders && IsTerminal(db.orders[id].status)
    requires a.CreateRead? ==> env.freshId !in db.orders
    requires !Threatens(db, a, id)
    ensures var o := Advance(db, a, env);
      var db' := Perform(db, o.write);
      && id in db'.orders && db'.orders[id].status == db.orders[id].status
      && (o.next.Some? ==> !Threatens(db', o.next.value, id))
  {
    StepStatus(db, a, env, id);
    TerminalKeepsStatus(db, a, env, id);
    NextDoesNotThreaten(db, a, env, id);
  }

  /** After this step the call does not threaten the order. */
  ghost predicate NoThreatNext(db: DB, a: Actor, env: Env, id: Text) {
    var o := Advance(db, a, env);
    var db' := Perform(db, o.write);
    id in db'.orders && (o.next.Some? ==> !Threatens(db', o.next.value, id))
  }

  /** A lost race, or another order: no notice of this order follows. */
  lemma GuardedNext(db: DB, a: Actor, env: Env, id: Text)
    requires ActorOk(db, a) && id in db.orders && IsTerminal(db.orders[id].status)
    requires a.HookWrite? || a.FixWrite?
    ensures NoThreatNext(db, a, env, id)
  {
    if GuardedTarget(a, id, db.orders[id].status).Some? { GuardedIsEdge(db, a, id); }
  }

  /** A read of a terminal order leads nowhere. */
  lemma ReadNext(db: DB, a: Actor, env: Env, id: Text)
    requires id in db.orders && IsTerminal(db.orders[id].status)
    requires a.CompleteRead? || a.CancelRead? || a.RefundRead?
    ensures NoThreatNext(db, a, env, id)
  {
  }

  lemma CreateNext(db: DB, a: Actor, env: Env, id: Text)
    requires ActorOk(db, a) && id in db.orders && !Threatens(db, a, id)
    requires a.CreateRead? || a.CreateInsert? || a.CreateAsk?
    requires a.CreateRead? ==> env.freshId !in db.orders
    ensures NoThreatNext(db, a, env, id)
  {
  }

  lemma RefundNext(db: DB, a: Actor, env: Env, id: Text)
    requires id in db.orders && !Threatens(db, a, id)
    requires a.RefundLookup? || a.RefundInsert? || a.RefundAsk?
    ensures NoThreatNext(db, a, env, id)
  {
  }

  lemma SettleNext(db: DB, a: Actor, env: Env, id: Text)
    requires id in db.orders && IsTerminal(db.orders[id].status) && !Threatens(db, a, id)
    requires a.RefundSettle?
    ensures NoThreatNext(db, a, env, id)
  {
  }

  lemma NoticeNext(db: DB, a: Actor, env: Env, id: Text)
    requires id in db.orders && !Threatens(db, a, id)
    requires a.HookRead? || a.FixAsk? || a.RetryCheck? || a.NotifyAsk?
    ensures NoThreatNext(db, a, env, id)
  {
  }

  lemma LastStep(db: DB, a: Actor, env: Env, id: Text)
    requires id in db.orders
    requires a.CreateShow? || a.CreateFail? || a.NotifyWrite? || a.CompleteWrite? || a.CancelWrite? || a.RefundSettle2?
    ensures NoThreatNext(db, a, env, id)
  {
    assert Advance(db, a, env).next.None?;
  }

  lemma NextDoesNotThreaten(db: DB, a: Actor, env: Env, id: Text)
    requires ActorOk(db, a) && id in db.orders && IsTerminal(db.orders[id].status)
    requires a.CreateRead? ==> env.freshId !in db.orders
    requires !Threatens(db, a, id)
    ensures NoThreatNext(db, a, env, id)
  {
    match a
    case HookWrite(_, _, _, _) => GuardedNext(db, a, env, id);
    case FixWrite(_, _, _) => GuardedNext(db, a, env, id);
    case CompleteRead(_, _, _, _) => ReadNext(db, a, env, id);
    case CancelRead(_, _, _) => ReadNext(db, a, env, id);
    case RefundRead(_) => ReadNext(db, a, env, id);
    case CreateRead(_) => CreateNext(db, a, env, id);
    case CreateInsert(_, _) => CreateNext(db, a, env, id);
    case CreateAsk(_, _) => CreateNext(db, a, env, id);
    case RefundLookup(_, _) => RefundNext(db, a, env, id);
    case RefundInsert(_, _) => RefundNext(db, a, env, id);
    case RefundAsk(_) => RefundNext(db, a, env, id);
    case RefundSettle(_, _) => SettleNext(db, a, env, id);
    case HookRead(_, _) => NoticeNext(db, a, env, id);
    case FixAsk(_, _) => NoticeNext(db, a, env, id);
    case RetryCheck(_, _) => NoticeNext(db, a, env, id);
    case NotifyAsk(_, _) => NoticeNext(db, a, env, id);
    case _ => LastStep(db, a, env, id);
  }

  lemma OthersStayHarmless(db: DB, a: Actor, db': DB, b: Actor, id: Text)
    requires Grows(db, a, db') && id in db.orders && id in db'.orders && db'.orders[id].status == db.orders[id].status
    requires !Threatens(db, b, id)
    ensures !Threatens(db', b, id)
  {
  }

  lemma FinishedStep(s: Sys, step: Step, id: Text)
    requires Inv(s) && Finished(s, id)
    ensures Finished(Apply(s, step), id) && Apply(s, step).db.orders[id].status == s.db.orders[id].status
  {
    if step.Move? && CanMove(s, step.pid, step.env) {
      var a, s' := s.actors[step.pid], Apply(s, step);
      assert InFlightOk(s, a);
      TerminalReads(s.db, a, step.env, id);
      AdvanceHarmless(s.db, a, step.env);
      HarmlessGrows(s.db, a, Advance(s.db, a, step.env).write);
      forall p | p in s'.actors ensures !Threatens(s'.db, s'.actors[p], id) {
        if p != step.pid { OthersStayHarmless(s.db, a, s'.db, s.actors[p], id); }
      }
    }
  }

  lemma {:induction false} FinishedStays(s: Sys, steps: seq<Step>, id: Text)
    requires Inv(s) && Finished(s, id)
    ensures id in Exec(s, steps).db.orders && Exec(s, steps).db.orders[id].status == s.db.orders[id].status
    decreases steps
  {
    if steps != [] {
      FinishedStep(s, steps[0], id);
      StepKeepsInv(s, steps[0]);
      FinishedStays(Apply(s, steps[0]), steps[1..], id);
    }
  }

  /** Surroundings that let a call go on: GS accepts, PVS reverses but shows no QR. */
  function Helpful(a: Actor): Env {
    Env(true, if a.RetryCheck? then a.seen.updatedAt + NOTIFY_MIN_AGE else 0, EMPTY, None, None, Some(true), Some("success"))
  }

  lemma NoticeStepOn(db: DB, a: Actor, id: Text)
    requires NoticeGoesOn(a, id)
    ensures var o := Advance(db, a, Helpful(a));
      && o.write == NoWrite && o.next.Some? && Left(o.next.value) < Left(a)
      && (a.NotifyAsk? ==> o.next.value == NotifyWrite(id) && o.events == [AskedNotify(id)])
      && (a.RetryCheck? ==> NoticeGoesOn(o.next.value, id) && o.events == [])
  {
  }

  lemma RefundStepOn(db: DB, a: Actor, id: Text)
    requires RefundGoesOn(db, a, id)
    ensures var o := Advance(db, a, Helpful(a));
      var db' := Perform(db, o.write);
      && db'.orders == db.orders && o.next.Some? && Left(o.next.value) < Left(a)
      && (if a.RefundAsk? then o.next.value == RefundSettle(a.refund, true) && o.events == [AskedReverse(a.refund.no, id)]
          else RefundGoesOn(db', o.next.value, id) && o.events == [])
  {
  }

  lemma LateStepOn(db: DB, a: Actor, id: Text)
    requires (a.CreateAsk? && a.id == id) || (a.RefundSettle? && !a.ok && a.refund.order == id)
    ensures var o := Advance(db, a, Helpful(a));
      && o.next.Some? && Left(o.next.value) < Left(a) && Perform(db, o.write).orders == db.orders
      && o.next.value == if a.CreateAsk? then CreateFail(id) else RefundSettle2(a.refund, false)
  {
  }

  lemma ThreatGoesOn(db: DB, a: Actor, id: Text)
    requires ActorOk(db, a) && id in db.orders && IsTerminal(db.orders[id].status) && Threatens(db, a, id)
    ensures !a.CreateRead?
    ensures var o := Advance(db, a, Helpful(a));
      var db' := Perform(db, o.write);
      && id in db'.orders
      && (db'.orders[id].status == db.orders[id].status ==>
            o.next.Some? && Threatens(db', o.next.value, id) && Left(o.next.value) < Left(a))
  {
    if Overwrites(db, a, id) {
      StepStatus(db, a, Helpful(a), id);
    } else if NoticeGoesOn(a, id) {
      NoticeStepOn(db, a, id);
    } else if RefundGoesOn(db, a, id) {
      RefundStepOn(db, a, id);
    } else {
      LateStepOn(db, a, id);
    }
  }

  lemma {:induction false} ThreatIsReal(s: Sys, pid: nat, id: Text) returns (steps: seq<Step>)
    requires Inv(s) && id in s.db.orders && IsTerminal(s.db.orders[id].status)
    requires pid in s.actors && Threatens(s.db, s.actors[pid], id)
    ensures id in Exec(s, steps).db.orders && Exec(s, steps).db.orders[id].status != s.db.orders[id].status
    decreases Left(s.actors[pid])
  {
    var a := s.actors[pid];
    var step := Move(pid, Helpful(a));
    assert InFlightOk(s, a);
    ThreatGoesOn(s.db, a, id);
    StepKeepsInv(s, step);
    var s' := Apply(s, step);
    var rest := [];
    if s'.db.orders[id].status == s.db.orders[id].status { rest := ThreatIsReal(s', pid, id); }
    steps := [step] + rest;
    assert steps[1..] == rest;
  }

  /** A terminal order can change its status again, by some continuation of the
      run, exactly when a call still in flight threatens it. */
  lemma TerminalCanChangeIff(s: Sys, id: Text)
    requires Inv(s) && id in s.db.orders && IsTerminal(s.db.orders[id].status)
    ensures (exists steps :: id in Exec(s, steps).db.orders && Exec(s, steps).db.orders[id].status != s.db.orders[id].status) <==>
            (exists p :: p in s.actors && Threatens(s.db, s.actors[p], id))
  {
    if p :| p in s.actors && Threatens(s.db, s.actors[p], id) {
      var steps := ThreatIsReal(s, p, id);
    } else {
      forall steps
        ensures id in Exec(s, steps).db.orders && Exec(s, steps).db.orders[id].status == s.db.orders[id].status
      {
        FinishedStays(s, steps, id);
      }
    }
  }
}
