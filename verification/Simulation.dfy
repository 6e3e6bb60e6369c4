/** Deliveries and corrections read, ask and write in separate steps, yet every
    interleaved run ends in the tables of a run in which each of them happens
    whole, at the moment of its conditional write, or not at all. */
module Simulation {
  import opened Status
  import opened Tables
  import opened Protocol
  import opened Interleaved

  /** A delivery or a correction as one indivisible act on the tables, or a
      statement of some other call. */
  datatype Atomic =
    | Deliver(key: HookKey, told: PVSStatus, now: Time)
    | Repair(id: Text, state: int, now: Time)
    | Plain(w: Write)

  /** Move an order to `to`, when there is one, from whatever status it has now. */
  function MoveTo(db: DB, id: Text, to: Option<OrderStatus>, now: Time): DB
    requires id in db.orders
  {
    if to.None? then db else Put(db, id, to.value, PaidPatch(to.value, now), now)
  }

  ghost function Act(db: DB, op: Atomic): DB {
    match op
    case Deliver(key, told, now) =>
      var hit := Lookup(db, key);
      if hit.None? then db else
      var from := db.orders[hit.value].status;
      var to := WebhookTarget(told, from);
      MoveTo(db, hit.value, if to.Some? && CanTransitionTo(from, to.value) then to else None, now)
    case Repair(id, state, now) =>
      if id !in db.orders then db else MoveTo(db, id, CorrectionTarget(db.orders[id].status, state), now)
    case Plain(w) => Perform(db, w)
  }

  ghost function Acts(db: DB, ops: seq<Atomic>): DB
    decreases ops
  {
    if ops == [] then db else Acts(Act(db, ops[0]), ops[1..])
  }

  /** The act that a step stands for: none for reads, questions and lost races. */
  ghost function Meaning(s: Sys, step: Step): seq<Atomic> {
    if step.Start? || step.pid !in s.actors || !Fresh(s, s.actors[step.pid], step.env) then [] else
    var a, env := s.actors[step.pid], step.env;
    match a
    case HookWrite(id, key, told, seen) =>
      if env.up && id in s.db.orders && s.db.orders[id].status == seen.status then [Deliver(key, told, env.now)] else []
    case FixWrite(id, seen, state) =>
      if env.up && id in s.db.orders && s.db.orders[id].status == seen.status then [Repair(id, state, env.now)] else []
    case _ =>
      var w := Advance(s.db, a, env).write;
      if w == NoWrite then [] else [Plain(w)]
  }

  ghost function Linearized(s: Sys, steps: seq<Step>): seq<Atomic>
    decreases steps
  {
    if steps == [] then [] else Meaning(s, steps[0]) + Linearized(Apply(s, steps[0]), steps[1..])
  }

  lemma LookupOfNamed(db: DB, key: HookKey, id: Text)
    requires DbOk(db) && Named(db, key, id)
    ensures Lookup(db, key) == Some(id)
  {
  }

  lemma StepMeaning(s: Sys, step: Step)
    requires Inv(s)
    ensures Apply(s, step).db == Acts(s.db, Meaning(s, step))
  {
    if step.Move? && step.pid in s.actors && Fresh(s, s.actors[step.pid], step.env) {
      var a := s.actors[step.pid];
      assert InFlightOk(s, a);
      if a.HookWrite? { LookupOfNamed(s.db, a.key, a.id); }
      var ops := Meaning(s, step);
      if ops != [] {
        assert ops[1..] == [];
        assert Acts(s.db, ops) == Act(s.db, ops[0]);
      }
    }
  }

  lemma {:induction false} ActsOfConcat(db: DB, xs: seq<Atomic>, ys: seq<Atomic>)
    ensures Acts(db, xs + ys) == Acts(Acts(db, xs), ys)
    decreases xs
  {
    if xs == [] {
      assert xs + ys == ys;
    } else {
      assert (xs + ys)[1..] == xs[1..] + ys;
      ActsOfConcat(Act(db, xs[0]), xs[1..], ys);
    }
  }

  /** The simulation: all tables, of any run from any reachable state, are those
      of its indivisible acts one after another. */
  lemma {:induction false} InterleavedRunsAreSerial(s: Sys, steps: seq<Step>)
    requires Inv(s)
    ensures Exec(s, steps).db == Acts(s.db, Linearized(s, steps))
    decreases steps
  {
    if steps != [] {
      StepMeaning(s, steps[0]);
      StepKeepsInv(s, steps[0]);
      InterleavedRunsAreSerial(Apply(s, steps[0]), steps[1..]);
      ActsOfConcat(s.db, Meaning(s, steps[0]), Linearized(Apply(s, steps[0]), steps[1..]));
    }
  }

  lemma NoticeDownChangesNothing(db: DB, a: Actor)
    requires a.NotifyAsk?
    ensures Alone(db, a, []).db == db
  {
    AloneStep(db, a, []);
  }

  /** A guarded write and a notice that does not go through: the write alone. */
  lemma WriteAlone(db: DB, a: Actor, e: Env)
    requires a.HookWrite? || a.FixWrite?
    ensures Alone(db, a, [e]).db == Perform(db, Advance(db, a, e).write)
  {
    AloneStep(db, a, [e]);
    assert Tail([e]) == [];
    var o := Advance(db, a, e);
    if o.next.Some? { NoticeDownChangesNothing(Perform(db, o.write), o.next.value); }
  }

  lemma ReadThenWrite(db: DB, a: Actor, e: Env, e': Env)
    requires a.HookRead? || a.FixAsk?
    ensures var o := Advance(db, a, e);
      && (o.next.None? ==> Alone(db, a, [e, e']).db == db)
      && (o.next.Some? ==> Alone(db, a, [e, e']).db == Perform(db, Advance(db, o.next.value, e').write))
  {
    AloneStep(db, a, [e, e']);
    assert Tail([e, e']) == [e'];
    var o := Advance(db, a, e);
    if o.next.Some? { WriteAlone(db, o.next.value, e'); }
  }

  /** The indivisible delivery is the handler itself, read and write with
      nothing in between (and the notice to GS not going through). */
  lemma DeliverIsHandler(db: DB, key: HookKey, told: PVSStatus, e: Env, e': Env)
    requires e.up && e'.up
    ensures Alone(db, HookRead(key, Some(told)), [e, e']).db == Act(db, Deliver(key, told, e'.now))
  {
    ReadThenWrite(db, HookRead(key, Some(told)), e, e');
  }

  lemma CorrectionSteps(db: DB, id: Text, seen: Row, e: Env, e': Env)
    requires id in db.orders && seen == db.orders[id] && e.state.Some? && e'.up
    ensures var to, o := CorrectionTarget(seen.status, e.state.value), Advance(db, FixAsk(id, seen), e);
      && (o.next.Some? <==> to.Some?)
      && (to.Some? ==>
            Perform(db, Advance(db, o.next.value, e').write) == Put(db, id, to.value, PaidPatch(to.value, e'.now), e'.now))
  {
  }

  /** The same for a correction: PVS answers, the guarded write follows. */
  lemma RepairIsCorrection(db: DB, id: Text, e: Env, e': Env)
    requires id in db.orders && e.state.Some? && e'.up
    ensures Alone(db, FixAsk(id, db.orders[id]), [e, e']).db == Act(db, Repair(id, e.state.value, e'.now))
  {
    var seen := db.orders[id];
    ReadThenWrite(db, FixAsk(id, seen), e, e');
    CorrectionSteps(db, id, seen, e, e');
  }

  /** The two ways of hearing from PVS agree: its answers 5 and 3 about an order
      that shows its QR do what the deliveries APPROVED and REJECTED do, and 4 about
      a pending refund does what REVERSED does. */
  lemma AnswersAgreeWithDeliveries(db: DB, id: Text, now: Time)
    requires id in db.orders
    ensures db.orders[id].status == QRShown ==>
              && Act(db, Repair(id, 5, now)) == Act(db, Deliver(ById(id), Approved, now)) != db
              && Act(db, Repair(id, 3, now)) == Act(db, Deliver(ById(id), Rejected, now)) != db
    ensures db.orders[id].status == RefundPending ==>
              Act(db, Repair(id, 4, now)) == Act(db, Deliver(ById(id), Reversed, now)) != db
  {
    assert CanTransitionTo(QRShown, PaymentConfirmed) && CanTransitionTo(QRShown, Failed) && CanTransitionTo(RefundPending, Refunded);
    var r := db.orders[id];
    PutDiffers(db, id, PaymentConfirmed, PaidPatch(PaymentConfirmed, now), now);
    PutDiffers(db, id, Failed, PaidPatch(Failed, now), now);
    PutDiffers(db, id, Refunded, PaidPatch(Refunded, now), now);
  }

  lemma PutDiffers(db: DB, id: Text, to: OrderStatus, p: Patch, now: Time)
    requires id in db.orders
    ensures db.orders[id].status != to ==> Put(db, id, to, p, now) != db
  {
    assert Put(db, id, to, p, now).orders[id].status == to;
  }

  /** A delivery that changes anything, whatever the other writers did since it
      read the row, follows a table edge from the status the row has right then,
      and marks the payment exactly when it confirms it. */
  lemma EffectiveDeliveryFollowsTable(s: Sys, pid: nat, env: Env)
    requires Reachable(s) && pid in s.actors && s.actors[pid].HookWrite?
    requires Apply(s, Move(pid, env)).db != s.db
    ensures var id, db' := s.actors[pid].id, Apply(s, Move(pid, env)).db;
      && id in s.db.orders && id in db'.orders
      && CanTransitionTo(s.db.orders[id].status, db'.orders[id].status)
      && db'.orders[id].paidAt ==
           (if db'.orders[id].status == PaymentConfirmed then Some(env.now) else s.db.orders[id].paidAt)
      && db'.orders - {id} == s.db.orders - {id}
  {
    ReachableInv(s);
    assert InFlightOk(s, s.actors[pid]);
  }
}
