/** Every call of the program as a little machine: it reads rows, asks an
    external party and runs statements, one of these per step.  A system state
    holds any number of such machines in flight over one database. */
module Protocol {
  import opened Status
  import opened Tables

  const QR_EXPIRY: Time := 180 // seconds
  const NOTIFY_MIN_AGE: Time := 30 // seconds
  const STOCK_OUT_OK := 2
  const COMPLETE_FAILED: Text := 2 // failure reason "gs_complete_success=false"

  datatype QR = QR(id: Text, image: Text)

  /** How the surroundings answer one step. `up`: the database answers.
      `state`: PVS QueryStatus, None when it fails. `reversed`: PVS Reverse,
      None when it fails. `returnCode`: GS NotifyPayment, None when it fails. */
  datatype Env = Env(up: bool, now: Time, freshId: Text, qr: Option<QR>, state: Option<int>,
                     reversed: Option<bool>, returnCode: Option<string>)

  const Down := Env(false, 0, EMPTY, None, None, None, None)

  predicate Accepted(env: Env) {
    env.returnCode == Some("") || env.returnCode == Some("success")
  }

  datatype CreateReq = CreateReq(gs: Text, price: int, notifyUrl: Text)
  datatype RefundReq = RefundReq(no: Text, gs: Text, order: Text, price: int)
  datatype HookKey = ByQR(q: Text) | ById(id: Text)

  /** What arrives from outside, or what the reconciler starts per listed row. */
  datatype Call =
    | Create(req: CreateReq)
    | Webhook(key: HookKey, pvs: Option<PVSStatus>)
    | Correct(id: Text)
    | RetryNotify(id: Text)
    | Complete(id: Text, gs: Text, success: bool, outStock: int)
    | Cancel(id: Text, gs: Text, remark: Text)
    | AskRefund(refund: RefundReq)

  /** A call in flight, named by what it does next. `seen` is the row as it was
      read, possibly long ago. */
  datatype Actor =
    | CreateRead(req: CreateReq)
    | CreateInsert(req: CreateReq, id: Text)
    | CreateAsk(req: CreateReq, id: Text)
    | CreateShow(req: CreateReq, id: Text, qr: QR)
    | CreateFail(id: Text)
    | HookRead(key: HookKey, pvs: Option<PVSStatus>)
    | HookWrite(id: Text, key: HookKey, told: PVSStatus, seen: Row)
    | FixAsk(id: Text, seen: Row)
    | FixWrite(id: Text, seen: Row, state: int)
    | RetryCheck(id: Text, seen: Row)
    | NotifyAsk(id: Text, seen: Row)
    | NotifyWrite(id: Text)
    | CompleteRead(id: Text, gs: Text, success: bool, outStock: int)
    | CompleteWrite(id: Text, to: OrderStatus, patch: Patch)
    | CancelRead(id: Text, gs: Text, remark: Text)
    | CancelWrite(id: Text, patch: Patch)
    | RefundRead(refund: RefundReq)
    | RefundLookup(refund: RefundReq, seen: Row)
    | RefundInsert(refund: RefundReq, seen: Row)
    | RefundAsk(refund: RefundReq)
    | RefundSettle(refund: RefundReq, ok: bool)
    | RefundSettle2(refund: RefundReq, ok: bool)

  /** What an observer of the whole system would note down. */
  datatype Event =
    | AskedQR(gs: Text, id: Text)
    | AskedReverse(no: Text, id: Text)
    | AskedNotify(id: Text)
    | Shown(id: Text)
    | Confirmed(id: Text)
    | ReplyQR(gs: Text, id: Text, url: Text)

  datatype Outcome = Outcome(write: Write, next: Option<Actor>, events: seq<Event>)

  const Finished := Outcome(NoWrite, None, [])

  function Go(a: Actor): Outcome {
    Outcome(NoWrite, Some(a), [])
  }

  /** The first machine state of a call; the reconciler's listings only return
      rows with these statuses, and requests are checked for missing fields. */
  function Begin(db: DB, call: Call): Option<Actor> {
    match call
    case Create(req) =>
      if req.gs != EMPTY && req.notifyUrl != EMPTY && req.price > 0 then Some(CreateRead(req)) else None
    case Webhook(key, pvs) => if key == ById(EMPTY) then None else Some(HookRead(key, pvs))
    case Correct(id) =>
      if id in db.orders && db.orders[id].status in {QRShown, RefundPending} then Some(FixAsk(id, db.orders[id])) else None
    case RetryNotify(id) =>
      if id in db.orders && db.orders[id].status == PaymentConfirmed && db.orders[id].notifiedAt.None?
      then Some(RetryCheck(id, db.orders[id])) else None
    case Complete(id, gs, success, outStock) =>
      if id != EMPTY && gs != EMPTY then Some(CompleteRead(id, gs, success, outStock)) else None
    case Cancel(id, gs, remark) => if id != EMPTY && gs != EMPTY then Some(CancelRead(id, gs, remark)) else None
    case AskRefund(r) => if r.no != EMPTY && r.gs != EMPTY && r.order != EMPTY && r.price > 0 then Some(RefundRead(r)) else None
  }

  ghost function Lookup(db: DB, key: HookKey): Option<Text> {
    match key
    case ByQR(q) => OrderByQR(db, q)
    case ById(id) => if id in db.orders then Some(id) else None
  }

  /** Freshly confirmed orders are left to the notice already under way. */
  predicate Due(r: Row, now: Time) {
    now - r.updatedAt >= NOTIFY_MIN_AGE && r.notifyUrl != EMPTY && r.notifiedAt.None?
  }

  function PaidPatch(to: OrderStatus, now: Time): Patch {
    if to == PaymentConfirmed then PaidField(now) else NoFields
  }

  /** The in-memory order after this call confirmed its payment. */
  function SeenPaid(seen: Row, now: Time): Row {
    seen.(status := PaymentConfirmed, paidAt := if seen.paidAt.Some? then seen.paidAt else Some(now))
  }

  /** A conditional write by a delivery or a correction, then the notice to GS
      if this very write confirmed the payment. */
  function Conditional(db: DB, id: Text, seen: Row, to: OrderStatus, env: Env): Outcome {
    var w := SetOrderIf(id, seen.status, to, PaidPatch(to, env.now), env.now);
    if !env.up || !Succeeds(db, w) then Finished
    else if to == PaymentConfirmed then Outcome(w, Some(NotifyAsk(id, SeenPaid(seen, env.now))), [Confirmed(id)])
    else Outcome(w, None, [])
  }

  /** An unconditional statement after which the call goes on whatever happened. */
  function BestEffort(env: Env, w: Write, next: Option<Actor>): Outcome {
    Outcome(if env.up then w else NoWrite, next, [])
  }

  function NewRow(req: CreateReq, now: Time): Row {
    Row(req.gs, req.price, req.notifyUrl, Received, None, EMPTY, None, None, None, None, None, EMPTY, now)
  }

  /** One step of one call. */
  ghost function Advance(db: DB, a: Actor, env: Env): Outcome {
    match a
    case CreateRead(req) =>
      var hit := OrderByGs(db, req.gs);
      if env.up && hit.Some? && db.orders[hit.value].qrImage != EMPTY then
        Outcome(NoWrite, None, [ReplyQR(req.gs, hit.value, db.orders[hit.value].qrImage)])
      else Go(CreateInsert(req, env.freshId))
    case CreateInsert(req, id) =>
      var w := InsertOrder(id, NewRow(req, env.now));
      if env.up && Succeeds(db, w) then Outcome(w, Some(CreateAsk(req, id)), []) else Finished
    case CreateAsk(req, id) =>
      Outcome(NoWrite, Some(if env.qr.Some? then CreateShow(req, id, env.qr.value) else CreateFail(id)),
              [AskedQR(req.gs, id)])
    case CreateShow(req, id, qr) =>
      var w := SetOrder(id, QRShown, QRFields(qr.id, qr.image, env.now + QR_EXPIRY), env.now);
      if env.up && Succeeds(db, w) then Outcome(w, None, [Shown(id), ReplyQR(req.gs, id, qr.image)]) else Finished
    case CreateFail(id) => BestEffort(env, SetOrder(id, Failed, NoFields, env.now), None)
    case HookRead(key, pvs) =>
      var hit := Lookup(db, key);
      if !env.up || hit.None? || pvs.None? then Finished else
      var seen := db.orders[hit.value];
      var to := WebhookTarget(pvs.value, seen.status);
      if to.Some? && CanTransitionTo(seen.status, to.value) then Go(HookWrite(hit.value, key, pvs.value, seen)) else Finished
    case HookWrite(id, _, told, seen) =>
      var to := WebhookTarget(told, seen.status);
      if to.Some? then Conditional(db, id, seen, to.value, env) else Finished
    case FixAsk(id, seen) =>
      if env.state.Some? && CorrectionTarget(seen.status, env.state.value).Some?
      then Go(FixWrite(id, seen, env.state.value)) else Finished
    case FixWrite(id, seen, state) =>
      var to := CorrectionTarget(seen.status, state);
      if to.Some? then Conditional(db, id, seen, to.value, env) else Finished
    case RetryCheck(id, seen) => if Due(seen, env.now) then Go(NotifyAsk(id, seen)) else Finished
    case NotifyAsk(id, seen) =>
      if seen.notifyUrl == EMPTY || seen.notifiedAt.Some? || seen.status != PaymentConfirmed then Finished
      else Outcome(NoWrite, if Accepted(env) then Some(NotifyWrite(id)) else None, [AskedNotify(id)])
    case NotifyWrite(id) => BestEffort(env, SetOrder(id, PaymentConfirmed, NotifiedField(env.now), env.now), None)
    case CompleteRead(id, gs, success, outStock) =>
      if !env.up || id !in db.orders || db.orders[id].gs != gs || (success && outStock != STOCK_OUT_OK) then Finished else
      var to := if success then Done else Failed;
      if !CanTransitionTo(db.orders[id].status, to) then Finished
      else Go(CompleteWrite(id, to, if success then CompletedField(env.now) else FailureField(COMPLETE_FAILED)))
    case CompleteWrite(id, to, patch) => BestEffort(env, SetOrder(id, to, patch, env.now), None)
    case CancelRead(id, gs, remark) =>
      if !env.up || id !in db.orders || db.orders[id].gs != gs then Finished
      else if !CanTransitionTo(db.orders[id].status, Cancelled) then Finished
      else Go(CancelWrite(id, CancelFields(env.now, remark)))
    case CancelWrite(id, patch) => BestEffort(env, SetOrder(id, Cancelled, patch, env.now), None)
    case RefundRead(r) =>
      if !env.up || r.order !in db.orders || db.orders[r.order].gs != r.gs then Finished
      else Go(RefundLookup(r, db.orders[r.order]))
    case RefundLookup(r, seen) =>
      if !env.up || r.no in db.refunds || !CanTransitionTo(seen.status, RefundPending) || seen.paidAt.None? then Finished
      else Go(RefundInsert(r, seen))
    case RefundInsert(r, seen) =>
      var w := InsertRefund(r.no, Refund(r.order, r.price, Pending, env.now));
      if env.up && Succeeds(db, w) then Outcome(w, Some(RefundAsk(r)), []) else Finished
    case RefundAsk(r) =>
      Outcome(NoWrite, Some(RefundSettle(r, env.reversed == Some(true))), [AskedReverse(r.no, r.order)])
    case RefundSettle(r, ok) =>
      BestEffort(env, if ok then SetOrder(r.order, RefundPending, NoFields, env.now) else SetRefund(r.no, Failure),
                 Some(RefundSettle2(r, ok)))
    case RefundSettle2(r, ok) =>
      BestEffort(env, if ok then SetRefund(r.no, Success) else SetOrder(r.order, RefundFailed, NoFields, env.now), None)
  }

  // ---------------------------------------------------------------- interleaving

  datatype Sys = Sys(db: DB, actors: map<nat, Actor>, issued: set<Text>, log: seq<Event>)

  const Init := Sys(EmptyDB, map[], {}, [])

  /** A call arrives, or one call in flight makes its next step. */
  datatype Step = Start(pid: nat, call: Call) | Move(pid: nat, env: Env)

  /** Order numbers are generated unique. */
  predicate Fresh(s: Sys, a: Actor, env: Env) {
    a.CreateRead? ==> env.freshId != EMPTY && env.freshId !in s.issued
  }

  /** One step of the system; a step that is not possible leaves it as it is. */
  ghost function Apply(s: Sys, step: Step): Sys {
    match step
    case Start(pid, call) =>
      var a := Begin(s.db, call);
      if pid in s.actors || a.None? then s else s.(actors := s.actors[pid := a.value])
    case Move(pid, env) =>
      if pid !in s.actors || !Fresh(s, s.actors[pid], env) then s else
      var a := s.actors[pid];
      var o := Advance(s.db, a, env);
      Sys(Perform(s.db, o.write),
          if o.next.Some? then s.actors[pid := o.next.value] else s.actors - {pid},
          if a.CreateRead? then s.issued + {env.freshId} else s.issued,
          s.log + o.events)
  }

  ghost function Exec(s: Sys, steps: seq<Step>): Sys
    decreases steps
  {
    if steps == [] then s else Exec(Apply(s, steps[0]), steps[1..])
  }

  /** A state that some interleaving of any number of calls leads to. */
  ghost predicate Reachable(s: Sys) {
    exists steps :: s == Exec(Init, steps)
  }

  /** POST /order/status: the code of an order, if the pair of numbers matches. */
  function QueryStatus(db: DB, gs: Text, id: Text): Option<int> {
    if gs != EMPTY && id in db.orders && db.orders[id].gs == gs then Some(ToGSStatus(db.orders[id].status)) else None
  }

  // ---------------------------------------------------------------- one call on its own

  /** How many steps a call still makes at most. */
  function Left(a: Actor): nat {
    match a
    case CreateRead(_) => 4
    case CreateInsert(_, _) => 3
    case CreateAsk(_, _) => 2
    case CreateShow(_, _, _) => 1
    case CreateFail(_) => 1
    case HookRead(_, _) => 4
    case HookWrite(_, _, _, _) => 3
    case FixAsk(_, _) => 4
    case FixWrite(_, _, _) => 3
    case RetryCheck(_, _) => 3
    case NotifyAsk(_, _) => 2
    case NotifyWrite(_) => 1
    case CompleteRead(_, _, _, _) => 2
    case CompleteWrite(_, _, _) => 1
    case CancelRead(_, _, _) => 2
    case CancelWrite(_, _) => 1
    case RefundRead(_) => 6
    case RefundLookup(_, _) => 5
    case RefundInsert(_, _) => 4
    case RefundAsk(_) => 3
    case RefundSettle(_, _) => 2
    case RefundSettle2(_, _) => 1
  }

  datatype Trace = Trace(db: DB, events: seq<Event>)

  /** The surroundings' answers, one per step; missing answers mean they are down. */
  function Head(envs: seq<Env>): Env {
    if envs == [] then Down else envs[0]
  }

  function Tail(envs: seq<Env>): seq<Env> {
    if envs == [] then [] else envs[1..]
  }

  /** A call run to its end with nothing in between its steps. */
  ghost function Alone(db: DB, a: Actor, envs: seq<Env>): Trace
    decreases Left(a)
  {
    var o := Advance(db, a, Head(envs));
    var db' := Perform(db, o.write);
    if o.next.None? then Trace(db', o.events) else
    var rest := Alone(db', o.next.value, Tail(envs));
    Trace(rest.db, o.events + rest.events)
  }

  ghost function Serve(db: DB, call: Call, envs: seq<Env>): Trace {
    var a := Begin(db, call);
    if a.None? then Trace(db, []) else Alone(db, a.value, envs)
  }

  /** What a delivery does at its read. */
  lemma DeliveryRead(db: DB, key: HookKey, told: Option<PVSStatus>, id: Text, env: Env)
    requires env.up && Lookup(db, key) == Some(id) && id in db.orders
    ensures var to := if told.Some? then WebhookTarget(told.value, db.orders[id].status) else None;
      Advance(db, HookRead(key, told), env) ==
        if to.Some? && CanTransitionTo(db.orders[id].status, to.value) then Go(HookWrite(id, key, told.value, db.orders[id]))
        else Finished
  {
  }

  lemma AloneStep(db: DB, a: Actor, envs: seq<Env>)
    ensures var o := Advance(db, a, Head(envs));
      var db' := Perform(db, o.write);
      Alone(db, a, envs) ==
        if o.next.None? then Trace(db', o.events)
        else Trace(Alone(db', o.next.value, Tail(envs)).db, o.events + Alone(db', o.next.value, Tail(envs)).events)
  {
  }

  /** A guarded write and the notice that may follow it. */
  ghost function GuardedTrace(db: DB, id: Text, seen: Row, to: OrderStatus, envs: seq<Env>): Trace {
    var w := SetOrderIf(id, seen.status, to, PaidPatch(to, Head(envs).now), Head(envs).now);
    if !Head(envs).up || !Succeeds(db, w) then Trace(db, [])
    else if to != PaymentConfirmed then Trace(Perform(db, w), [])
    else
      var rest := Alone(Perform(db, w), NotifyAsk(id, SeenPaid(seen, Head(envs).now)), Tail(envs));
      Trace(rest.db, [Confirmed(id)] + rest.events)
  }

  lemma DeliveryWrites(db: DB, id: Text, key: HookKey, told: PVSStatus, seen: Row, to: OrderStatus, envs: seq<Env>)
    requires WebhookTarget(told, seen.status) == Some(to)
    ensures Alone(db, HookWrite(id, key, told, seen), envs) == GuardedTrace(db, id, seen, to, envs)
  {
    AloneStep(db, HookWrite(id, key, told, seen), envs);
  }

  lemma CorrectionWrites(db: DB, id: Text, seen: Row, state: int, to: OrderStatus, envs: seq<Env>)
    requires CorrectionTarget(seen.status, state) == Some(to)
    ensures Alone(db, FixWrite(id, seen, state), envs) == GuardedTrace(db, id, seen, to, envs)
  {
    AloneStep(db, FixWrite(id, seen, state), envs);
  }
}
