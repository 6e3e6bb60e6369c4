/** Laws of serial runs that interleaving breaks, one run each, with clocks that
    a real run could show: answers come within ten seconds of the question. */
module Races {
  import opened Status
  import opened Tables
  import opened Protocol
  import opened Serial
  import opened Refunds

  // ---------------------------------------------------------------- runs with a clock

  predicate Before(x: Step, y: Step) {
    x.Move? && y.Move? ==> x.env.now <= y.env.now
  }

  /** The clock never runs backwards, and shows at most t. */
  predicate Clocked(steps: seq<Step>, t: Time) {
    && (forall i, j :: 0 <= i < j < |steps| ==> Before(steps[i], steps[j]))
    && (forall i :: 0 <= i < |steps| ==> steps[i].Move? ==> steps[i].env.now <= t)
  }

  ghost predicate ReachableBy(s: Sys, t: Time) {
    exists steps :: s == Exec(Init, steps) && Clocked(steps, t)
  }

  lemma {:induction false} ExecStep(s: Sys, steps: seq<Step>, step: Step)
    ensures Exec(s, steps + [step]) == Apply(Exec(s, steps), step)
    decreases steps
  {
    if steps == [] {
      assert [step][1..] == [];
    } else {
      assert (steps + [step])[1..] == steps[1..] + [step];
      ExecStep(Apply(s, steps[0]), steps[1..], step);
    }
  }

  lemma ReachStep(s: Sys, t: Time, step: Step, t': Time)
    requires ReachableBy(s, t) && t <= t' && (step.Move? ==> step.env.now == t')
    ensures ReachableBy(Apply(s, step), t')
  {
    var steps :| s == Exec(Init, steps) && Clocked(steps, t);
    ExecStep(Init, steps, step);
    assert Clocked(steps + [step], t');
  }

  lemma Arrive(s: Sys, t: Time, pid: nat, call: Call, a: Actor) returns (s': Sys)
    requires ReachableBy(s, t) && pid !in s.actors && Begin(s.db, call) == Some(a)
    ensures ReachableBy(s', t) && s' == s.(actors := s.actors[pid := a]) == Apply(s, Start(pid, call))
  {
    s' := Apply(s, Start(pid, call));
    ReachStep(s, t, Start(pid, call), t);
  }

  lemma Proceed(s: Sys, t: Time, pid: nat, t': Time, o: Outcome) returns (s': Sys)
    requires ReachableBy(s, t) && t <= t' && pid in s.actors
    requires Fresh(s, s.actors[pid], Fine(t')) && Advance(s.db, s.actors[pid], Fine(t')) == o
    ensures ReachableBy(s', t') && s' == Apply(s, Move(pid, Fine(t')))
    ensures s'.db == Perform(s.db, o.write) && s'.log == s.log + o.events
    ensures s'.actors == if o.next.Some? then s.actors[pid := o.next.value] else s.actors - {pid}
    ensures s'.issued == s.issued + if s.actors[pid].CreateRead? then {ID} else {}
  {
    s' := Apply(s, Move(pid, Fine(t')));
    ReachStep(s, t, Move(pid, Fine(t')), t');
  }

  // ---------------------------------------------------------------- one paid order

  const ID: Text := 10
  const GS: Text := 11
  const URL: Text := 12
  const Shop: CreateReq := CreateReq(GS, 150, URL)

  /** Surroundings in which everything goes well. */
  function Fine(t: Time): Env {
    Env(true, t, ID, Some(QR(20, 21)), Some(2), Some(true), Some("success"))
  }

  const NewOrder := NewRow(Shop, 0)
  const WaitingRow := NewOrder.(status := QRShown, qrId := Some(20), qrImage := 21, qrExpiresAt := Some(QR_EXPIRY))
  const PaidRow := WaitingRow.(status := PaymentConfirmed, paidAt := Some(60), updatedAt := 60)

  /** A row may be written: there is no other whose QR could be taken. */
  lemma Written(db: DB, id: Text, r: Row, w: Write)
    requires db.orders == map[id := r]
    requires (w.SetOrder? || w.SetOrderIf?) && w.id == id && (w.SetOrderIf? ==> r.status == w.expected)
    ensures Succeeds(db, w)
    ensures Perform(db, w).orders == map[id := WithPatch(r, w.patch).(status := w.status, updatedAt := w.now)]
    ensures Perform(db, w).refunds == db.refunds
  {
  }

  lemma CreateSteps(db: DB)
    requires db.orders == map[]
    ensures Begin(db, Create(Shop)) == Some(CreateRead(Shop))
    ensures Advance(db, CreateRead(Shop), Fine(0)) == Go(CreateInsert(Shop, ID))
    ensures Advance(db, CreateInsert(Shop, ID), Fine(0)) == Outcome(InsertOrder(ID, NewOrder), Some(CreateAsk(Shop, ID)), [])
    ensures Perform(db, InsertOrder(ID, NewOrder)).orders == map[ID := NewOrder]
  {
  }

  lemma AskStep(db: DB)
    ensures Advance(db, CreateAsk(Shop, ID), Fine(0)) ==
            Outcome(NoWrite, Some(CreateShow(Shop, ID, QR(20, 21))), [AskedQR(GS, ID)])
  {
  }

  /** A new order whose QR PVS has just given. */
  lemma AskedOrder() returns (s: Sys)
    ensures ReachableBy(s, 0)
    ensures s.db.orders == map[ID := NewOrder] && s.db.refunds == map[]
    ensures s.actors == map[0 := CreateShow(Shop, ID, QR(20, 21))]
  {
    assert Init == Exec(Init, []) && Clocked([], 0);
    CreateSteps(EmptyDB);
    s := Arrive(Init, 0, 0, Create(Shop), CreateRead(Shop));
    s := Proceed(s, 0, 0, 0, Go(CreateInsert(Shop, ID)));
    s := Proceed(s, 0, 0, 0, Outcome(InsertOrder(ID, NewOrder), Some(CreateAsk(Shop, ID)), []));
    AskStep(s.db);
    s := Proceed(s, 0, 0, 0, Outcome(NoWrite, Some(CreateShow(Shop, ID, QR(20, 21))), [AskedQR(GS, ID)]));
  }

  /** An order that shows its QR, and nothing else in flight. */
  lemma ShownOrder() returns (s: Sys)
    ensures ReachableBy(s, 0)
    ensures s.db.orders == map[ID := WaitingRow] && s.db.refunds == map[] && s.actors == map[]
  {
    s := AskedOrder();
    var w := SetOrder(ID, QRShown, QRFields(20, 21, QR_EXPIRY), 0);
    Written(s.db, ID, NewOrder, w);
    s := Proceed(s, 0, 0, 0, Outcome(w, None, [Shown(ID), ReplyQR(GS, ID, 21)]));
  }

  const Confirm := SetOrderIf(ID, QRShown, PaymentConfirmed, PaidField(60), 60)

  lemma DeliverySteps(db: DB)
    requires db.orders == map[ID := WaitingRow]
    ensures Begin(db, Webhook(ById(ID), Some(Approved))) == Some(HookRead(ById(ID), Some(Approved)))
    ensures Advance(db, HookRead(ById(ID), Some(Approved)), Fine(60)) == Go(HookWrite(ID, ById(ID), Approved, WaitingRow))
    ensures Advance(db, HookWrite(ID, ById(ID), Approved, WaitingRow), Fine(60)) ==
            Outcome(Confirm, Some(NotifyAsk(ID, PaidRow.(updatedAt := 0))), [Confirmed(ID)])
    ensures Perform(db, Confirm).orders == map[ID := PaidRow] && Perform(db, Confirm).refunds == db.refunds
  {
    assert CanTransitionTo(QRShown, PaymentConfirmed);
    Written(db, ID, WaitingRow, Confirm);
  }

  /** Its payment confirmed, at second 60, by a delivery that is about to notify GS. */
  lemma PaidOrder() returns (s: Sys)
    ensures ReachableBy(s, 60)
    ensures s.db.orders == map[ID := PaidRow] && s.db.refunds == map[]
    ensures s.actors == map[1 := NotifyAsk(ID, PaidRow.(updatedAt := 0))]
  {
    s := ShownOrder();
    DeliverySteps(s.db);
    s := Arrive(s, 0, 1, Webhook(ById(ID), Some(Approved)), HookRead(ById(ID), Some(Approved)));
    s := Proceed(s, 0, 1, 60, Go(HookWrite(ID, ById(ID), Approved, WaitingRow)));
    s := Proceed(s, 60, 1, 60, Outcome(Confirm, Some(NotifyAsk(ID, PaidRow.(updatedAt := 0))), [Confirmed(ID)]));
  }

  const Notified := Outcome(NoWrite, Some(NotifyWrite(ID)), [AskedNotify(ID)])

  lemma NoticeGoesOut(db: DB, seen: Row, t: Time)
    requires seen == PaidRow || seen == PaidRow.(updatedAt := 0)
    ensures Advance(db, NotifyAsk(ID, seen), Fine(t)) == Notified
  {
  }

  function Mark(t: Time): Write {
    SetOrder(ID, PaymentConfirmed, NotifiedField(t), t)
  }

  lemma MarkGoesIn(db: DB, r: Row, t: Time)
    requires db.orders == map[ID := r]
    ensures Advance(db, NotifyWrite(ID), Fine(t)) == Outcome(Mark(t), None, [])
    ensures Perform(db, Mark(t)).orders == map[ID := r.(notifiedAt := Some(t), status := PaymentConfirmed, updatedAt := t)]
  {
    Written(db, ID, r, Mark(t));
  }

  // ---------------------------------------------------------------- a terminal status is left

  const CancelledRow := PaidRow.(status := Cancelled, cancelledAt := Some(65), updatedAt := 65)
  const CancelIt := SetOrder(ID, Cancelled, CancelFields(65, EMPTY), 65)

  lemma CancelSteps(db: DB)
    requires db.orders == map[ID := PaidRow]
    ensures Begin(db, Cancel(ID, GS, EMPTY)) == Some(CancelRead(ID, GS, EMPTY))
    ensures Advance(db, CancelRead(ID, GS, EMPTY), Fine(65)) == Go(CancelWrite(ID, CancelFields(65, EMPTY)))
    ensures Advance(db, CancelWrite(ID, CancelFields(65, EMPTY)), Fine(65)) == Outcome(CancelIt, None, [])
    ensures Perform(db, CancelIt).orders == map[ID := CancelledRow]
  {
    assert CanTransitionTo(PaymentConfirmed, Cancelled);
    Written(db, ID, PaidRow, CancelIt);
  }

  /** A cancellation of the paid order, run whole at second 65. */
  lemma CancelAll(s: Sys) returns (s': Sys)
    requires ReachableBy(s, 60) && s.db.orders == map[ID := PaidRow] && 2 !in s.actors
    ensures ReachableBy(s', 65) && s'.actors == s.actors
    ensures s'.db.orders == map[ID := CancelledRow]
  {
    CancelSteps(s.db);
    s' := Arrive(s, 60, 2, Cancel(ID, GS, EMPTY), CancelRead(ID, GS, EMPTY));
    s' := Proceed(s', 60, 2, 65, Go(CancelWrite(ID, CancelFields(65, EMPTY))));
    s' := Proceed(s', 65, 2, 65, Outcome(CancelIt, None, []));
    assert s'.actors == s.actors;
  }

  lemma NoWayBack()
    ensures IsTerminal(Cancelled) && !Path(Cancelled, PaymentConfirmed)
  {
    if Path(Cancelled, PaymentConfirmed) { PathLowersRank(Cancelled, PaymentConfirmed); }
  }

  /** Terminal statuses are not final: the late mark of an accepted notice takes
      a cancelled order back to PAYMENT_CONFIRMED, along no path of the table. */
  lemma CancelledOrderComesBack() returns (s: Sys, s': Sys, step: Step)
    ensures ReachableBy(s, 65) && ReachableBy(s', 66) && s' == Apply(s, step) && ID in s.db.orders && ID in s'.db.orders
    ensures s.db.orders[ID].status == Cancelled && s'.db.orders[ID].status == PaymentConfirmed
    ensures IsTerminal(Cancelled) && !Path(Cancelled, PaymentConfirmed)
  {
    s := PaidOrder();
    NoticeGoesOut(s.db, PaidRow.(updatedAt := 0), 60);
    s := Proceed(s, 60, 1, 60, Notified);
    s := CancelAll(s);
    step := Move(1, Fine(66));
    MarkGoesIn(s.db, CancelledRow, 66);
    s' := Proceed(s, 65, 1, 66, Outcome(Mark(66), None, []));
    NoWayBack();
  }

  // ---------------------------------------------------------------- a notice is repeated

  lemma RetrySteps(db: DB, db': DB)
    requires db.orders == map[ID := PaidRow]
    ensures Begin(db, RetryNotify(ID)) == Some(RetryCheck(ID, PaidRow))
    ensures Advance(db', RetryCheck(ID, PaidRow), Fine(100)) == Go(NotifyAsk(ID, PaidRow))
  {
  }

  /** One order is noticed twice although GS accepted the first notice and its
      mark was written: the reconciler listed the row at second 62, before the
      mark of second 66, and reached it in its loop at second 100, when the row
      it holds is old enough. */
  lemma TwoNotices() returns (s: Sys, s': Sys, step: Step)
    ensures ReachableBy(s, 100) && ReachableBy(s', 100) && s' == Apply(s, step)
    ensures ID in s.db.orders && s.db.orders[ID].notifiedAt == Some(66)
    ensures AskedNotify(ID) in s.log && s'.log == s.log + [AskedNotify(ID)]
  {
    s := PaidOrder();
    NoticeGoesOut(s.db, PaidRow.(updatedAt := 0), 62);
    s := Proceed(s, 60, 1, 62, Notified);
    assert s.log[|s.log| - 1] == AskedNotify(ID);
    RetrySteps(s.db, s.db);
    s := Arrive(s, 62, 2, RetryNotify(ID), RetryCheck(ID, PaidRow));
    MarkGoesIn(s.db, PaidRow, 66);
    s := Proceed(s, 62, 1, 66, Outcome(Mark(66), None, []));
    s := RetryIsDue(s);
    NoticeGoesOut(s.db, PaidRow, 100);
    step := Move(2, Fine(100));
    s' := Proceed(s, 100, 2, 100, Notified);
  }

  lemma RetryIsDue(s: Sys) returns (s': Sys)
    requires ReachableBy(s, 66) && 2 in s.actors && s.actors[2] == RetryCheck(ID, PaidRow)
    ensures ReachableBy(s', 100) && s'.db == s.db && s'.log == s.log
    ensures 2 in s'.actors && s'.actors[2] == NotifyAsk(ID, PaidRow)
  {
    s' := Proceed(s, 66, 2, 100, Go(NotifyAsk(ID, PaidRow)));
  }

  // ---------------------------------------------------------------- money is sent back twice

  lemma RefundSteps(db: DB, r: RefundReq)
    requires db.orders == map[ID := PaidRow] && db.refunds == map[]
    requires r.no != EMPTY && r.gs == GS && r.order == ID && r.price > 0
    ensures Begin(db, AskRefund(r)) == Some(RefundRead(r))
    ensures Advance(db, RefundRead(r), Fine(60)) == Go(RefundLookup(r, PaidRow))
    ensures Advance(db, RefundLookup(r, PaidRow), Fine(60)) == Go(RefundInsert(r, PaidRow))
  {
    assert CanTransitionTo(PaymentConfirmed, RefundPending);
  }

  /** Start a refund call and move it up to its insert. */
  lemma RefundUnderWay(s: Sys, pid: nat, r: RefundReq) returns (s': Sys)
    requires ReachableBy(s, 60) && s.db.orders == map[ID := PaidRow] && s.db.refunds == map[] && pid !in s.actors
    requires r.no != EMPTY && r.gs == GS && r.order == ID && r.price > 0
    ensures ReachableBy(s', 60) && s'.db == s.db && s'.log == s.log
    ensures s'.actors == s.actors[pid := RefundInsert(r, PaidRow)]
  {
    RefundSteps(s.db, r);
    s' := Arrive(s, 60, pid, AskRefund(r), RefundRead(r));
    s' := Proceed(s', 60, pid, 60, Go(RefundLookup(r, PaidRow)));
    s' := Proceed(s', 60, pid, 60, Go(RefundInsert(r, PaidRow)));
    assert s'.actors == s.actors[pid := RefundInsert(r, PaidRow)];
  }

  /** Insert the refund and ask PVS. */
  lemma RefundAsked(s: Sys, pid: nat, r: RefundReq, seen: Row) returns (s': Sys)
    requires ReachableBy(s, 60) && pid in s.actors && s.actors[pid] == RefundInsert(r, seen) && r.no !in s.db.refunds
    ensures ReachableBy(s', 60) && s'.log == s.log + [AskedReverse(r.no, r.order)]
    ensures s'.actors == s.actors[pid := RefundSettle(r, true)]
    ensures s'.db.refunds.Keys == s.db.refunds.Keys + {r.no}
  {
    s' := Proceed(s, 60, pid, 60, Outcome(InsertRefund(r.no, Refund(r.order, r.price, Pending, 60)), Some(RefundAsk(r)), []));
    s' := Proceed(s', 60, pid, 60, Outcome(NoWrite, Some(RefundSettle(r, true)), [AskedReverse(r.no, r.order)]));
    assert s'.actors == s.actors[pid := RefundSettle(r, true)];
  }

  /** One order is reversed twice, under two refund numbers whose calls overlap. */
  lemma TwoReverses() returns (s: Sys)
    ensures ReachableBy(s, 60) && |s.log| >= 2 && s.log[|s.log| - 2..] == [AskedReverse(31, ID), AskedReverse(32, ID)]
  {
    var first, second := RefundReq(31, GS, ID, 150), RefundReq(32, GS, ID, 150);
    var s0 := PaidOrder();
    var s1 := RefundUnderWay(s0, 2, first);
    var s2 := RefundUnderWay(s1, 3, second);
    var s3 := RefundAsked(s2, 2, first, PaidRow);
    s := RefundAsked(s3, 3, second, PaidRow);
    LastTwo(s2.log, AskedReverse(31, ID), AskedReverse(32, ID));
  }

  lemma LastTwo(log: seq<Event>, e: Event, f: Event)
    ensures var l := log + [e] + [f];
      |l| >= 2 && l[|l| - 2..] == [e, f]
  {
  }

  // ---------------------------------------------------------------- without any overlap

  /** The fifth statement, which should take the order to REFUND_PENDING, is lost. */
  const Losing := [Fine(60), Fine(60), Fine(60), Fine(60), Down, Fine(60)]

  lemma FirstRefundAsks(db: DB, r: RefundReq)
    requires db.orders == map[ID := PaidRow] && db.refunds == map[] && r == RefundReq(31, GS, ID, 150)
    ensures AskedReverse(31, ID) in Serve(db, AskRefund(r), Losing).events && !StatusUp(RefundRead(r), Losing)
    ensures Head(Losing).up && Head(Tail(Losing)).up && Head(Tail(Tail(Losing))).up
  {
    assert Tail(Losing)[1..] == Losing[2..];
    assert CanTransitionTo(PaymentConfirmed, RefundPending);
    RefundAsksIff(db, r, Losing);
  }

  /** Two serial refund calls reverse one order twice when the first loses its
      statement on the order after PVS reversed. */
  lemma LostStatementReversesTwice() returns (db: DB, first: Served, second: Served)
    ensures Quiet(db) && !Settles(first)
    ensures AskedReverse(31, ID) in Handle(db, first).events
    ensures AskedReverse(32, ID) in Handle(Handle(db, first).db, second).events
  {
    db := DB(map[ID := PaidRow], map[], []);
    var r := RefundReq(31, GS, ID, 150);
    first := Served(AskRefund(r), Losing);
    second := Served(AskRefund(r.(no := 32)), Losing);
    FirstRefundAsks(db, r);
    OneNewRefund(db, r, Losing);
    ReversedAgainIff(db, first, 32, second);
  }

  lemma OneNewRefund(db: DB, r: RefundReq, envs: seq<Env>)
    ensures Serve(db, AskRefund(r), envs).db.refunds.Keys <= db.refunds.Keys + {r.no}
  {
    if Begin(db, AskRefund(r)).Some? { OnlyItsRefund(db, RefundRead(r), envs); }
  }

  lemma RefundStepRefunds(db: DB, a: Actor, env: Env)
    requires IsRefund(a)
    ensures Perform(db, Advance(db, a, env).write).refunds.Keys <= db.refunds.Keys + {a.refund.no}
  {
  }

  lemma {:induction false} OnlyItsRefund(db: DB, a: Actor, envs: seq<Env>)
    requires IsRefund(a)
    ensures Alone(db, a, envs).db.refunds.Keys <= db.refunds.Keys + {a.refund.no}
    decreases Left(a)
  {
    AloneStep(db, a, envs);
    RefundCallStep(db, a, Head(envs));
    RefundStepRefunds(db, a, Head(envs));
    var o := Advance(db, a, Head(envs));
    if o.next.Some? { OnlyItsRefund(Perform(db, o.write), o.next.value, Tail(envs)); }
  }
}
