/** What a machine is told about a refund, and how often money is sent back. */
module Refunds {
  import opened Status
  import opened Tables
  import opened Protocol
  import opened Interleaved
  import opened Serial

  datatype Answer = AnswerWaiting | AnswerPending | AnswerSuccess | AnswerFail

  /** The vocabulary of /order/refund. */
  function MapForRefund(order: OrderStatus, refund: RefundState): Answer {
    if order == Refunded then AnswerSuccess
    else if refund == Success then AnswerWaiting
    else AnswerFail
  }

  /** The vocabulary of /order/refundStatus. */
  function MapForQuery(order: OrderStatus, refund: RefundState): Answer {
    if order == Refunded then AnswerSuccess
    else if refund == Success || refund == Pending || order == RefundPending then AnswerPending
    else AnswerFail
  }

  /** The most recent refund of an order. */
  ghost function LatestOf(db: DB, id: Text): Option<Text> {
    if no :| no in db.refunds && db.refunds[no].order == id
             && forall m :: m in db.refunds && db.refunds[m].order == id ==> db.refunds[m].createdAt <= db.refunds[no].createdAt
    then Some(no) else None
  }

  /** POST /order/refundStatus: by refund number, else by our order number, else
      by the machine's; the numbers given must belong together. */
  ghost function RefundStatus(db: DB, no: Text, gs: Text, id: Text): Option<(Text, Answer)> {
    if gs == EMPTY then None else
    var found :=
      if no != EMPTY then (if no in db.refunds then Some(no) else None)
      else if id != EMPTY then LatestOf(db, id)
      else var hit := OrderByGs(db, gs); if hit.Some? then LatestOf(db, hit.value) else None;
    if found.None? || db.refunds[found.value].order !in db.orders then None else
    var order := db.refunds[found.value].order;
    if db.orders[order].gs != gs || (id != EMPTY && order != id) then None
    else Some((found.value, MapForQuery(db.orders[order].status, db.refunds[found.value].state)))
  }

  // ---------------------------------------------------------------- refunds and their orders

  /** What a refund row says of its order; a row that stayed pending has lost the
      statement that should have settled it. */
  predicate RefundOkWith(f: Refund, s: OrderStatus) {
    match f.state
    case Pending => s == RefundPending || s == Refunded || s == RefundFailed
    case Success => s == RefundPending || s == Refunded
    case Failure => s == RefundFailed
  }

  /** Refund rows agree with their orders, one per order; `but` is the row of a
      refund call still under way. */
  ghost predicate RefundsOk(db: DB, but: Option<Text>) {
    && (forall no :: no in db.refunds ==> no != EMPTY && db.refunds[no].order in db.orders)
    && (forall no :: no in db.refunds && but != Some(no) ==> RefundOkWith(db.refunds[no], db.orders[db.refunds[no].order].status))
    && (forall m, n :: m in db.refunds && n in db.refunds && db.refunds[m].order == db.refunds[n].order ==> m == n)
  }

  /** The tables between two calls, refunds included. */
  ghost predicate Orderly(db: DB) {
    Quiet(db) && RefundsOk(db, None)
  }

  function UnderWay(a: Actor): Option<Text> {
    if a.RefundAsk? || a.RefundSettle? || a.RefundSettle2? then Some(a.refund.no) else None
  }

  predicate RefundRow(db: DB, r: RefundReq) {
    r.no in db.refunds && db.refunds[r.no].order == r.order
  }

  predicate KnowsRefund(db: DB, a: Actor) {
    && (a.RefundRead? || a.RefundLookup? || a.RefundInsert? ==> a.refund.no != EMPTY)
    && (UnderWay(a).Some? ==> RefundRow(db, a.refund) && db.refunds[a.refund.no].state != Success)
    && (a.RefundSettle2? && a.ok ==> StatusOf(db, a.refund.order, RefundPending) && db.refunds[a.refund.no].state == Pending)
    && ((a.RefundAsk? || a.RefundSettle?) ==> db.refunds[a.refund.no].state == Pending)
  }

  ghost predicate MidRefund(db: DB, a: Actor) {
    Midway(db, a) && RefundsOk(db, UnderWay(a)) && KnowsRefund(db, a)
  }

  /** The statement that takes the order out of the refundable statuses after PVS
      answered, when it is this step that runs it. */
  predicate StatusStep(a: Actor, env: Env) {
    && (a.RefundSettle? && a.ok ==> env.up)
    && (a.RefundSettle2? && !a.ok ==> env.up)
  }

  function Nth(envs: seq<Env>, i: nat): Env {
    if i < |envs| then envs[i] else Down
  }

  predicate BeforeReverse(a: Actor) {
    a.RefundRead? || a.RefundLookup? || a.RefundInsert? || a.RefundAsk?
  }

  /** The same, looking ahead over the answers of a whole call. */
  predicate StatusUp(a: Actor, envs: seq<Env>) {
    if BeforeReverse(a) then
      var k := Left(a) - 3;
      Nth(envs, if Nth(envs, k).reversed == Some(true) then k + 1 else k + 2).up
    else if a.RefundSettle? then Nth(envs, if a.ok then 0 else 1).up
    else a.RefundSettle2? && !a.ok ==> Head(envs).up
  }

  /** A call in a serial run whose refund, if any, is settled on the order. */
  predicate Settles(c: Served) {
    c.call.AskRefund? ==> StatusUp(RefundRead(c.call.refund), c.envs)
  }

  predicate AllSettle(cs: seq<Served>) {
    forall k :: 0 <= k < |cs| ==> Settles(cs[k])
  }

  predicate NoReverse(es: seq<Event>) {
    forall k :: 0 <= k < |es| ==> !es[k].AskedReverse?
  }

  predicate IsRefund(a: Actor) {
    BeforeReverse(a) || a.RefundSettle? || a.RefundSettle2?
  }

  predicate OrderWrite(w: Write) {
    w.NoWrite? || w.InsertOrder? || w.SetOrder? || w.SetOrderIf?
  }

  /** Other calls leave the refunds alone and do not turn into refund calls. */
  lemma OtherCallStep(db: DB, a: Actor, env: Env)
    requires !IsRefund(a)
    ensures var o := Advance(db, a, env);
      && OrderWrite(o.write) && NoReverse(o.events)
      && (o.next.Some? ==> !IsRefund(o.next.value) && Left(o.next.value) < Left(a))
  {
    if a.HookRead? || a.HookWrite? || a.FixAsk? || a.FixWrite? { GuardedCallStep(db, a, env); } else { BlindCallStep(db, a, env); }
  }

  lemma GuardedCallStep(db: DB, a: Actor, env: Env)
    requires a.HookRead? || a.HookWrite? || a.FixAsk? || a.FixWrite?
    ensures var o := Advance(db, a, env);
      && OrderWrite(o.write) && NoReverse(o.events)
      && (o.next.Some? ==> !IsRefund(o.next.value) && Left(o.next.value) < Left(a))
  {
  }

  lemma BlindCallStep(db: DB, a: Actor, env: Env)
    requires !IsRefund(a) && !a.HookRead? && !a.HookWrite? && !a.FixAsk? && !a.FixWrite?
    ensures var o := Advance(db, a, env);
      && OrderWrite(o.write) && NoReverse(o.events)
      && (o.next.Some? ==> !IsRefund(o.next.value) && Left(o.next.value) < Left(a))
  {
  }

  /** A refund call goes through its stages one by one. */
  lemma RefundCallStep(db: DB, a: Actor, env: Env)
    requires IsRefund(a)
    ensures var next := Advance(db, a, env).next;
      next.Some? ==> IsRefund(next.value) && next.value.refund == a.refund && Left(next.value) == Left(a) - 1
                     && (a.RefundAsk? ==> next.value == RefundSettle(a.refund, env.reversed == Some(true)))
                     && (a.RefundSettle? ==> next.value == RefundSettle2(a.refund, a.ok))
  {
  }

  lemma StatusUpShifts(a: Actor, b: Actor, envs: seq<Env>)
    requires BeforeReverse(a) && BeforeReverse(b) && Left(b) == Left(a) - 1
    ensures StatusUp(b, Tail(envs)) <==> StatusUp(a, envs)
  {
    var k := Left(a) - 3;
    NthShifts(envs, k - 1);
    NthShifts(envs, k);
    NthShifts(envs, k + 1);
  }

  lemma NthShifts(envs: seq<Env>, i: nat)
    ensures Nth(envs, i + 1) == Nth(Tail(envs), i) && Nth(envs, 0) == Head(envs)
  {
  }

  lemma StatusUpStep(db: DB, a: Actor, envs: seq<Env>)
    requires StatusUp(a, envs)
    ensures StatusStep(a, Head(envs))
    ensures var next := Advance(db, a, Head(envs)).next;
      next.Some? ==> StatusUp(next.value, Tail(envs))
  {
    NthShifts(envs, 0);
    NthShifts(envs, 1);
    var next := Advance(db, a, Head(envs)).next;
    if !IsRefund(a) {
      OtherCallStep(db, a, Head(envs));
    } else {
      RefundCallStep(db, a, Head(envs));
      if next.Some? && BeforeReverse(next.value) { StatusUpShifts(a, next.value, envs); }
    }
  }

  lemma EdgeKeepsRefund(f: Refund, s: OrderStatus, t: OrderStatus)
    requires RefundOkWith(f, s) && SerialEdge(s, t)
    ensures RefundOkWith(f, t)
  {
  }

  lemma OrderWriteKeepsRefunds(db: DB, w: Write, but: Option<Text>)
    requires RefundsOk(db, but) && SerialWrite(db, w) && OrderWrite(w)
    ensures RefundsOk(Perform(db, w), but)
  {
    var db' := Perform(db, w);
    forall no | no in db'.refunds && but != Some(no)
      ensures RefundOkWith(db'.refunds[no], db'.orders[db'.refunds[no].order].status)
    {
      var id := db.refunds[no].order;
      var s, t := db.orders[id].status, db'.orders[id].status;
      if SerialEdge(s, t) { EdgeKeepsRefund(db.refunds[no], s, t); }
    }
  }

  lemma InsertKeepsRefunds(db: DB, a: Actor, env: Env)
    requires MidRefund(db, a) && a.RefundInsert?
    ensures var o := Advance(db, a, env);
      var db' := Perform(db, o.write);
      RefundsOk(db', if o.next.Some? then UnderWay(o.next.value) else None)
      && (o.next.Some? ==> KnowsRefund(db', o.next.value))
  {
  }

  lemma SettleKeepsRefunds(db: DB, a: Actor, env: Env)
    requires MidRefund(db, a) && a.RefundSettle? && StatusStep(a, env)
    ensures var o := Advance(db, a, env);
      var db' := Perform(db, o.write);
      o.next.Some? && UnderWay(o.next.value) == UnderWay(a) && RefundsOk(db', UnderWay(a)) && KnowsRefund(db', o.next.value)
  {
    AdvanceIsSerial(db, a, env);
    var o := Advance(db, a, env);
    if a.ok { OrderWriteKeepsRefunds(db, o.write, UnderWay(a)); }
  }

  lemma LastKeepsRefunds(db: DB, a: Actor, env: Env)
    requires MidRefund(db, a) && a.RefundSettle2? && StatusStep(a, env)
    ensures RefundsOk(Perform(db, Advance(db, a, env).write), None)
  {
    AdvanceIsSerial(db, a, env);
    var o := Advance(db, a, env);
    if !a.ok { OrderWriteKeepsRefunds(db, o.write, UnderWay(a)); }
  }

  lemma EarlyKeepsRefunds(db: DB, a: Actor, env: Env)
    requires MidRefund(db, a) && (a.RefundRead? || a.RefundLookup? || a.RefundAsk?)
    ensures var o := Advance(db, a, env);
      var db' := Perform(db, o.write);
      && db' == db && RefundsOk(db', if o.next.Some? then UnderWay(o.next.value) else None)
      && (o.next.Some? ==> KnowsRefund(db', o.next.value))
  {
  }

  lemma OthersKeepRefunds(db: DB, a: Actor, env: Env)
    requires MidRefund(db, a) && !IsRefund(a)
    ensures var o := Advance(db, a, env);
      var db' := Perform(db, o.write);
      RefundsOk(db', None) && (o.next.Some? ==> UnderWay(o.next.value) == None && KnowsRefund(db', o.next.value))
  {
    AdvanceIsSerial(db, a, env);
    OtherCallStep(db, a, env);
    OrderWriteKeepsRefunds(db, Advance(db, a, env).write, None);
  }

  lemma AdvanceKeepsRefunds(db: DB, a: Actor, env: Env)
    requires MidRefund(db, a) && StatusStep(a, env)
    requires a.CreateRead? ==> env.freshId != EMPTY && env.freshId !in db.orders
    ensures var o := Advance(db, a, env);
      var db' := Perform(db, o.write);
      if o.next.Some? then MidRefund(db', o.next.value) else Orderly(db')
  {
    AdvanceKeeps(db, a, env);
    if a.RefundInsert? { InsertKeepsRefunds(db, a, env); }
    else if a.RefundSettle? { SettleKeepsRefunds(db, a, env); }
    else if a.RefundSettle2? { LastKeepsRefunds(db, a, env); }
    else if IsRefund(a) { EarlyKeepsRefunds(db, a, env); }
    else { OthersKeepRefunds(db, a, env); }
  }

  lemma {:induction false} AloneKeepsRefunds(db: DB, a: Actor, envs: seq<Env>)
    requires MidRefund(db, a) && StatusUp(a, envs)
    requires a.CreateRead? ==> Head(envs).freshId != EMPTY && Head(envs).freshId !in db.orders
    ensures Orderly(Alone(db, a, envs).db)
    decreases Left(a)
  {
    var o := Advance(db, a, Head(envs));
    AloneStep(db, a, envs);
    StatusUpStep(db, a, envs);
    AdvanceKeepsRefunds(db, a, Head(envs));
    if o.next.Some? {
      NextIsLeft(db, a, Head(envs));
      AloneKeepsRefunds(Perform(db, o.write), o.next.value, Tail(envs));
    }
  }

  lemma HandleKeepsRefunds(db: DB, c: Served)
    requires Orderly(db) && Settles(c)
    ensures Orderly(Handle(db, c).db)
  {
    if Legal(db, c) && Begin(db, c.call).Some? {
      AloneKeepsRefunds(db, Begin(db, c.call).value, c.envs);
    }
  }

  lemma {:induction false} RunKeepsRefunds(db: DB, cs: seq<Served>)
    requires Orderly(db) && AllSettle(cs)
    ensures Orderly(Run(db, cs).db)
    decreases cs
  {
    if cs != [] {
      HandleKeepsRefunds(db, cs[0]);
      RunKeepsRefunds(Handle(db, cs[0]).db, cs[1..]);
    }
  }

  // ---------------------------------------------------------------- what the machine is told

  lemma LatestIsTheOnly(db: DB, no: Text)
    requires Orderly(db) && no in db.refunds
    ensures LatestOf(db, db.refunds[no].order) == Some(no)
  {
    var id := db.refunds[no].order;
    assert forall m :: m in db.refunds && db.refunds[m].order == id ==> m == no;
  }

  /** Every way of asking for a refund finds that refund and says the same. */
  lemma LookupRoutesAgree(db: DB, no: Text)
    requires Orderly(db) && no in db.refunds
    ensures var id := db.refunds[no].order;
      && id in db.orders
      && var gs := db.orders[id].gs;
        var told := Some((no, MapForQuery(db.orders[id].status, db.refunds[no].state)));
        && RefundStatus(db, no, gs, EMPTY) == told
        && RefundStatus(db, no, gs, id) == told
        && RefundStatus(db, EMPTY, gs, id) == told
        && RefundStatus(db, EMPTY, gs, EMPTY) == told
  {
    LatestIsTheOnly(db, no);
    var id := db.refunds[no].order;
    assert RowOk(db.orders[id]);
    assert OrderByGs(db, db.orders[id].gs) == Some(id);
  }

  /** The answer to a question about refund `no` by its number. */
  ghost function AnswerFor(db: DB, no: Text): Answer
    requires RefundsOk(db, None) && no in db.refunds
  {
    MapForQuery(db.orders[db.refunds[no].order].status, db.refunds[no].state)
  }

  /** What the answers stand for: success is a confirmed reversal, fail a refund
      that PVS turned down, and pending everything in between. */
  lemma AnswersMean(db: DB, no: Text)
    requires Orderly(db) && no in db.refunds
    ensures var s, f := db.orders[db.refunds[no].order].status, db.refunds[no].state;
      && (AnswerFor(db, no) == AnswerSuccess <==> s == Refunded)
      && (AnswerFor(db, no) == AnswerFail <==> s == RefundFailed && f == Failure)
      && (AnswerFor(db, no) == AnswerPending <==> s == RefundPending || (s == RefundFailed && f == Pending))
  {
    assert RefundOkWith(db.refunds[no], db.orders[db.refunds[no].order].status);
  }

  /** Numbers that do not belong together get no answer, nor does an unknown refund. */
  lemma MismatchGetsNone(db: DB, no: Text, gs: Text, id: Text)
    requires no != EMPTY
    ensures RefundStatus(db, no, gs, id).Some? <==>
            && gs != EMPTY && no in db.refunds && db.refunds[no].order in db.orders
            && db.orders[db.refunds[no].order].gs == gs && (id != EMPTY ==> id == db.refunds[no].order)
    ensures RefundStatus(db, EMPTY, gs, id).Some? && id != EMPTY ==> id in db.orders && db.orders[id].gs == gs != EMPTY
  {
    if LatestOf(db, id).Some? { assert db.refunds[LatestOf(db, id).value].order == id; }
  }

  /** A refund row is settled by its own call only. */
  lemma {:induction false} AloneLeavesOthers(db: DB, a: Actor, envs: seq<Env>, no: Text)
    requires no in db.refunds && UnderWay(a) != Some(no)
    ensures no in Alone(db, a, envs).db.refunds && Alone(db, a, envs).db.refunds[no] == db.refunds[no]
    decreases Left(a)
  {
    var o := Advance(db, a, Head(envs));
    AloneStep(db, a, envs);
    StepLeavesOthers(db, a, Head(envs), no);
    if o.next.Some? { AloneLeavesOthers(Perform(db, o.write), o.next.value, Tail(envs), no); }
  }

  lemma StepLeavesOthers(db: DB, a: Actor, env: Env, no: Text)
    requires no in db.refunds && UnderWay(a) != Some(no)
    ensures var o := Advance(db, a, env);
      var db' := Perform(db, o.write);
      && no in db'.refunds && db'.refunds[no] == db.refunds[no]
      && (o.next.Some? ==> UnderWay(o.next.value) != Some(no) && Left(o.next.value) < Left(a))
  {
    if IsRefund(a) {
      RefundCallStep(db, a, env);
      RefundStepLeavesOthers(db, a, env, no);
    } else {
      OtherCallStep(db, a, env);
    }
  }

  lemma RefundStepLeavesOthers(db: DB, a: Actor, env: Env, no: Text)
    requires no in db.refunds && IsRefund(a) && UnderWay(a) != Some(no)
    ensures var o := Advance(db, a, env);
      var db' := Perform(db, o.write);
      && no in db'.refunds && db'.refunds[no] == db.refunds[no]
      && (o.next.Some? ==> UnderWay(o.next.value) != Some(no))
  {
  }

  lemma {:induction false} RunLeavesOthers(db: DB, cs: seq<Served>, no: Text)
    requires no in db.refunds
    ensures no in Run(db, cs).db.refunds && Run(db, cs).db.refunds[no] == db.refunds[no]
    decreases cs
  {
    if cs != [] {
      var c := cs[0];
      if Legal(db, c) && Begin(db, c.call).Some? { AloneLeavesOthers(db, Begin(db, c.call).value, c.envs, no); }
      RunLeavesOthers(Handle(db, c).db, cs[1..], no);
    }
  }

  /** Over a whole run the answers are pending and then maybe success for good,
      or fail for good. */
  lemma AnswersNeverRegress(db: DB, cs: seq<Served>, no: Text)
    requires Orderly(db) && no in db.refunds && AllSettle(cs)
    ensures Orderly(Run(db, cs).db) && no in Run(db, cs).db.refunds
    ensures var before, after := AnswerFor(db, no), AnswerFor(Run(db, cs).db, no);
      match before
      case AnswerPending => after == AnswerPending || after == AnswerSuccess
      case AnswerSuccess => after == AnswerSuccess
      case AnswerFail => after == AnswerFail
      case AnswerWaiting => false
  {
    RunKeeps(db, cs);
    RunKeepsRefunds(db, cs);
    RunLeavesOthers(db, cs, no);
    var db' := Run(db, cs).db;
    var id := db.refunds[no].order;
    assert RowEvolves(db.orders[id], db'.orders[id]);
    assert RefundOkWith(db.refunds[no], db.orders[id].status) && RefundOkWith(db'.refunds[no], db'.orders[id].status);
  }

  // ---------------------------------------------------------------- how often money is sent back

  predicate BeyondRefund(db: DB, id: Text) {
    id in db.orders && Rank(db.orders[id].status) <= 1
  }

  lemma {:induction false} OthersDoNotReverse(db: DB, a: Actor, envs: seq<Env>)
    requires !BeforeReverse(a)
    ensures NoReverse(Alone(db, a, envs).events)
    decreases Left(a)
  {
    var o := Advance(db, a, Head(envs));
    AloneStep(db, a, envs);
    AfterReverse(db, a, Head(envs));
    if o.next.Some? { OthersDoNotReverse(Perform(db, o.write), o.next.value, Tail(envs)); }
  }

  lemma AfterReverse(db: DB, a: Actor, env: Env)
    requires !BeforeReverse(a)
    ensures var o := Advance(db, a, env);
      && NoReverse(o.events)
      && (o.next.Some? ==> Left(o.next.value) < Left(a) && !BeforeReverse(o.next.value))
  {
    if IsRefund(a) { RefundCallStep(db, a, env); } else { OtherCallStep(db, a, env); }
  }

  lemma FirstSettleStep(db: DB, a: Actor, env: Env)
    requires Midway(db, a) && a.RefundSettle?
    ensures var o := Advance(db, a, env);
      var db' := Perform(db, o.write);
      && o.events == [] && o.next == Some(RefundSettle2(a.refund, a.ok)) && a.refund.order in db'.orders
      && !BeyondRefund(db, a.refund.order)
      && (BeyondRefund(db', a.refund.order) <==> a.ok && env.up)
  {
  }

  lemma LastSettleStep(db: DB, a: Actor, env: Env)
    requires Midway(db, a) && a.RefundSettle2?
    ensures var o := Advance(db, a, env);
      var db' := Perform(db, o.write);
      && o.events == [] && o.next == None
      && (a.ok ==> db'.orders == db.orders)
      && (!a.ok ==> (BeyondRefund(db', a.refund.order) <==> env.up))
  {
  }

  /** Having had its answer from PVS, a refund call takes the order beyond refund
      exactly when its statement on the order is answered. */
  lemma SettledIsBeyond(db: DB, a: Actor, envs: seq<Env>)
    requires Midway(db, a) && a.RefundSettle?
    ensures var t := Alone(db, a, envs);
      t.events == [] && (BeyondRefund(t.db, a.refund.order) <==> StatusUp(a, envs))
  {
    var o := Advance(db, a, Head(envs));
    AloneStep(db, a, envs);
    FirstSettleStep(db, a, Head(envs));
    AdvanceKeeps(db, a, Head(envs));
    var db' := Perform(db, o.write);
    AloneStep(db', o.next.value, Tail(envs));
    LastSettleStep(db', o.next.value, Head(Tail(envs)));
    assert Nth(envs, 0) == Head(envs) && Nth(envs, 1) == Head(Tail(envs));
  }

  lemma AskedIsBeyond(db: DB, a: Actor, envs: seq<Env>)
    requires Midway(db, a) && a.RefundAsk?
    ensures var t := Alone(db, a, envs);
      && t.events == [AskedReverse(a.refund.no, a.refund.order)]
      && (BeyondRefund(t.db, a.refund.order) <==> StatusUp(a, envs))
  {
    var ok := Head(envs).reversed == Some(true);
    AloneStep(db, a, envs);
    AdvanceKeeps(db, a, Head(envs));
    SettledIsBeyond(db, RefundSettle(a.refund, ok), Tail(envs));
    assert Nth(envs, 0) == Head(envs) && Nth(envs, 1) == Nth(Tail(envs), 0) && Nth(envs, 2) == Nth(Tail(envs), 1);
  }

  /** The steps before PVS is asked: the asking call knows its order to be refundable. */
  lemma BeforeSteps(db: DB, a: Actor, env: Env)
    requires Midway(db, a) && BeforeReverse(a)
    ensures var o := Advance(db, a, env);
      && (!a.RefundAsk? ==> o.events == [])
      && (!a.RefundAsk? && o.next.Some? ==> BeforeReverse(o.next.value) && o.next.value.refund == a.refund
                                            && Left(o.next.value) == Left(a) - 1)
      && (a.RefundAsk? ==> !BeyondRefund(db, a.refund.order))
  {
  }

  /** A call on its own asks for a reverse at most once, of an order that can
      still be refunded, and takes that order beyond refund exactly when its
      statement on the order is answered. */
  lemma {:induction false} AloneReverses(db: DB, a: Actor, envs: seq<Env>)
    requires Midway(db, a) && BeforeReverse(a)
    ensures var t := Alone(db, a, envs);
      || t.events == []
      || (t.events == [AskedReverse(a.refund.no, a.refund.order)]
          && !BeyondRefund(db, a.refund.order) && (BeyondRefund(t.db, a.refund.order) <==> StatusUp(a, envs)))
    decreases Left(a)
  {
    BeforeSteps(db, a, Head(envs));
    if a.RefundAsk? {
      AskedIsBeyond(db, a, envs);
    } else {
      var o := Advance(db, a, Head(envs));
      AloneStep(db, a, envs);
      AdvanceKeeps(db, a, Head(envs));
      if o.next.Some? {
        StatusUpShifts(a, o.next.value, envs);
        AloneReverses(Perform(db, o.write), o.next.value, Tail(envs));
        if BeyondRefund(db, a.refund.order) { BeyondStaysBeyond(db, Perform(db, o.write), a.refund.order); }
      }
    }
  }

  lemma BeyondStaysBeyond(db: DB, db': DB, id: Text)
    requires Evolves(db, db') && BeyondRefund(db, id)
    ensures BeyondRefund(db', id)
  {
    assert RowEvolves(db.orders[id], db'.orders[id]);
  }

  lemma HandleReverses(db: DB, c: Served)
    requires Quiet(db)
    ensures var t := Handle(db, c);
      || NoReverse(t.events)
      || (exists no, id :: t.events == [AskedReverse(no, id)] && !BeyondRefund(db, id) && (BeyondRefund(t.db, id) <==> Settles(c)))
  {
    if Legal(db, c) && Begin(db, c.call).Some? {
      var a := Begin(db, c.call).value;
      if BeforeReverse(a) {
        AloneReverses(db, a, c.envs);
      } else {
        OthersDoNotReverse(db, a, c.envs);
      }
    }
  }

  lemma BeyondStays(db: DB, c: Served, id: Text)
    requires Quiet(db) && BeyondRefund(db, id)
    ensures BeyondRefund(Handle(db, c).db, id)
  {
    HandleKeeps(db, c);
    BeyondStaysBeyond(db, Handle(db, c).db, id);
  }

  predicate Reverses(e: Event, id: Text) {
    e.AskedReverse? && e.id == id
  }

  lemma BeyondIsSpared(db: DB, c: Served, id: Text, k: nat)
    requires Quiet(db) && BeyondRefund(db, id) && k < |Handle(db, c).events|
    ensures !Reverses(Handle(db, c).events[k], id)
  {
    HandleReverses(db, c);
  }

  lemma {:induction false} BeyondNeverReverses(db: DB, cs: seq<Served>, id: Text, k: nat)
    requires Quiet(db) && BeyondRefund(db, id) && k < |Run(db, cs).events|
    ensures !Reverses(Run(db, cs).events[k], id)
    decreases cs
  {
    RunUnfolds(db, cs);
    var first := Handle(db, cs[0]);
    if k < |first.events| {
      BeyondIsSpared(db, cs[0], id, k);
    } else {
      HandleKeeps(db, cs[0]);
      BeyondStays(db, cs[0], id);
      BeyondNeverReverses(first.db, cs[1..], id, k - |first.events|);
    }
  }

  lemma RunUnfolds(db: DB, cs: seq<Served>)
    requires Run(db, cs).events != []
    ensures cs != [] && Run(db, cs).events == Handle(db, cs[0]).events + Run(Handle(db, cs[0]).db, cs[1..]).events
  {
  }

  predicate NoTwoReverses(es: seq<Event>) {
    forall k, l :: 0 <= k < l < |es| ==> !(es[k].AskedReverse? && es[l].AskedReverse? && es[k].id == es[l].id)
  }

  /** In a serial run in which the order's status is settled after each reverse,
      money is asked back at most once per order, whatever the refund numbers. */
  lemma {:induction false} OneReversePerOrder(db: DB, cs: seq<Served>)
    requires Quiet(db) && AllSettle(cs)
    ensures NoTwoReverses(Run(db, cs).events)
    decreases cs
  {
    if cs != [] {
      var first := Handle(db, cs[0]);
      HandleReverses(db, cs[0]);
      HandleKeeps(db, cs[0]);
      OneReversePerOrder(first.db, cs[1..]);
      var rest := Run(first.db, cs[1..]).events;
      if !NoReverse(first.events) {
        var no, id :| first.events == [AskedReverse(no, id)] && !BeyondRefund(db, id) && BeyondRefund(first.db, id);
        forall k | 0 <= k < |rest| ensures !(rest[k].AskedReverse? && rest[k].id == id) {
          BeyondNeverReverses(first.db, cs[1..], id, k);
        }
      }
    }
  }

  /** Hence the refunds table holds at most one refund per order after any run. */
  lemma OneRefundPerOrder(cs: seq<Served>, m: Text, n: Text)
    requires AllSettle(cs)
    ensures var rs := Run(EmptyDB, cs).db.refunds;
      m in rs && n in rs && rs[m].order == rs[n].order ==> m == n
  {
    RunKeepsRefunds(EmptyDB, cs);
  }

  // ---------------------------------------------------------------- exactly when it is sent back again

  /** A complete request for a paid, refundable order under an unused number. */
  predicate Entitled(db: DB, r: RefundReq) {
    && r.no != EMPTY && r.gs != EMPTY && r.order != EMPTY && r.price > 0
    && r.order in db.orders && db.orders[r.order].gs == r.gs && r.no !in db.refunds
    && (var s := db.orders[r.order].status; s == PaymentConfirmed || s == Done || s == Failed)
    && db.orders[r.order].paidAt.Some?
  }

  lemma AskEvents(db: DB, r: RefundReq, envs: seq<Env>)
    ensures AskedReverse(r.no, r.order) in Alone(db, RefundAsk(r), envs).events
  {
    AloneStep(db, RefundAsk(r), envs);
    assert Advance(db, RefundAsk(r), Head(envs)).events == [AskedReverse(r.no, r.order)];
  }

  lemma InsertAsksIff(db: DB, r: RefundReq, seen: Row, envs: seq<Env>)
    ensures AskedReverse(r.no, r.order) in Alone(db, RefundInsert(r, seen), envs).events <==> Head(envs).up && r.no !in db.refunds
  {
    AloneStep(db, RefundInsert(r, seen), envs);
    var o := Advance(db, RefundInsert(r, seen), Head(envs));
    assert o.events == [] && (o.next == Some(RefundAsk(r)) <==> Head(envs).up && r.no !in db.refunds);
    if o.next.Some? { AskEvents(Perform(db, o.write), r, Tail(envs)); }
  }

  lemma LookupAsksIff(db: DB, r: RefundReq, seen: Row, envs: seq<Env>)
    ensures AskedReverse(r.no, r.order) in Alone(db, RefundLookup(r, seen), envs).events <==>
            && Head(envs).up && Head(Tail(envs)).up && r.no !in db.refunds
            && CanTransitionTo(seen.status, RefundPending) && seen.paidAt.Some?
  {
    AloneStep(db, RefundLookup(r, seen), envs);
    InsertAsksIff(db, r, seen, Tail(envs));
  }

  /** A refund call on its own reaches PVS exactly when its request is entitled
      and its first three statements are answered. */
  lemma RefundAsksIff(db: DB, r: RefundReq, envs: seq<Env>)
    ensures AskedReverse(r.no, r.order) in Serve(db, AskRefund(r), envs).events <==>
            Entitled(db, r) && Head(envs).up && Head(Tail(envs)).up && Head(Tail(Tail(envs))).up
  {
    AloneStep(db, RefundRead(r), envs);
    if r.order in db.orders { LookupAsksIff(db, r, db.orders[r.order], Tail(envs)); }
  }

  /** After a refund call that reached PVS, a second request under another number
      reaches it too exactly when the first call lost its statement on the order. */
  lemma ReversedAgainIff(db: DB, c: Served, no: Text, second: Served)
    requires Quiet(db) && c.call.AskRefund? && AskedReverse(c.call.refund.no, c.call.refund.order) in Handle(db, c).events
    requires second.call == AskRefund(c.call.refund.(no := no)) && no != EMPTY && no !in Handle(db, c).db.refunds
    requires Head(second.envs).up && Head(Tail(second.envs)).up && Head(Tail(Tail(second.envs))).up
    ensures AskedReverse(no, c.call.refund.order) in Handle(Handle(db, c).db, second).events <==> !Settles(c)
  {
    var id, db' := c.call.refund.order, Handle(db, c).db;
    RefundAsksIff(db, c.call.refund, c.envs);
    AloneReverses(db, RefundRead(c.call.refund), c.envs);
    HandleKeeps(db, c);
    RefundAsksIff(db', c.call.refund.(no := no), second.envs);
    assert RowEvolves(db.orders[id], db'.orders[id]);
    assert BeyondRefund(db', id) <==> !CanTransitionTo(db'.orders[id].status, RefundPending);
  }
}
