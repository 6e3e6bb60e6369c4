/** Exactly when, under interleaving, an order can be reversed or noticed again,
    and runs in which it cannot. */
module Repeats {
  import opened Status
  import opened Tables
  import opened Protocol
  import opened Interleaved
  import opened Overwrites
  import Refunds

  /** What an observer notes from s to t. */
  function Since(s: Sys, t: Sys): seq<Event> {
    if |s.log| <= |t.log| then t.log[|s.log|..] else []
  }

  predicate ReverseOf(e: Event, id: Text) {
    e.AskedReverse? && e.id == id
  }

  predicate NoReverseOf(es: seq<Event>, id: Text) {
    forall k :: 0 <= k < |es| ==> !ReverseOf(es[k], id)
  }

  lemma {:induction false} LogGrows(s: Sys, steps: seq<Step>)
    ensures s.log <= Exec(s, steps).log
    decreases steps
  {
    if steps != [] {
      assert s.log <= Apply(s, steps[0]).log;
      LogGrows(Apply(s, steps[0]), steps[1..]);
    }
  }

  // ---------------------------------------------------------------- reversing again

  predicate IsRefundable(r: Row) {
    CanTransitionTo(r.status, RefundPending)
  }

  /** A call in flight that reverses the order, or makes it refundable again. */
  predicate CanReopen(db: DB, a: Actor, id: Text) {
    || RefundGoesOn(db, a, id)
    || NoticeGoesOn(a, id)
    || (a.NotifyWrite? && a.id == id)
    || (a.CompleteWrite? && a.id == id)
  }

  /** A paid order that nothing reverses any more. */
  ghost predicate Closed(s: Sys, id: Text) {
    && PaidIn(s.db, id) && !IsRefundable(s.db.orders[id])
    && forall p :: p in s.actors ==> !CanReopen(s.db, s.actors[p], id)
  }

  lemma StatusStaysClosed(db: DB, a: Actor, env: Env, id: Text)
    requires DbOk(db) && ActorOk(db, a) && PaidIn(db, id) && !IsRefundable(db.orders[id]) && !CanReopen(db, a, id)
    ensures var db' := Perform(db, Advance(db, a, env).write);
      id in db'.orders && !IsRefundable(db'.orders[id]) && (db.orders[id].status != PaymentConfirmed) && db'.orders[id].status != PaymentConfirmed
  {
    StepStatus(db, a, env, id);
    if GuardedTarget(a, id, db.orders[id].status).Some? { GuardedIsEdge(db, a, id); }
  }

  lemma GuardedStaysClosed(db: DB, a: Actor, env: Env, id: Text)
    requires DbOk(db) && ActorOk(db, a) && PaidIn(db, id) && (a.HookWrite? || a.FixWrite?)
    ensures var o := Advance(db, a, env);
      o.events == [] || o.events == [Confirmed(a.id)]
    ensures var next := Advance(db, a, env).next;
      next.Some? ==> next.value.NotifyAsk? && next.value.id != id
  {
    if GuardedTarget(a, id, db.orders[id].status).Some? { GuardedIsEdge(db, a, id); }
  }

  lemma ReadStaysClosed(db: DB, a: Actor, env: Env, id: Text)
    requires DbOk(db) && PaidIn(db, id) && !IsRefundable(db.orders[id])
    requires a.CompleteRead? || a.CancelRead? || a.RefundRead?
    ensures var o := Advance(db, a, env);
      && o.events == [] && o.write == NoWrite
      && (o.next.Some? ==> !CanReopen(db, o.next.value, id))
  {
  }

  lemma RefundStaysClosed(db: DB, a: Actor, env: Env, id: Text)
    requires !CanReopen(db, a, id)
    requires a.RefundLookup? || a.RefundInsert? || a.RefundAsk? || a.RefundSettle? || a.RefundSettle2?
    ensures var o := Advance(db, a, env);
      && NoReverseOf(o.events, id)
      && (o.next.Some? ==> !CanReopen(Perform(db, o.write), o.next.value, id))
  {
  }

  lemma NextStaysClosed(db: DB, a: Actor, env: Env, id: Text)
    requires DbOk(db) && ActorOk(db, a) && PaidIn(db, id) && !IsRefundable(db.orders[id]) && !CanReopen(db, a, id)
    ensures var o := Advance(db, a, env);
      && NoReverseOf(o.events, id)
      && (o.next.Some? ==> !CanReopen(Perform(db, o.write), o.next.value, id))
  {
    match a
    case HookWrite(_, _, _, _) => GuardedStaysClosed(db, a, env, id);
    case FixWrite(_, _, _) => GuardedStaysClosed(db, a, env, id);
    case CompleteRead(_, _, _, _) => ReadStaysClosed(db, a, env, id);
    case CancelRead(_, _, _) => ReadStaysClosed(db, a, env, id);
    case RefundRead(_) => ReadStaysClosed(db, a, env, id);
    case RefundLookup(_, _) => RefundStaysClosed(db, a, env, id);
    case RefundInsert(_, _) => RefundStaysClosed(db, a, env, id);
    case RefundAsk(_) => RefundStaysClosed(db, a, env, id);
    case RefundSettle(_, _) => RefundStaysClosed(db, a, env, id);
    case RefundSettle2(_, _) => RefundStaysClosed(db, a, env, id);
    case _ => OtherStaysClosed(db, a, env, id);
  }

  lemma OtherStaysClosed(db: DB, a: Actor, env: Env, id: Text)
    requires !CanReopen(db, a, id)
    requires a.CreateRead? || a.CreateInsert? || a.CreateAsk? || a.CreateShow? || a.CreateFail? || a.HookRead? || a.FixAsk?
             || a.RetryCheck? || a.NotifyAsk? || a.NotifyWrite? || a.CompleteWrite? || a.CancelWrite?
    ensures var o := Advance(db, a, env);
      && NoReverseOf(o.events, id)
      && (o.next.Some? ==> !CanReopen(Perform(db, o.write), o.next.value, id))
  {
  }

  lemma OthersStayClosed(db: DB, a: Actor, db': DB, b: Actor, id: Text)
    requires Grows(db, a, db') && !CanReopen(db, b, id)
    ensures !CanReopen(db', b, id)
  {
  }

  lemma ClosedMove(s: Sys, pid: nat, env: Env, id: Text)
    requires Inv(s) && Closed(s, id) && CanMove(s, pid, env)
    ensures Closed(Apply(s, Move(pid, env)), id) && NoReverseOf(Advance(s.db, s.actors[pid], env).events, id)
  {
    var a, s' := s.actors[pid], Apply(s, Move(pid, env));
    assert InFlightOk(s, a);
    StatusStaysClosed(s.db, a, env, id);
    NextStaysClosed(s.db, a, env, id);
    AdvanceHarmless(s.db, a, env);
    HarmlessGrows(s.db, a, Advance(s.db, a, env).write);
    forall p | p in s'.actors ensures !CanReopen(s'.db, s'.actors[p], id) {
      if p != pid { OthersStayClosed(s.db, a, s'.db, s.actors[p], id); }
    }
    assert RowGrows(s.db.orders[id], s'.db.orders[id], a, id);
  }

  lemma ClosedStep(s: Sys, step: Step, id: Text)
    requires Inv(s) && Closed(s, id)
    ensures Closed(Apply(s, step), id) && NoReverseOf(Since(s, Apply(s, step)), id)
  {
    if step.Move? && CanMove(s, step.pid, step.env) { ClosedMove(s, step.pid, step.env, id); }
  }

  lemma SinceJoins(s: Sys, t: Sys, u: Sys, id: Text)
    requires s.log <= t.log <= u.log
    ensures NoReverseOf(Since(s, u), id) <==> NoReverseOf(Since(s, t), id) && NoReverseOf(Since(t, u), id)
  {
    assert Since(s, u) == Since(s, t) + Since(t, u);
    var n := |Since(s, t)|;
    if NoReverseOf(Since(s, u), id) {
      assert forall k :: 0 <= k < n ==> Since(s, u)[k] == Since(s, t)[k];
      assert forall k :: 0 <= k < |Since(t, u)| ==> Since(s, u)[n + k] == Since(t, u)[k];
    }
  }

  /** Once closed, closed for good, whatever interleaves from then on. */
  lemma {:induction false} ClosedForGood(s: Sys, steps: seq<Step>, id: Text)
    requires Inv(s) && Closed(s, id)
    ensures Closed(Exec(s, steps), id) && NoReverseOf(Since(s, Exec(s, steps)), id)
    decreases steps
  {
    if steps != [] {
      var s' := Apply(s, steps[0]);
      ClosedStep(s, steps[0], id);
      StepKeepsInv(s, steps[0]);
      ClosedForGood(s', steps[1..], id);
      LogGrows(s', steps[1..]);
      SinceJoins(s, s', Exec(s, steps), id);
    }
  }

  // ---------------------------------------------------------------- the converse

  lemma ReopenGoesOn(db: DB, a: Actor, id: Text)
    requires ActorOk(db, a) && PaidIn(db, id) && CanReopen(db, a, id)
    ensures !a.CreateRead?
    ensures var o := Advance(db, a, Helpful(a));
      var db' := Perform(db, o.write);
      && id in db'.orders
      && (|| !NoReverseOf(o.events, id)
          || IsRefundable(db'.orders[id])
          || (o.next.Some? && CanReopen(db', o.next.value, id) && Left(o.next.value) < Left(a)))
  {
    if NoticeGoesOn(a, id) {
      NoticeStepOn(db, a, id);
    } else if RefundGoesOn(db, a, id) {
      RefundStepOn(db, a, id);
      if a.RefundAsk? { assert ReverseOf(Advance(db, a, Helpful(a)).events[0], id); }
    } else {
      StepStatus(db, a, Helpful(a), id);
    }
  }

  lemma Unused<T>(m: map<Text, T>) returns (n: Text)
    ensures n !in m && n > 0
  {
    n := Above(m.Keys);
  }

  lemma {:induction false} Above(xs: set<int>) returns (n: int)
    ensures n > 0 && forall x :: x in xs ==> x < n
    decreases |xs|
  {
    n := 1;
    if x :| x in xs {
      n := Above(xs - {x});
      forall y | y in xs ensures y < (if x < n then n else x + 1) {
        if y != x { assert y in xs - {x}; }
      }
      n := if x < n then n else x + 1;
    }
  }

  lemma UnusedPid(m: map<nat, Actor>) returns (n: nat)
    ensures n !in m
  {
    var ks: set<int> := set k: nat | k in m :: k as int;
    n := Above(ks);
    assert n in m ==> n as int in ks;
  }

  lemma FreshRefundSteps(db: DB, r: RefundReq, env: Env)
    requires DbOk(db) && PaidIn(db, r.order) && IsRefundable(db.orders[r.order])
    requires r.no > 0 && r.no !in db.refunds && r.order != EMPTY && r.gs == db.orders[r.order].gs && r.price > 0 && env.up
    ensures Begin(db, AskRefund(r)) == Some(RefundRead(r))
    ensures Advance(db, RefundRead(r), env) == Go(RefundLookup(r, db.orders[r.order]))
    ensures RefundGoesOn(db, RefundLookup(r, db.orders[r.order]), r.order)
  {
  }

  /** A refundable order is reversed by the next refund request. */
  lemma StartRefund(s: Sys, id: Text) returns (steps: seq<Step>, pid: nat)
    requires Inv(s) && PaidIn(s.db, id) && IsRefundable(s.db.orders[id])
    ensures var t := Exec(s, steps);
      Inv(t) && t.db == s.db && t.log == s.log && pid in t.actors && RefundGoesOn(t.db, t.actors[pid], id)
  {
    var no := Unused(s.db.refunds);
    pid := UnusedPid(s.actors);
    var r, env := RefundReq(no, s.db.orders[id].gs, id, 1), Helpful(CancelRead(0, 0, 0));
    assert id in s.issued;
    FreshRefundSteps(s.db, r, env);
    var s1 := Apply(s, Start(pid, AskRefund(r)));
    StepKeepsInv(s, Start(pid, AskRefund(r)));
    StepKeepsInv(s1, Move(pid, env));
    steps := [Start(pid, AskRefund(r)), Move(pid, env)];
    assert steps[1..] == [Move(pid, env)];
    assert Exec(s1, [Move(pid, env)]) == Exec(Apply(s1, Move(pid, env)), [Move(pid, env)][1..]) == Apply(s1, Move(pid, env));
  }

  lemma {:induction false} RefundGoesThrough(s: Sys, pid: nat, id: Text) returns (steps: seq<Step>)
    requires Inv(s) && PaidIn(s.db, id) && pid in s.actors && RefundGoesOn(s.db, s.actors[pid], id)
    ensures !NoReverseOf(Since(s, Exec(s, steps)), id)
    decreases Left(s.actors[pid])
  {
    var a := s.actors[pid];
    var step := Move(pid, Helpful(a));
    var s' := Apply(s, step);
    assert InFlightOk(s, a);
    RefundStepOn(s.db, a, id);
    StepKeepsInv(s, step);
    if a.RefundAsk? { assert ReverseOf(Since(s, s')[0], id); }
    var rest: seq<Step> := [];
    if NoReverseOf(Since(s, s'), id) { rest := RefundGoesThrough(s', pid, id); }
    steps := [step] + rest;
    assert steps[1..] == rest;
    LogGrows(s', rest);
    SinceJoins(s, s', Exec(s, steps), id);
  }

  lemma PaidStays(s: Sys, step: Step, id: Text)
    requires Inv(s) && PaidIn(s.db, id)
    ensures PaidIn(Apply(s, step).db, id)
  {
    StepGrows(s, step, id);
  }

  lemma {:induction false} Reopens(s: Sys, pid: nat, id: Text) returns (steps: seq<Step>)
    requires Inv(s) && PaidIn(s.db, id) && pid in s.actors && CanReopen(s.db, s.actors[pid], id)
    ensures !NoReverseOf(Since(s, Exec(s, steps)), id)
    decreases Left(s.actors[pid])
  {
    var a := s.actors[pid];
    var step := Move(pid, Helpful(a));
    var s' := Apply(s, step);
    assert InFlightOk(s, a);
    ReopenGoesOn(s.db, a, id);
    PaidStays(s, step, id);
    StepKeepsInv(s, step);
    var rest: seq<Step> := [];
    if NoReverseOf(Since(s, s'), id) {
      if IsRefundable(s'.db.orders[id]) { rest := ReverseNow(s', id); } else { rest := Reopens(s', pid, id); }
    }
    steps := [step] + rest;
    assert steps[1..] == rest;
    LogGrows(s', rest);
    SinceJoins(s, s', Exec(s, steps), id);
  }

  lemma ReverseNow(s: Sys, id: Text) returns (steps: seq<Step>)
    requires Inv(s) && PaidIn(s.db, id) && IsRefundable(s.db.orders[id])
    ensures !NoReverseOf(Since(s, Exec(s, steps)), id)
  {
    var first, pid := StartRefund(s, id);
    var t := Exec(s, first);
    var rest := RefundGoesThrough(t, pid, id);
    ExecJoins(s, first, rest);
    steps := first + rest;
    LogGrows(t, rest);
    SinceJoins(s, t, Exec(s, steps), id);
  }

  lemma {:induction false} ExecJoins(s: Sys, xs: seq<Step>, ys: seq<Step>)
    ensures Exec(s, xs + ys) == Exec(Exec(s, xs), ys)
    decreases xs
  {
    if xs == [] {
      assert xs + ys == ys;
    } else {
      assert (xs + ys)[1..] == xs[1..] + ys;
      ExecJoins(Apply(s, xs[0]), xs[1..], ys);
    }
  }

  /** Some continuation of a run reverses a paid order (again) exactly when its
      status is refundable now, or a call in flight reverses or reopens it. */
  lemma CanBeReversedIff(s: Sys, id: Text)
    requires Inv(s) && PaidIn(s.db, id)
    ensures (exists steps :: !NoReverseOf(Since(s, Exec(s, steps)), id)) <==>
            IsRefundable(s.db.orders[id]) || (exists p :: p in s.actors && CanReopen(s.db, s.actors[p], id))
  {
    if IsRefundable(s.db.orders[id]) {
      var steps := ReverseNow(s, id);
    } else if p :| p in s.actors && CanReopen(s.db, s.actors[p], id) {
      var steps := Reopens(s, p, id);
    } else {
      forall steps ensures NoReverseOf(Since(s, Exec(s, steps)), id) { ClosedForGood(s, steps, id); }
    }
  }

  // ---------------------------------------------------------------- runs that reverse at most once

  /** A refund call past its read, or a call about to write the order blindly. */
  predicate Claims(a: Actor, id: Text) {
    match a
    case RefundLookup(r, _) => r.order == id
    case RefundInsert(r, _) => r.order == id
    case RefundAsk(r) => r.order == id
    case RefundSettle(r, _) => r.order == id
    case RefundSettle2(r, _) => r.order == id
    case RetryCheck(i, _) => i == id
    case NotifyAsk(i, _) => i == id
    case NotifyWrite(i) => i == id
    case CompleteWrite(i, _, _) => i == id
    case CancelWrite(i, _) => i == id
    case _ => false
  }

  ghost predicate Exclusive(s: Sys, id: Text) {
    forall p, q :: p in s.actors && q in s.actors && p != q ==> !Claims(s.actors[p], id) || !Claims(s.actors[q], id)
  }

  /** A call that has reversed the order and has yet to write it down. */
  predicate Settling(a: Actor, id: Text) {
    (a.RefundSettle? || (a.RefundSettle2? && !a.ok)) && a.refund.order == id
  }

  /** The statement that writes it down is answered. */
  ghost predicate WritesDown(s: Sys, step: Step, id: Text) {
    step.Move? && step.pid in s.actors && Settling(s.actors[step.pid], id) ==> Refunds.StatusStep(s.actors[step.pid], step.env)
  }

  /** Claims on the order never overlap in this run, and reverses are written
      down; deliveries and corrections, up to the notice that one of them may
      send, and calls for other orders come as they like. */
  ghost predicate TakesTurns(s: Sys, steps: seq<Step>, id: Text)
    decreases steps
  {
    steps != [] ==> Exclusive(s, id) && WritesDown(s, steps[0], id) && TakesTurns(Apply(s, steps[0]), steps[1..], id)
  }

  predicate AtMostOnce(es: seq<Event>, id: Text) {
    forall k, l :: 0 <= k < l < |es| ==> !ReverseOf(es[k], id) || !ReverseOf(es[l], id)
  }

  ghost predicate SomeSettling(s: Sys, id: Text) {
    exists p :: p in s.actors && Settling(s.actors[p], id)
  }

  /** Not reversed yet, or being written down, or closed. */
  ghost predicate OnceSoFar(s: Sys, id: Text) {
    && AtMostOnce(s.log, id)
    && (NoReverseOf(s.log, id) || SomeSettling(s, id) || Closed(s, id))
  }

  lemma OnceWithNone(log: seq<Event>, es: seq<Event>, id: Text)
    requires AtMostOnce(log, id) && NoReverseOf(es, id)
    ensures AtMostOnce(log + es, id) && (NoReverseOf(log, id) ==> NoReverseOf(log + es, id))
  {
  }

  lemma OnlyAskReverses(db: DB, a: Actor, env: Env, id: Text)
    ensures var o := Advance(db, a, env);
      || NoReverseOf(o.events, id)
      || (a.RefundAsk? && Claims(a, id) && |o.events| == 1 && o.next.Some? && Settling(o.next.value, id))
  {
  }

  lemma ReopenersClaim(db: DB, a: Actor, id: Text)
    requires CanReopen(db, a, id) || Settling(a, id)
    ensures Claims(a, id)
  {
  }

  lemma SettleStep(db: DB, a: Actor, env: Env, id: Text)
    requires DbOk(db) && ActorOk(db, a) && Settling(a, id) && Refunds.StatusStep(a, env)
    ensures var o := Advance(db, a, env);
      var db' := Perform(db, o.write);
      && o.events == [] && PaidIn(db', id)
      && (|| (o.next.Some? && Settling(o.next.value, id))
          || (!IsRefundable(db'.orders[id]) && (o.next.Some? ==> !CanReopen(db', o.next.value, id))))
  {
    StepStatus(db, a, env, id);
  }

  lemma SettlerMoves(s: Sys, pid: nat, env: Env, id: Text)
    requires Inv(s) && CanMove(s, pid, env) && Exclusive(s, id) && Settling(s.actors[pid], id)
    requires Refunds.StatusStep(s.actors[pid], env) && AtMostOnce(s.log, id)
    ensures OnceSoFar(Apply(s, Move(pid, env)), id)
  {
    var a, s' := s.actors[pid], Apply(s, Move(pid, env));
    assert InFlightOk(s, a);
    ReopenersClaim(s.db, a, id);
    SettleStep(s.db, a, env, id);
    assert s'.log == s.log;
    if pid in s'.actors && Settling(s'.actors[pid], id) {
      assert SomeSettling(s', id);
    } else {
      AdvanceHarmless(s.db, a, env);
      HarmlessGrows(s.db, a, Advance(s.db, a, env).write);
      forall p | p in s'.actors ensures !CanReopen(s'.db, s'.actors[p], id) {
        if p != pid {
          if CanReopen(s.db, s.actors[p], id) { ReopenersClaim(s.db, s.actors[p], id); }
          OthersStayClosed(s.db, a, s'.db, s.actors[p], id);
        }
      }
      assert Closed(s', id);
    }
  }

  /** Another call moves while the reverse is being written down. */
  lemma OtherMoves(s: Sys, pid: nat, env: Env, p: nat, id: Text)
    requires CanMove(s, pid, env) && Exclusive(s, id) && p in s.actors && p != pid && Settling(s.actors[p], id)
    requires AtMostOnce(s.log, id)
    ensures OnceSoFar(Apply(s, Move(pid, env)), id)
  {
    var s' := Apply(s, Move(pid, env));
    ReopenersClaim(s.db, s.actors[p], id);
    OnlyAskReverses(s.db, s.actors[pid], env, id);
    OnceWithNone(s.log, Advance(s.db, s.actors[pid], env).events, id);
    assert s'.actors[p] == s.actors[p];
    assert SomeSettling(s', id);
  }

  lemma FirstReverse(s: Sys, pid: nat, env: Env, id: Text)
    requires CanMove(s, pid, env) && NoReverseOf(s.log, id)
    ensures OnceSoFar(Apply(s, Move(pid, env)), id)
  {
    var a, s' := s.actors[pid], Apply(s, Move(pid, env));
    OnlyAskReverses(s.db, a, env, id);
    if NoReverseOf(Advance(s.db, a, env).events, id) {
      OnceWithNone(s.log, Advance(s.db, a, env).events, id);
    } else {
      assert Settling(s'.actors[pid], id);
    }
  }

  lemma StartKeepsOnce(s: Sys, pid: nat, call: Call, id: Text)
    requires Inv(s) && OnceSoFar(s, id)
    ensures OnceSoFar(Apply(s, Start(pid, call)), id)
  {
    var s' := Apply(s, Start(pid, call));
    if SomeSettling(s, id) {
      var p :| p in s.actors && Settling(s.actors[p], id);
      assert s'.actors[p] == s.actors[p];
    } else if Closed(s, id) {
      ClosedStep(s, Start(pid, call), id);
    }
  }

  lemma OnceStep(s: Sys, step: Step, id: Text)
    requires Inv(s) && OnceSoFar(s, id) && Exclusive(s, id) && WritesDown(s, step, id)
    ensures OnceSoFar(Apply(s, step), id)
  {
    match step
    case Start(pid, call) => StartKeepsOnce(s, pid, call, id);
    case Move(pid, env) =>
      if CanMove(s, pid, env) {
        if p :| p in s.actors && Settling(s.actors[p], id) {
          if p == pid { SettlerMoves(s, pid, env, id); } else { OtherMoves(s, pid, env, p, id); }
        } else if Closed(s, id) {
          ClosedMove(s, pid, env, id);
          OnceWithNone(s.log, Advance(s.db, s.actors[pid], env).events, id);
        } else {
          FirstReverse(s, pid, env, id);
        }
      }
  }

  /** In any run in which the claims on an order take turns, the order is reversed
      at most once, whatever deliveries and corrections do in between. */
  lemma {:induction false} TurnsReverseOnce(s: Sys, steps: seq<Step>, id: Text)
    requires Inv(s) && OnceSoFar(s, id) && TakesTurns(s, steps, id)
    ensures OnceSoFar(Exec(s, steps), id)
    decreases steps
  {
    if steps != [] {
      OnceStep(s, steps[0], id);
      StepKeepsInv(s, steps[0]);
      TurnsReverseOnce(Apply(s, steps[0]), steps[1..], id);
    }
  }

  /** The same from the start, in terms of the log alone. */
  lemma ReversedAtMostOnce(steps: seq<Step>, id: Text)
    requires TakesTurns(Init, steps, id)
    ensures AtMostOnce(Exec(Init, steps).log, id)
  {
    TurnsReverseOnce(Init, steps, id);
  }

  // ---------------------------------------------------------------- noticing again

  predicate NoticeOf(e: Event, id: Text) {
    e.AskedNotify? && e.id == id
  }

  predicate NoNoticeOf(es: seq<Event>, id: Text) {
    forall k :: 0 <= k < |es| ==> !NoticeOf(es[k], id)
  }

  /** GS has accepted a notice for this order and the mark is written. */
  predicate Marked(db: DB, id: Text) {
    id in db.orders && db.orders[id].notifiedAt.Some?
  }

  ghost predicate Quieted(s: Sys, id: Text) {
    Marked(s.db, id) && forall p :: p in s.actors ==> !NoticeGoesOn(s.actors[p], id)
  }

  lemma MarkedNeverConfirmed(db: DB, a: Actor, env: Env, id: Text)
    requires DbOk(db) && ActorOk(db, a) && Marked(db, id) && (a.HookWrite? || a.FixWrite?)
    ensures var o := Advance(db, a, env);
      && NoNoticeOf(o.events, id)
      && (o.next.Some? ==> o.next.value.NotifyAsk? && o.next.value.id != id)
  {
    if GuardedTarget(a, id, db.orders[id].status).Some? { GuardedIsEdge(db, a, id); }
  }

  lemma NextStaysQuiet(db: DB, a: Actor, env: Env, id: Text)
    requires DbOk(db) && ActorOk(db, a) && Marked(db, id) && !NoticeGoesOn(a, id)
    ensures var o := Advance(db, a, env);
      && NoNoticeOf(o.events, id)
      && (o.next.Some? ==> !NoticeGoesOn(o.next.value, id))
  {
    if a.HookWrite? || a.FixWrite? { MarkedNeverConfirmed(db, a, env, id); }
  }

  lemma QuietedStep(s: Sys, step: Step, id: Text)
    requires Inv(s) && Quieted(s, id)
    ensures Quieted(Apply(s, step), id) && NoNoticeOf(Since(s, Apply(s, step)), id)
  {
    if step.Move? && CanMove(s, step.pid, step.env) {
      var a, s' := s.actors[step.pid], Apply(s, step);
      assert InFlightOk(s, a);
      NextStaysQuiet(s.db, a, step.env, id);
      AdvanceHarmless(s.db, a, step.env);
      HarmlessGrows(s.db, a, Advance(s.db, a, step.env).write);
      assert RowGrows(s.db.orders[id], s'.db.orders[id], a, id);
    }
  }

  lemma NoticesJoin(s: Sys, t: Sys, u: Sys, id: Text)
    requires s.log <= t.log <= u.log
    ensures NoNoticeOf(Since(s, u), id) <==> NoNoticeOf(Since(s, t), id) && NoNoticeOf(Since(t, u), id)
  {
    assert Since(s, u) == Since(s, t) + Since(t, u);
    var n := |Since(s, t)|;
    if NoNoticeOf(Since(s, u), id) {
      assert forall k :: 0 <= k < n ==> Since(s, u)[k] == Since(s, t)[k];
      assert forall k :: 0 <= k < |Since(t, u)| ==> Since(s, u)[n + k] == Since(t, u)[k];
    }
  }

  lemma {:induction false} QuietForGood(s: Sys, steps: seq<Step>, id: Text)
    requires Inv(s) && Quieted(s, id)
    ensures NoNoticeOf(Since(s, Exec(s, steps)), id)
    decreases steps
  {
    if steps != [] {
      var s' := Apply(s, steps[0]);
      QuietedStep(s, steps[0], id);
      StepKeepsInv(s, steps[0]);
      QuietForGood(s', steps[1..], id);
      LogGrows(s', steps[1..]);
      NoticesJoin(s, s', Exec(s, steps), id);
    }
  }

  lemma {:induction false} NoticeGoesOut(s: Sys, pid: nat, id: Text) returns (steps: seq<Step>)
    requires pid in s.actors && NoticeGoesOn(s.actors[pid], id)
    ensures !NoNoticeOf(Since(s, Exec(s, steps)), id)
    decreases Left(s.actors[pid])
  {
    var a := s.actors[pid];
    var step := Move(pid, Helpful(a));
    var s' := Apply(s, step);
    var rest: seq<Step> := [];
    if a.NotifyAsk? {
      assert Since(s, s') == [AskedNotify(id)];
      assert NoticeOf(Since(s, s')[0], id);
    } else {
      rest := NoticeGoesOut(s', pid, id);
    }
    steps := [step] + rest;
    assert steps[1..] == rest;
    LogGrows(s', rest);
    NoticesJoin(s, s', Exec(s, steps), id);
  }

  /** Some continuation notices an order again after its notice was accepted and
      marked exactly when a call in flight still holds an unmarked row of it. */
  lemma NoticedAgainIff(s: Sys, id: Text)
    requires Inv(s) && Marked(s.db, id)
    ensures (exists steps :: !NoNoticeOf(Since(s, Exec(s, steps)), id)) <==>
            (exists p :: p in s.actors && NoticeGoesOn(s.actors[p], id))
  {
    if p :| p in s.actors && NoticeGoesOn(s.actors[p], id) {
      var steps := NoticeGoesOut(s, p, id);
    } else {
      forall steps ensures NoNoticeOf(Since(s, Exec(s, steps)), id) { QuietForGood(s, steps, id); }
    }
  }
}
