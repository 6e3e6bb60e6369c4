/** Runs in which each call happens whole, one after another: what the state
    machine then promises over whole runs, whichever statements fail. */
module Serial {
  import opened Status
  import opened Tables
  import opened Protocol
  import opened Interleaved

  // ---------------------------------------------------------------- serial runs

  /** A call with the answers its steps get. */
  datatype Served = Served(call: Call, envs: seq<Env>)

  /** A new order gets a new number. */
  ghost predicate Legal(db: DB, c: Served) {
    c.call.Create? ==> Head(c.envs).freshId != EMPTY && Head(c.envs).freshId !in db.orders
  }

  ghost function Handle(db: DB, c: Served): Trace {
    if Legal(db, c) then Serve(db, c.call, c.envs) else Trace(db, [])
  }

  ghost function Run(db: DB, cs: seq<Served>): Trace
    decreases cs
  {
    if cs == [] then Trace(db, []) else
    var first := Handle(db, cs[0]);
    var rest := Run(first.db, cs[1..]);
    Trace(rest.db, first.events + rest.events)
  }

  // ---------------------------------------------------------------- what one write may do

  /** Every effective status write of a serial run: a table edge, or one of the
      three direct writes that skip a status. */
  predicate SerialEdge(from: OrderStatus, to: OrderStatus) {
    || (CanTransitionTo(from, to) && to != QRRequested && !(from == RefundPending && to == RefundFailed))
    || (from == Received && to == QRShown)
    || (from == QRShown && to == RefundPending)
    || ((from == PaymentConfirmed || from == Done || from == Failed) && to == RefundFailed)
  }

  lemma SerialEdgeIsPath(from: OrderStatus, to: OrderStatus)
    requires SerialEdge(from, to)
    ensures Path(from, to)
  {
    if CanTransitionTo(from, to) {
      EdgeIsPath(from, to);
    } else if from == Received {
      TwoEdgesArePath(from, QRRequested, to);
    } else if from == QRShown {
      TwoEdgesArePath(from, PaymentConfirmed, to);
    } else {
      TwoEdgesArePath(from, RefundPending, to);
    }
  }

  /** Where a status can have got to after any number of serial writes. */
  predicate Follows(s: OrderStatus, t: OrderStatus) {
    s == t || (Rank(t) < Rank(s) && !(s == RefundPending && t == RefundFailed))
  }

  lemma SerialEdgeFollows(s: OrderStatus, t: OrderStatus)
    requires SerialEdge(s, t)
    ensures Follows(s, t) && s != t
  {
    SerialEdgeIsPath(s, t);
    PathLowersRank(s, t);
  }

  // ---------------------------------------------------------------- between calls, and within one

  /** The tables between two calls. */
  ghost predicate Quiet(db: DB) {
    DbOk(db) && EMPTY !in db.orders
  }

  predicate Refundable(s: OrderStatus) {
    s == PaymentConfirmed || s == Done || s == Failed
  }

  predicate IsNow(db: DB, id: Text, seen: Row) {
    id in db.orders && db.orders[id] == seen
  }

  predicate StatusOf(db: DB, id: Text, s: OrderStatus) {
    id in db.orders && db.orders[id].status == s
  }

  /** What a call knows when nobody else runs: its snapshot is the row. */
  predicate Knows(db: DB, a: Actor) {
    match a
    case CreateInsert(req, id) => id != EMPTY
    case CreateAsk(req, id) => StatusOf(db, id, Received)
    case CreateShow(req, id, _) => StatusOf(db, id, Received)
    case CreateFail(id) => StatusOf(db, id, Received)
    case HookWrite(id, key, told, seen) => IsNow(db, id, seen)
    case FixAsk(id, seen) => IsNow(db, id, seen)
    case FixWrite(id, seen, state) => IsNow(db, id, seen)
    case RetryCheck(id, seen) => IsNow(db, id, seen) && seen.status == PaymentConfirmed
    case NotifyAsk(id, seen) => StatusOf(db, id, PaymentConfirmed)
    case NotifyWrite(id) => StatusOf(db, id, PaymentConfirmed)
    case CompleteWrite(id, to, p) => id in db.orders && CanTransitionTo(db.orders[id].status, to)
    case CancelWrite(id, p) => id in db.orders && CanTransitionTo(db.orders[id].status, Cancelled)
    case RefundLookup(r, seen) => IsNow(db, r.order, seen)
    case RefundInsert(r, seen) => IsNow(db, r.order, seen) && Refundable(seen.status)
    case RefundAsk(r) => r.order in db.orders && Refundable(db.orders[r.order].status)
    case RefundSettle(r, _) => r.order in db.orders && Refundable(db.orders[r.order].status)
    case RefundSettle2(r, ok) => r.order in db.orders && (!ok ==> Refundable(db.orders[r.order].status))
    case _ => true
  }

  ghost predicate Midway(db: DB, a: Actor) {
    DbOk(db) && ActorOk(db, a) && Knows(db, a) && EMPTY !in db.orders
  }

  // ---------------------------------------------------------------- one step

  /** A statement that a serial run may execute: it moves an order along a serial edge. */
  ghost predicate SerialWrite(db: DB, w: Write) {
    match w
    case InsertOrder(id, row) => row.status == Received && id != EMPTY
    case SetOrder(id, s, _, _) => id in db.orders ==> db.orders[id].status == s || SerialEdge(db.orders[id].status, s)
    case SetOrderIf(id, e, s, _, _) => SerialEdge(e, s)
    case _ => true
  }

  lemma AdvanceIsSerial(db: DB, a: Actor, env: Env)
    requires Midway(db, a)
    ensures SerialWrite(db, Advance(db, a, env).write)
  {
  }

  lemma RefundKnows(db: DB, a: Actor, env: Env)
    requires Midway(db, a) && Advance(db, a, env).next.Some?
    requires a.RefundRead? || a.RefundLookup? || a.RefundInsert? || a.RefundAsk? || a.RefundSettle? || a.RefundSettle2?
    ensures var o := Advance(db, a, env);
      Knows(Perform(db, o.write), o.next.value)
  {
  }

  lemma CreateKnows(db: DB, a: Actor, env: Env)
    requires Midway(db, a) && Advance(db, a, env).next.Some?
    requires a.CreateRead? || a.CreateInsert? || a.CreateAsk? || a.CreateShow? || a.CreateFail?
    requires a.CreateRead? ==> env.freshId != EMPTY
    ensures var o := Advance(db, a, env);
      Knows(Perform(db, o.write), o.next.value)
  {
  }

  lemma AdvanceKnows(db: DB, a: Actor, env: Env)
    requires Midway(db, a) && Advance(db, a, env).next.Some?
    requires a.CreateRead? ==> env.freshId != EMPTY
    ensures var o := Advance(db, a, env);
      Knows(Perform(db, o.write), o.next.value)
  {
    if a.CreateRead? || a.CreateInsert? || a.CreateAsk? || a.CreateShow? || a.CreateFail? {
      CreateKnows(db, a, env);
    } else if a.RefundRead? || a.RefundLookup? || a.RefundInsert? || a.RefundAsk? || a.RefundSettle? || a.RefundSettle2? {
      RefundKnows(db, a, env);
    } else {
      OtherKnows(db, a, env);
    }
  }

  lemma OtherKnows(db: DB, a: Actor, env: Env)
    requires Midway(db, a) && Advance(db, a, env).next.Some?
    requires a.HookRead? || a.HookWrite? || a.FixAsk? || a.FixWrite? || a.RetryCheck? || a.NotifyAsk? || a.NotifyWrite?
             || a.CompleteRead? || a.CompleteWrite? || a.CancelRead? || a.CancelWrite?
    ensures var o := Advance(db, a, env);
      Knows(Perform(db, o.write), o.next.value)
  {
  }

  // ---------------------------------------------------------------- whole calls, whole runs

  /** Orders move by Follows and keep their numbers and QR; refunds stay with
      their order. */
  ghost predicate Evolves(db: DB, db': DB) {
    && (forall id :: id in db.orders ==> id in db'.orders && RowEvolves(db.orders[id], db'.orders[id]))
    && (forall no :: no in db.refunds ==> no in db'.refunds && db'.refunds[no].order == db.refunds[no].order)
  }

  predicate RowEvolves(r: Row, r': Row) {
    && Follows(r.status, r'.status) && r'.gs == r.gs
    && (r.qrId.Some? ==> r'.qrId == r.qrId) && (r.paidAt.Some? ==> r'.paidAt == r.paidAt)
    && (r.notifiedAt.Some? ==> r'.notifiedAt.Some?)
  }

  lemma EvolvesTransitive(db: DB, db': DB, db'': DB)
    requires Evolves(db, db') && Evolves(db', db'')
    ensures Evolves(db, db'')
  {
    forall id | id in db.orders ensures id in db''.orders && RowEvolves(db.orders[id], db''.orders[id]) {
      assert RowEvolves(db.orders[id], db'.orders[id]) && RowEvolves(db'.orders[id], db''.orders[id]);
    }
  }

  /** Every recorded change follows a serial edge, and orders start RECEIVED. */
  predicate HistoryFollowsTable(h: seq<Change>) {
    forall k :: 0 <= k < |h| ==>
      if h[k].from.Some? then SerialEdge(h[k].from.value, h[k].to) else h[k].to == Received
  }

  /** All that a stretch of a serial run keeps. */
  ghost predicate Keeps(db: DB, db': DB) {
    && Evolves(db, db')
    && (HistoryFollowsTable(db.history) ==> HistoryFollowsTable(db'.history))
    && (HistoryAgrees(db) ==> HistoryAgrees(db'))
  }

  lemma WriteKeeps(db: DB, a: Actor, w: Write)
    requires DbOk(db) && Harmless(db, a, w) && SerialWrite(db, w)
    ensures Keeps(db, Perform(db, w))
  {
    HarmlessGrows(db, a, w);
    if HistoryAgrees(db) { PerformKeepsHistory(db, w); }
    if HistoryFollowsTable(db.history) { WriteKeepsTable(db, w); }
    forall id | id in db.orders ensures id in Perform(db, w).orders && RowEvolves(db.orders[id], Perform(db, w).orders[id]) {
      RowWritten(db, a, w, id);
    }
  }

  lemma WriteKeepsTable(db: DB, w: Write)
    requires SerialWrite(db, w) && HistoryFollowsTable(db.history)
    ensures HistoryFollowsTable(Perform(db, w).history)
  {
  }

  lemma RowWritten(db: DB, a: Actor, w: Write, id: Text)
    requires id in db.orders && SerialWrite(db, w) && Grows(db, a, Perform(db, w))
    ensures id in Perform(db, w).orders && RowEvolves(db.orders[id], Perform(db, w).orders[id])
  {
    var r, r' := db.orders[id], Perform(db, w).orders[id];
    assert RowGrows(r, r', a, id);
    if SerialEdge(r.status, r'.status) { SerialEdgeFollows(r.status, r'.status); }
  }

  lemma AdvanceKeeps(db: DB, a: Actor, env: Env)
    requires Midway(db, a)
    requires a.CreateRead? ==> env.freshId != EMPTY && env.freshId !in db.orders
    ensures var o := Advance(db, a, env);
      var db' := Perform(db, o.write);
      && Keeps(db, db')
      && (if o.next.Some? then Midway(db', o.next.value) else Quiet(db'))
  {
    var o := Advance(db, a, env);
    AdvanceHarmless(db, a, env);
    AdvanceIsSerial(db, a, env);
    WriteKeeps(db, a, o.write);
    HarmlessGrows(db, a, o.write);
    AdvanceOk(db, a, env);
    if o.next.Some? { AdvanceKnows(db, a, env); }
  }

  lemma NextIsLeft(db: DB, a: Actor, env: Env)
    ensures var next := Advance(db, a, env).next;
      next.Some? ==> Left(next.value) < Left(a) && !next.value.CreateRead?
  {
  }

  lemma {:induction false} AloneKeeps(db: DB, a: Actor, envs: seq<Env>)
    requires Midway(db, a)
    requires a.CreateRead? ==> Head(envs).freshId != EMPTY && Head(envs).freshId !in db.orders
    ensures Quiet(Alone(db, a, envs).db) && Keeps(db, Alone(db, a, envs).db)
    decreases Left(a)
  {
    var o := Advance(db, a, Head(envs));
    AloneStep(db, a, envs);
    AdvanceKeeps(db, a, Head(envs));
    if o.next.Some? {
      NextIsLeft(db, a, Head(envs));
      var db' := Perform(db, o.write);
      AloneKeeps(db', o.next.value, Tail(envs));
      EvolvesTransitive(db, db', Alone(db', o.next.value, Tail(envs)).db);
    }
  }

  lemma HandleKeeps(db: DB, c: Served)
    requires Quiet(db)
    ensures Quiet(Handle(db, c).db) && Keeps(db, Handle(db, c).db)
  {
    if Legal(db, c) && Begin(db, c.call).Some? {
      AloneKeeps(db, Begin(db, c.call).value, c.envs);
    }
  }

  lemma {:induction false} RunKeeps(db: DB, cs: seq<Served>)
    requires Quiet(db)
    ensures Quiet(Run(db, cs).db) && Keeps(db, Run(db, cs).db)
    decreases cs
  {
    if cs != [] {
      HandleKeeps(db, cs[0]);
      RunKeeps(Handle(db, cs[0]).db, cs[1..]);
      EvolvesTransitive(db, Handle(db, cs[0]).db, Run(db, cs).db);
    }
  }

  /** Every status write of every serial run that changes a status is a
      non-empty path in the transition table. */
  lemma EveryChangeIsPath(cs: seq<Served>, k: nat)
    requires k < |Run(EmptyDB, cs).db.history|
    ensures var c := Run(EmptyDB, cs).db.history[k];
      if c.from.Some? then Path(c.from.value, c.to) else c.to == Received
  {
    RunKeeps(EmptyDB, cs);
    var c := Run(EmptyDB, cs).db.history[k];
    if c.from.Some? { SerialEdgeIsPath(c.from.value, c.to); }
  }

  /** A terminal status is final, and every change of status loses rank. */
  lemma TerminalIsFinal(db: DB, cs: seq<Served>, id: Text)
    requires Quiet(db) && id in db.orders
    ensures id in Run(db, cs).db.orders
    ensures var s, t := db.orders[id].status, Run(db, cs).db.orders[id].status;
      && (IsTerminal(s) ==> t == s)
      && (t != s ==> Rank(t) < Rank(s))
  {
    RunKeeps(db, cs);
    assert RowEvolves(db.orders[id], Run(db, cs).db.orders[id]);
  }

  lemma {:induction false} ChainIsShort(s: seq<Change>, k: nat)
    requires Chained(s) && HistoryFollowsTable(s) && k < |s|
    ensures if k == 0 then s[0].to == Received else k + Rank(s[k].to) <= 5
    decreases k
  {
    if k > 0 {
      ChainIsShort(s, k - 1);
      assert s[k - 1 + 1].from == Some(s[k - 1].to);
      SerialEdgeFollows(s[k - 1].to, s[k].to);
    }
  }

  lemma {:induction false} HistoryOfFollows(h: seq<Change>, id: Text)
    requires HistoryFollowsTable(h)
    ensures HistoryFollowsTable(HistoryOf(h, id))
  {
    if h != [] { HistoryOfFollows(h[..|h| - 1], id); }
  }

  /** An order changes status at most five times after it is created. */
  lemma AtMostFiveChanges(cs: seq<Served>, id: Text)
    ensures |HistoryOf(Run(EmptyDB, cs).db.history, id)| <= 6
  {
    RunKeeps(EmptyDB, cs);
    var db := Run(EmptyDB, cs).db;
    var s := HistoryOf(db.history, id);
    assert HistoryAgreesFor(db, id);
    HistoryOfFollows(db.history, id);
    if s != [] { ChainIsShort(s, |s| - 1); }
  }

  // ---------------------------------------------------------------- replayed deliveries

  /** From here on a delivery with this content cannot change the order. */
  predicate Settled(told: PVSStatus, r: Row) {
    r.qrId.Some? && Rank(r.status) <= (if told == Approved then 3 else 2)
  }

  lemma SettledIgnores(db: DB, key: HookKey, told: PVSStatus, id: Text, envs: seq<Env>)
    requires told == Approved || told == Rejected
    requires Lookup(db, key) == Some(id) && id in db.orders && Settled(told, db.orders[id])
    ensures Serve(db, Webhook(key, Some(told)), envs) == Trace(db, [])
  {
  }

  lemma ReadWritesNothing(db: DB, a: Actor, env: Env)
    requires a.HookRead?
    ensures var o := Advance(db, a, env);
      o.write == NoWrite && o.events == [] && Perform(db, o.write) == db
  {
  }

  /** A delivery in a serial run is its read and its write, then maybe a notice. */
  lemma DeliveryUnfolds(db: DB, key: HookKey, told: PVSStatus, envs: seq<Env>)
    requires key != ById(EMPTY)
    ensures var o := Advance(db, HookRead(key, Some(told)), Head(envs));
      var t := Serve(db, Webhook(key, Some(told)), envs);
      && o.write == NoWrite && o.events == []
      && (o.next.None? ==> t == Trace(db, []))
      && (o.next.Some? ==> t.db == Alone(db, o.next.value, Tail(envs)).db)
  {
    var a := HookRead(key, Some(told));
    ReadWritesNothing(db, a, Head(envs));
    AloneStep(db, a, envs);
  }

  lemma UnansweredIsSettled(db: DB, key: HookKey, told: PVSStatus, id: Text, env: Env)
    requires Quiet(db) && env.up && (told == Approved || told == Rejected)
    requires Lookup(db, key) == Some(id) && ShownIn(db, id)
    ensures var next := Advance(db, HookRead(key, Some(told)), env).next;
      if next.Some? then next.value == HookWrite(id, key, told, db.orders[id]) else Settled(told, db.orders[id])
  {
  }

  lemma WriteSettles(db: DB, a: Actor, env: Env)
    requires Midway(db, a) && a.HookWrite? && (a.told == Approved || a.told == Rejected) && ShownIn(db, a.id) && env.up
    ensures var db' := Perform(db, Advance(db, a, env).write);
      a.id in db'.orders && Settled(a.told, db'.orders[a.id])
  {
  }

  lemma SettledStays(told: PVSStatus, r: Row, r': Row)
    requires Settled(told, r) && RowEvolves(r, r')
    ensures Settled(told, r')
  {
  }

  /** The write, and the notice that may follow it. */
  lemma WholeWriteSettles(db: DB, a: Actor, envs: seq<Env>)
    requires Midway(db, a) && a.HookWrite? && (a.told == Approved || a.told == Rejected) && ShownIn(db, a.id) && Head(envs).up
    ensures var db' := Alone(db, a, envs).db;
      a.id in db'.orders && Settled(a.told, db'.orders[a.id])
  {
    var o := Advance(db, a, Head(envs));
    var db' := Perform(db, o.write);
    AloneStep(db, a, envs);
    WriteSettles(db, a, Head(envs));
    if o.next.Some? {
      AdvanceKeeps(db, a, Head(envs));
      AloneKeeps(db', o.next.value, Tail(envs));
      SettledStays(a.told, db'.orders[a.id], Alone(db', o.next.value, Tail(envs)).db.orders[a.id]);
    }
  }

  lemma DeliverySettles(db: DB, key: HookKey, told: PVSStatus, id: Text, envs: seq<Env>)
    requires Quiet(db) && (told == Approved || told == Rejected)
    requires Lookup(db, key) == Some(id) && ShownIn(db, id) && Answered(envs)
    ensures var db' := Serve(db, Webhook(key, Some(told)), envs).db;
      id in db'.orders && Settled(told, db'.orders[id])
  {
    DeliveryUnfolds(db, key, told, envs);
    UnansweredIsSettled(db, key, told, id, Head(envs));
    if Advance(db, HookRead(key, Some(told)), Head(envs)).next.Some? {
      AdvanceKeeps(db, HookRead(key, Some(told)), Head(envs));
      WholeWriteSettles(db, HookWrite(id, key, told, db.orders[id]), Tail(envs));
    }
  }

  /** The read and the write of a delivery reach the database. */
  predicate Answered(envs: seq<Env>) {
    Head(envs).up && Head(Tail(envs)).up
  }

  lemma {:induction false} RunOfConcat(db: DB, xs: seq<Served>, ys: seq<Served>)
    ensures var r := Run(db, xs);
      var t := Run(r.db, ys);
      Run(db, xs + ys) == Trace(t.db, r.events + t.events)
    decreases xs
  {
    if xs == [] {
      assert xs + ys == ys;
    } else {
      var first := Handle(db, xs[0]);
      assert (xs + ys)[0] == xs[0] && (xs + ys)[1..] == xs[1..] + ys;
      RunOfConcat(first.db, xs[1..], ys);
      var r := Run(first.db, xs[1..]);
      assert first.events + (r.events + Run(r.db, ys).events) == (first.events + r.events) + Run(r.db, ys).events;
    }
  }

  /** The key still names the order, by number or by its fixed QR. */
  lemma KeyStays(db: DB, db': DB, key: HookKey, id: Text)
    requires Quiet(db) && Quiet(db') && Evolves(db, db')
    requires Lookup(db, key) == Some(id) && ShownIn(db, id)
    ensures Lookup(db', key) == Some(id) && ShownIn(db', id)
  {
    assert RowEvolves(db.orders[id], db'.orders[id]);
  }

  /** After a delivery and any further calls, a duplicate does nothing at all. */
  lemma DuplicateDoesNothing(db: DB, d: Served, key: HookKey, again: HookKey, told: PVSStatus, id: Text,
                             envs': seq<Env>, mid: seq<Served>)
    requires Quiet(db) && (told == Approved || told == Rejected)
    requires Lookup(db, key) == Lookup(db, again) == Some(id) && ShownIn(db, id)
    requires d.call == Webhook(key, Some(told)) && Answered(d.envs)
    ensures var db' := Run(Handle(db, d).db, mid).db;
      Handle(db', Served(Webhook(again, Some(told)), envs')) == Trace(db', [])
  {
    var db1 := Handle(db, d).db;
    var db2 := Run(db1, mid).db;
    DeliverySettles(db, key, told, id, d.envs);
    HandleKeeps(db, d);
    RunKeeps(db1, mid);
    EvolvesTransitive(db, db1, db2);
    assert RowEvolves(db1.orders[id], db2.orders[id]);
    KeyStays(db, db2, again, id);
    SettledIgnores(db2, again, told, id, envs');
  }

  lemma RunOfCons(db: DB, c: Served, cs: seq<Served>)
    ensures Run(db, [c] + cs) == Trace(Run(Handle(db, c).db, cs).db, Handle(db, c).events + Run(Handle(db, c).db, cs).events)
  {
    assert ([c] + cs)[1..] == cs;
  }

  /** Deleting a later duplicate of an approval or rejection, under either name of
      the order, leaves the final tables of the whole run, and every call made
      on the way, as they were. */
  lemma DuplicateDeliveryDropsOut(db: DB, d: Served, key: HookKey, again: HookKey, told: PVSStatus, id: Text,
                                  envs': seq<Env>, mid: seq<Served>, post: seq<Served>)
    requires Quiet(db) && (told == Approved || told == Rejected)
    requires Lookup(db, key) == Lookup(db, again) == Some(id) && ShownIn(db, id)
    requires d.call == Webhook(key, Some(told)) && Answered(d.envs)
    ensures Run(db, [d] + (mid + ([Served(Webhook(again, Some(told)), envs')] + post))) == Run(db, [d] + (mid + post))
  {
    var d' := Served(Webhook(again, Some(told)), envs');
    var db1 := Handle(db, d).db;
    var db2 := Run(db1, mid).db;
    DuplicateDoesNothing(db, d, key, again, told, id, envs', mid);
    RunOfCons(db, d, mid + ([d'] + post));
    RunOfCons(db, d, mid + post);
    RunOfConcat(db1, mid, [d'] + post);
    RunOfConcat(db1, mid, post);
    RunOfCons(db2, d', post);
    assert [] + Run(db2, post).events == Run(db2, post).events;
  }

  /** How many deliveries of a reversal change an order in a run. */
  ghost function EffectiveReversals(db: DB, cs: seq<Served>, id: Text): nat
    decreases cs
  {
    if cs == [] then 0 else
    var db' := Handle(db, cs[0]).db;
    (if cs[0].call.Webhook? && cs[0].call.pvs == Some(Reversed) && id in db.orders && id in db'.orders
        && db'.orders[id].status != db.orders[id].status then 1 else 0)
    + EffectiveReversals(db', cs[1..], id)
  }

  function Budget(s: OrderStatus): nat {
    if Rank(s) == 0 then 0 else if Rank(s) == 1 then 1 else 2
  }

  lemma ReversalLowersBudget(s: OrderStatus, t: OrderStatus)
    requires WebhookTarget(Reversed, s) == Some(t) && CanTransitionTo(s, t)
    ensures Budget(t) < Budget(s)
  {
  }

  lemma ReversalWrite(db: DB, a: Actor, env: Env, id: Text)
    requires a.HookWrite? && a.told == Reversed && id in db.orders
    requires WebhookTarget(Reversed, a.seen.status).Some? && CanTransitionTo(a.seen.status, WebhookTarget(Reversed, a.seen.status).value)
    ensures var o := Advance(db, a, env);
      var db' := Perform(db, o.write);
      o.next.None? && id in db'.orders
      && (db.orders[id].status != db'.orders[id].status ==> Budget(db'.orders[id].status) < Budget(db.orders[id].status))
  {
    ReversalLowersBudget(a.seen.status, WebhookTarget(Reversed, a.seen.status).value);
  }

  lemma ReversalSpends(db: DB, c: Served, id: Text)
    requires Quiet(db) && c.call.Webhook? && c.call.pvs == Some(Reversed) && id in db.orders
    ensures id in Handle(db, c).db.orders
    ensures var s, t := db.orders[id].status, Handle(db, c).db.orders[id].status;
      s != t ==> Budget(t) < Budget(s)
  {
    if c.call.key != ById(EMPTY) {
      DeliveryUnfolds(db, c.call.key, Reversed, c.envs);
      var o := Advance(db, HookRead(c.call.key, Some(Reversed)), Head(c.envs));
      if o.next.Some? {
        AloneStep(db, o.next.value, Tail(c.envs));
        ReversalWrite(db, o.next.value, Head(Tail(c.envs)), id);
      }
    }
  }

  /** At most two deliveries of a reversal ever change an order. */
  lemma {:induction false} AtMostTwoReversals(db: DB, cs: seq<Served>, id: Text)
    requires Quiet(db)
    ensures EffectiveReversals(db, cs, id) <= if id in db.orders then Budget(db.orders[id].status) else 2
    decreases cs
  {
    if cs != [] {
      var db' := Handle(db, cs[0]).db;
      HandleKeeps(db, cs[0]);
      AtMostTwoReversals(db', cs[1..], id);
      if id in db.orders {
        assert RowEvolves(db.orders[id], db'.orders[id]);
        if cs[0].call.Webhook? && cs[0].call.pvs == Some(Reversed) { ReversalSpends(db, cs[0], id); }
      }
    }
  }
}
