/** How often an order is noticed in serial runs. */
module Notices {
  import opened Status
  import opened Tables
  import opened Protocol
  import opened Interleaved
  import opened Serial
  import opened Overwrites
  import opened Repeats
  import opened Outcomes

  lemma {:induction false} AloneStaysQuiet(db: DB, a: Actor, envs: seq<Env>, id: Text)
    requires Midway(db, a) && Marked(db, id) && !NoticeGoesOn(a, id)
    requires a.CreateRead? ==> Head(envs).freshId != EMPTY && Head(envs).freshId !in db.orders
    ensures NoNoticeOf(Alone(db, a, envs).events, id)
    decreases Left(a)
  {
    var o := Advance(db, a, Head(envs));
    var db' := Perform(db, o.write);
    AloneStep(db, a, envs);
    AdvanceKeeps(db, a, Head(envs));
    NextStaysQuiet(db, a, Head(envs), id);
    if o.next.Some? {
      NextIsLeft(db, a, Head(envs));
      MarkStays(db, db', id);
      AloneStaysQuiet(db', o.next.value, Tail(envs), id);
    }
  }

  lemma MarkStays(db: DB, db': DB, id: Text)
    requires Evolves(db, db') && Marked(db, id)
    ensures Marked(db', id)
  {
    assert RowEvolves(db.orders[id], db'.orders[id]);
  }

  lemma HandleStaysQuiet(db: DB, c: Served, id: Text)
    requires Quiet(db) && Marked(db, id)
    ensures NoNoticeOf(Handle(db, c).events, id) && Marked(Handle(db, c).db, id)
  {
    HandleKeeps(db, c);
    MarkStays(db, Handle(db, c).db, id);
    if Legal(db, c) && Begin(db, c.call).Some? { AloneStaysQuiet(db, Begin(db, c.call).value, c.envs, id); }
  }

  /** In serial runs an order whose notice was accepted and marked is never
      noticed again. */
  lemma {:induction false} MarkedNeverNoticed(db: DB, cs: seq<Served>, id: Text)
    requires Quiet(db) && Marked(db, id)
    ensures NoNoticeOf(Run(db, cs).events, id)
    decreases cs
  {
    if cs != [] {
      HandleStaysQuiet(db, cs[0], id);
      HandleKeeps(db, cs[0]);
      MarkedNeverNoticed(Handle(db, cs[0]).db, cs[1..], id);
    }
  }

  /** A retry on its own asks GS exactly when the row is confirmed, unmarked,
      notifiable and old enough, and then marks it exactly when GS accepts and
      the statement is answered. */
  lemma RetryAsksIff(db: DB, id: Text, envs: seq<Env>)
    ensures var t := Serve(db, RetryNotify(id), envs);
      && (AskedNotify(id) in t.events <==>
            id in db.orders && Untold(db.orders[id]) && Head(envs).now - db.orders[id].updatedAt >= 30)
      && (AskedNotify(id) in t.events ==>
            && id in t.db.orders && t.db.orders[id].status == PaymentConfirmed
            && t.db.orders[id].notifyUrl == db.orders[id].notifyUrl
            && (Marked(t.db, id) <==> Took(Head(Tail(envs)).returnCode) && Head(Tail(Tail(envs))).up))
  {
    if id in db.orders && db.orders[id].status == PaymentConfirmed {
      var row := db.orders[id];
      AloneStep(db, RetryCheck(id, row), envs);
      AloneStep(db, NotifyAsk(id, row), Tail(envs));
      AloneStep(db, NotifyWrite(id), Tail(Tail(envs)));
    }
  }

  /** After a retry that asked GS, a later one asks again exactly when the first
      was refused or lost its mark. */
  lemma RetriedAgainIff(db: DB, id: Text, first: seq<Env>, second: seq<Env>)
    requires var t := Serve(db, RetryNotify(id), first);
      && AskedNotify(id) in t.events && id in t.db.orders
      && Head(second).now - t.db.orders[id].updatedAt >= NOTIFY_MIN_AGE
    ensures AskedNotify(id) in Serve(Serve(db, RetryNotify(id), first).db, RetryNotify(id), second).events <==>
            !(Took(Head(Tail(first)).returnCode) && Head(Tail(Tail(first))).up)
  {
    RetryAsksIff(db, id, first);
    RetryAsksIff(Serve(db, RetryNotify(id), first).db, id, second);
  }

  // ---------------------------------------------------------------- where marks come from

  /** GS takes nothing while this call runs. */
  predicate TakesNothing(envs: seq<Env>) {
    forall i :: 0 <= i < |envs| ==> !Took(envs[i].returnCode)
  }

  /** A step marks an order only as the last step of its accepted notice. */
  lemma StepMarks(db: DB, a: Actor, env: Env, id: Text)
    requires Midway(db, a) && !Marked(db, id) && !(a.NotifyWrite? && a.id == id) && !Took(env.returnCode)
    ensures var o := Advance(db, a, env);
      !Marked(Perform(db, o.write), id) && (o.next.Some? ==> !o.next.value.NotifyWrite?)
  {
  }

  lemma {:induction false} AloneMarks(db: DB, a: Actor, envs: seq<Env>, id: Text)
    requires Midway(db, a) && !Marked(db, id) && !(a.NotifyWrite? && a.id == id) && TakesNothing(envs)
    requires a.CreateRead? ==> Head(envs).freshId != EMPTY && Head(envs).freshId !in db.orders
    ensures !Marked(Alone(db, a, envs).db, id)
    decreases Left(a)
  {
    var o := Advance(db, a, Head(envs));
    AloneStep(db, a, envs);
    AdvanceKeeps(db, a, Head(envs));
    StepMarks(db, a, Head(envs), id);
    if o.next.Some? {
      NextIsLeft(db, a, Head(envs));
      AloneMarks(Perform(db, o.write), o.next.value, Tail(envs), id);
    }
  }

  /** Over serial runs a mark appears only when GS has taken a notice with one of
      its two codes. */
  lemma {:induction false} MarksAreTaken(db: DB, cs: seq<Served>, id: Text)
    requires Quiet(db) && !Marked(db, id) && forall k :: 0 <= k < |cs| ==> TakesNothing(cs[k].envs)
    ensures !Marked(Run(db, cs).db, id)
    decreases cs
  {
    if cs != [] {
      var c := cs[0];
      if Legal(db, c) && Begin(db, c.call).Some? { AloneMarks(db, Begin(db, c.call).value, c.envs, id); }
      HandleKeeps(db, c);
      MarksAreTaken(Handle(db, c).db, cs[1..], id);
    }
  }

  /** A retry that GS does not take leaves the order to the next scan. */
  lemma RefusedStaysListed(db: DB, id: Text, envs: seq<Env>)
    requires Head(Tail(envs)).returnCode.None?
             || (Head(Tail(envs)).returnCode.value != "" && Head(Tail(envs)).returnCode.value != "success")
    ensures Serve(db, RetryNotify(id), envs).db == db
  {
    if Begin(db, RetryNotify(id)).Some? {
      AloneStep(db, RetryCheck(id, db.orders[id]), envs);
      RefusedNotice(db, id, db.orders[id], Tail(envs));
    }
  }
}
