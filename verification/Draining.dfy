/** Scans on a quiet system: exact counters, and backlogs that drain. */
module Draining {
  import opened Status
  import opened Tables
  import opened Protocol
  import opened Serial
  import opened Services
  import opened Reconciler
  import opened Wording
  import opened Outcomes

  // ---------------------------------------------------------------- one row

  predicate ForOrder(a: Actor, id: Text) {
    (a.FixAsk? || a.FixWrite? || a.RetryCheck? || a.NotifyAsk? || a.NotifyWrite?) && a.id == id
  }

  /** A correction or a notice touches no other order. */
  lemma {:induction false} TouchesOne(db: DB, a: Actor, envs: seq<Env>, id: Text)
    requires ForOrder(a, id)
    ensures var db' := Alone(db, a, envs).db;
      && db'.orders.Keys == db.orders.Keys
      && (forall j :: j in db.orders && j != id ==> db'.orders[j] == db.orders[j])
      && (id in db.orders ==> db'.orders[id].notifyUrl == db.orders[id].notifyUrl)
    decreases Left(a)
  {
    var o := Advance(db, a, Head(envs));
    if o.next.Some? { TouchesOne(Perform(db, o.write), o.next.value, Tail(envs), id); }
  }

  function Noticed(r: Row, now: Time): Row {
    r.(notifiedAt := Some(now), updatedAt := now)
  }

  lemma NoticeExact(db: DB, s: Snap, envs: seq<Env>)
    requires s.id in db.orders && db.orders[s.id].status == PaymentConfirmed
    ensures var db' := Alone(db, NotifyAsk(s.id, s.row), envs).db;
      && s.id in db'.orders
      && db'.orders[s.id] == if NoticeLands(db, s.id, s.row, envs) then Noticed(db.orders[s.id], Head(Tail(envs)).now) else db.orders[s.id]
  {
    AloneStep(db, NotifyAsk(s.id, s.row), envs);
  }

  lemma RetryStarts(db: DB, s: Snap, envs: seq<Env>)
    ensures Alone(db, RetryCheck(s.id, s.row), envs).db ==
            if Due(s.row, Head(envs).now) then Alone(db, NotifyAsk(s.id, s.row), Tail(envs)).db else db
  {
    AloneStep(db, RetryCheck(s.id, s.row), envs);
  }

  lemma RetryExact(db: DB, s: Snap, envs: seq<Env>)
    requires s.id in db.orders && db.orders[s.id].status == PaymentConfirmed
    ensures var db' := Alone(db, RetryCheck(s.id, s.row), envs).db;
      && s.id in db'.orders
      && db'.orders[s.id] == if Retried(db, s, envs) then Noticed(db.orders[s.id], MarkTime(envs)) else db.orders[s.id]
  {
    RetryStarts(db, s, envs);
    if Due(s.row, Head(envs).now) { NoticeExact(db, s, Tail(envs)); }
  }

  /** When a retried notice is marked, after the age check and GS's answer. */
  function MarkTime(envs: seq<Env>): Time {
    Head(Tail(Tail(envs))).now
  }

  ghost predicate NotBefore(envs: seq<Env>, t: Time) {
    forall e :: e in envs && e.up ==> e.now >= t
  }

  /** A correction of a current row either leaves it as it is, or gives it the
      status PVS's answer calls for, which is another one, and a fresh age. */
  predicate FixedRow(r: Row, r': Row, envs: seq<Env>, t: Time) {
    && Head(envs).state.Some? && CorrectionTarget(r.status, Head(envs).state.value) == Some(r'.status)
    && r'.status != r.status && r'.updatedAt >= t
  }

  lemma FixExact(db: DB, s: Snap, envs: seq<Env>, t: Time)
    requires s.id in db.orders && db.orders[s.id] == s.row && NotBefore(envs, t)
    ensures var db' := Alone(db, FixAsk(s.id, s.row), envs).db;
      && s.id in db'.orders
      && if Corrects(db.orders, s, envs) then FixedRow(s.row, db'.orders[s.id], envs, t) else db'.orders[s.id] == s.row
  {
    AloneStep(db, FixAsk(s.id, s.row), envs);
    if Corrects(db.orders, s, envs) {
      var state, e, rest := Head(envs).state.value, Head(Tail(envs)), Tail(Tail(envs));
      assert e in envs;
      AloneStep(db, FixWrite(s.id, s.row, state), Tail(envs));
      var o := Advance(db, FixWrite(s.id, s.row, state), e);
      if o.next.Some? {
        var paid := SeenPaid(s.row, e.now);
        NoticeExact(Perform(db, o.write), Snap(s.id, paid), rest);
        assert rest != [] ==> Head(Tail(rest)).up ==> Head(Tail(rest)) in envs;
      }
    }
  }

  // ---------------------------------------------------------------- one loop

  ghost predicate AllNotBefore(answers: seq<seq<Env>>, t: Time) {
    forall i: nat :: NotBefore(At(answers, i), t)
  }

  /** What the first loop does to each row, listed or not. */
  ghost predicate LoopFixed(o: map<Text, Row>, o': map<Text, Row>, l: seq<Snap>, answers: seq<seq<Env>>, t: Time) {
    && o'.Keys == o.Keys
    && (forall j :: j in o && j !in Ids(l) ==> o'[j] == o[j])
    && (forall k :: 0 <= k < |l| ==> OneFixed(o, o', l[k], At(answers, k), t))
  }

  predicate OneFixed(o: map<Text, Row>, o': map<Text, Row>, s: Snap, envs: seq<Env>, t: Time) {
    && s.id in o && s.id in o'
    && if Corrects(o, s, envs) then FixedRow(o[s.id], o'[s.id], envs, t) else o'[s.id] == o[s.id]
  }

  /** What the second loop does. */
  ghost predicate LoopNoticed(o: map<Text, Row>, o': map<Text, Row>, l: seq<Snap>, answers: seq<seq<Env>>) {
    && o'.Keys == o.Keys
    && (forall j :: j in o && j !in Ids(l) ==> o'[j] == o[j])
    && (forall k :: 0 <= k < |l| ==> OneNoticed(o, o', l[k], At(answers, k)))
  }

  predicate OneNoticed(o: map<Text, Row>, o': map<Text, Row>, s: Snap, envs: seq<Env>) {
    && s.id in o && s.id in o'
    && o'[s.id] == if Lands(s.row, envs) then Noticed(o[s.id], MarkTime(envs)) else o[s.id]
  }

  predicate Lands(r: Row, envs: seq<Env>) {
    Due(r, Head(envs).now) && Accepted(Head(Tail(envs))) && Head(Tail(Tail(envs))).up
  }

  ghost function StatusChanges(o: map<Text, Row>, o': map<Text, Row>): set<Text> {
    set id | id in o && id in o' && o'[id].status != o[id].status
  }

  ghost function NewNotices(o: map<Text, Row>, o': map<Text, Row>): set<Text> {
    set id | id in o && id in o' && o[id].notifiedAt.None? && o'[id].notifiedAt.Some?
  }

  lemma CurrentPrefix(o: map<Text, Row>, l: seq<Snap>)
    requires Current(o, l) && l != []
    ensures var n := |l| - 1;
      && Current(o, l[..n]) && Ids(l) == Ids(l[..n]) + {l[n].id} && l[n].id !in Ids(l[..n])
  {
    var n := |l| - 1;
    assert l == l[..n] + [l[n]];
    IdsSnoc(l[..n], l[n]);
  }

  /** From m to o' only the row `id` may differ. */
  predicate OnlyRow(m: map<Text, Row>, o': map<Text, Row>, id: Text) {
    o'.Keys == m.Keys && forall j :: j in m && j != id ==> o'[j] == m[j]
  }

  lemma FixNext(o: map<Text, Row>, m: map<Text, Row>, o': map<Text, Row>, l: seq<Snap>, answers: seq<seq<Env>>, t: Time)
    requires Current(o, l) && l != [] && LoopFixed(o, m, l[..|l| - 1], answers, t)
    requires OnlyRow(m, o', l[|l| - 1].id) && OneFixed(o, o', l[|l| - 1], At(answers, |l| - 1), t)
    ensures LoopFixed(o, o', l, answers, t)
    ensures |StatusChanges(o, o')| == |StatusChanges(o, m)| + if Corrects(o, l[|l| - 1], At(answers, |l| - 1)) then 1 else 0
  {
    var n := |l| - 1;
    CurrentPrefix(o, l);
    forall k | 0 <= k < |l| ensures OneFixed(o, o', l[k], At(answers, k), t) {
      if k < n { assert l[..n][k] == l[k] && OneFixed(o, m, l[..n][k], At(answers, k), t); }
    }
    var more := if Corrects(o, l[n], At(answers, n)) then {l[n].id} else {};
    assert l[n].id !in StatusChanges(o, m);
    forall j ensures j in StatusChanges(o, o') <==> j in StatusChanges(o, m) + more {
      if j in m && j != l[n].id { assert o'[j] == m[j]; }
    }
    assert StatusChanges(o, o') == StatusChanges(o, m) + more;
  }

  /** The first loop, exactly: every listed row gets the correction its own answer
      calls for, no other row moves, and the counter counts the moved ones. */
  lemma {:induction false} FixAllExact(p: Pass, l: seq<Snap>, answers: seq<seq<Env>>, t: Time)
    requires Current(p.db.orders, l) && AllNotBefore(answers, t)
    ensures var p' := FixAll(p, l, answers);
      && LoopFixed(p.db.orders, p'.db.orders, l, answers, t)
      && p'.fixed == p.fixed + |StatusChanges(p.db.orders, p'.db.orders)|
    decreases |l|
  {
    var o := p.db.orders;
    if l == [] {
      assert StatusChanges(o, o) == {};
    } else {
      var n := |l| - 1;
      var m, s := FixAll(p, l[..n], answers), l[n];
      CurrentPrefix(o, l);
      FixAllExact(p, l[..n], answers, t);
      TouchesOne(m.db, FixAsk(s.id, s.row), At(answers, n), s.id);
      FixExact(m.db, s, At(answers, n), t);
      FixNext(o, m.db.orders, FixAll(p, l, answers).db.orders, l, answers, t);
    }
  }

  lemma NoticeNext(o: map<Text, Row>, m: map<Text, Row>, o': map<Text, Row>, l: seq<Snap>, answers: seq<seq<Env>>)
    requires Current(o, l) && l != [] && LoopNoticed(o, m, l[..|l| - 1], answers) && l[|l| - 1].row.notifiedAt.None?
    requires OnlyRow(m, o', l[|l| - 1].id) && OneNoticed(o, o', l[|l| - 1], At(answers, |l| - 1))
    ensures LoopNoticed(o, o', l, answers)
    ensures |NewNotices(o, o')| == |NewNotices(o, m)| + if Lands(l[|l| - 1].row, At(answers, |l| - 1)) then 1 else 0
  {
    var n := |l| - 1;
    CurrentPrefix(o, l);
    forall k | 0 <= k < |l| ensures OneNoticed(o, o', l[k], At(answers, k)) {
      if k < n { assert l[..n][k] == l[k] && OneNoticed(o, m, l[..n][k], At(answers, k)); }
    }
    var more := if Lands(l[n].row, At(answers, n)) then {l[n].id} else {};
    assert l[n].id !in NewNotices(o, m);
    forall j ensures j in NewNotices(o, o') <==> j in NewNotices(o, m) + more {
      if j in m && j != l[n].id { assert o'[j] == m[j]; }
    }
    assert NewNotices(o, o') == NewNotices(o, m) + more;
  }

  lemma RetryOneExact(m: Pass, s: Snap, envs: seq<Env>)
    requires s.id in m.db.orders && m.db.orders[s.id] == s.row && Unnotified(s.row)
    ensures var p' := RetryOne(m, s, envs);
      && OnlyRow(m.db.orders, p'.db.orders, s.id) && OneNoticed(m.db.orders, p'.db.orders, s, envs)
      && p'.fixed == m.fixed + if Lands(s.row, envs) then 1 else 0
  {
    TouchesOne(m.db, RetryCheck(s.id, s.row), envs, s.id);
    RetryExact(m.db, s, envs);
  }

  /** The second loop, exactly. */
  lemma {:induction false} RetryAllExact(p: Pass, l: seq<Snap>, answers: seq<seq<Env>>)
    requires Current(p.db.orders, l) && forall k :: 0 <= k < |l| ==> Unnotified(l[k].row)
    ensures var p' := RetryAll(p, l, answers);
      && LoopNoticed(p.db.orders, p'.db.orders, l, answers)
      && p'.fixed == p.fixed + |NewNotices(p.db.orders, p'.db.orders)|
    decreases |l|
  {
    var o := p.db.orders;
    if l == [] {
      assert NewNotices(o, o) == {};
    } else {
      var n := |l| - 1;
      var m, s := RetryAll(p, l[..n], answers), l[n];
      CurrentPrefix(o, l);
      RetryAllExact(p, l[..n], answers);
      assert m.db.orders[s.id] == s.row;
      RetryExtends(p, l, answers);
    }
  }

  lemma RetryExtends(p: Pass, l: seq<Snap>, answers: seq<seq<Env>>)
    requires l != [] && Current(p.db.orders, l) && Unnotified(l[|l| - 1].row)
    requires var m := RetryAll(p, l[..|l| - 1], answers);
      && LoopNoticed(p.db.orders, m.db.orders, l[..|l| - 1], answers)
      && l[|l| - 1].id in m.db.orders && m.db.orders[l[|l| - 1].id] == l[|l| - 1].row
      && m.fixed == p.fixed + |NewNotices(p.db.orders, m.db.orders)|
    ensures var p' := RetryAll(p, l, answers);
      && LoopNoticed(p.db.orders, p'.db.orders, l, answers)
      && p'.fixed == p.fixed + |NewNotices(p.db.orders, p'.db.orders)|
  {
    var n := |l| - 1;
    var m := RetryAll(p, l[..n], answers);
    RetryOneExact(m, l[n], At(answers, n));
    NoticeNext(p.db.orders, m.db.orders, RetryOne(m, l[n], At(answers, n)).db.orders, l, answers);
  }

  // ---------------------------------------------------------------- one scan

  /** A round over a batch, in which no answer is older than its clock. */
  ghost predicate Valid(p: Pass, s: Round, batch: nat) {
    Listed(p, s, batch) && AllNotBefore(s.answers, s.now) && AllNotBefore(s.retries, s.now)
  }

  lemma PendingUnnotified(o: map<Text, Row>, batch: nat, l: seq<Snap>)
    requires Listing(o, UnnotifiedIds(o), batch, l)
    ensures forall k :: 0 <= k < |l| ==> Unnotified(l[k].row)
  {
    assert forall k :: 0 <= k < |l| ==> l[k].id in Ids(l);
  }

  /** What a whole scan does, row by row, and what its counter counts: each
      status it corrected and each overdue notice it delivered, once. */
  lemma ScanIsExact(p: Pass, s: Round, batch: nat)
    requires Valid(p, s, batch)
    ensures var o, m, e := p.db.orders, Middle(p, s).db.orders, End(p, s).db.orders;
      && LoopFixed(o, m, s.stuck, s.answers, s.now)
      && LoopNoticed(m, e, s.pending, s.retries)
      && End(p, s).fixed == p.fixed + |StatusChanges(o, m)| + |NewNotices(m, e)|
  {
    FixAllExact(p, s.stuck, s.answers, s.now);
    PendingUnnotified(Middle(p, s).db.orders, batch, s.pending);
    RetryAllExact(Middle(p, s), s.pending, s.retries);
  }

  // ---------------------------------------------------------------- whom a scan leaves alone, and whom not

  /** Neither listed as stuck nor as unnotified: the row stays as it is. */
  lemma UnlistedStays(p: Pass, s: Round, batch: nat, id: Text)
    requires Valid(p, s, batch) && id in p.db.orders && id !in Ids(s.stuck)
    ensures id in Middle(p, s).db.orders && Middle(p, s).db.orders[id] == p.db.orders[id]
    ensures id !in Ids(s.pending) ==> id in End(p, s).db.orders && End(p, s).db.orders[id] == p.db.orders[id]
  {
    ScanIsExact(p, s, batch);
  }

  /** A scan leaves alone every order but three kinds: a QR expired at the scan's
      clock, a refund pending for more than 600 seconds, and a confirmed payment
      that GS has not been told. */
  lemma OthersAreLeft(p: Pass, s: Round, batch: nat, id: Text)
    requires Valid(p, s, batch) && id in p.db.orders
    requires var r := p.db.orders[id];
      && !(r.status == QRShown && r.qrExpiresAt.Some? && r.qrExpiresAt.value < s.now)
      && !(r.status == RefundPending && s.now - r.updatedAt > 600)
      && !(r.status == PaymentConfirmed && r.notifiedAt.None?)
    ensures id in End(p, s).db.orders && End(p, s).db.orders[id] == p.db.orders[id]
  {
    assert id !in StuckIds(p.db.orders, s.now);
    UnlistedStays(p, s, batch, id);
    assert id !in UnnotifiedIds(Middle(p, s).db.orders);
  }

  /** A notice is left alone while its row is younger than 30 seconds at its turn. */
  lemma YoungNoticeIsLeft(p: Pass, s: Round, batch: nat, id: Text)
    requires Valid(p, s, batch) && id in p.db.orders && p.db.orders[id].status == PaymentConfirmed
    requires forall k :: 0 <= k < |s.pending| ==> Head(At(s.retries, k)).now - p.db.orders[id].updatedAt < 30
    ensures id in End(p, s).db.orders && End(p, s).db.orders[id] == p.db.orders[id]
  {
    assert id !in StuckIds(p.db.orders, s.now);
    UnlistedStays(p, s, batch, id);
    ScanIsExact(p, s, batch);
    if id in Ids(s.pending) {
      var k := ListedIsAt(s.pending, id);
      assert OneNoticed(Middle(p, s).db.orders, End(p, s).db.orders, s.pending[k], At(s.retries, k));
    }
  }

  lemma SmallListingIsAll(o: map<Text, Row>, ids: set<Text>, batch: nat, l: seq<Snap>)
    requires Listing(o, ids, batch, l) && |ids| <= batch
    ensures Ids(l) == ids
  {
    CurrentSize(o, l);
    SubsetSize(Ids(l), ids);
    if |ids - Ids(l)| == 0 {
      forall id | id in ids ensures id in Ids(l) { assert id !in ids - Ids(l); }
    }
  }

  /** When all of them fit the batch, every expired QR and every refund older than
      600 seconds is listed, and corrected as PVS's number for it says. */
  lemma StuckAreCorrected(p: Pass, s: Round, batch: nat, id: Text) returns (k: nat)
    requires Valid(p, s, batch) && |StuckIds(p.db.orders, s.now)| <= batch && id in p.db.orders
    requires var r := p.db.orders[id];
      || (r.status == QRShown && r.qrExpiresAt.Some? && r.qrExpiresAt.value < s.now)
      || (r.status == RefundPending && s.now - r.updatedAt > 600)
    ensures k < |s.stuck| && s.stuck[k].id == id
    ensures var envs := At(s.answers, k);
      Head(envs).state.Some? && Head(Tail(envs)).up ==>
        && id in Middle(p, s).db.orders
        && Middle(p, s).db.orders[id].status == StatusFixed(p.db.orders[id].status, Head(envs).state.value)
  {
    SmallListingIsAll(p.db.orders, StuckIds(p.db.orders, s.now), batch, s.stuck);
    assert id in StuckIds(p.db.orders, s.now);
    k := ListedIsAt(s.stuck, id);
    ScanIsExact(p, s, batch);
    assert OneFixed(p.db.orders, Middle(p, s).db.orders, s.stuck[k], At(s.answers, k), s.now);
    if Head(At(s.answers, k)).state.Some? { FixedMeaning(p.db.orders[id].status, Head(At(s.answers, k)).state.value); }
  }

  /** When all of them fit the batch, GS is told of every unnotified payment that is
      30 seconds old at its turn, and the row is marked if GS takes it. */
  lemma OldNoticesAreTold(p: Pass, s: Round, batch: nat, id: Text) returns (k: nat)
    requires Valid(p, s, batch) && |UnnotifiedIds(Middle(p, s).db.orders)| <= batch && id in p.db.orders
    requires Untold(p.db.orders[id])
    ensures k < |s.pending| && s.pending[k].id == id
    ensures var envs := At(s.retries, k);
      Head(envs).now - p.db.orders[id].updatedAt >= 30 && Took(Head(Tail(envs)).returnCode) && Head(Tail(Tail(envs))).up ==>
        && id in End(p, s).db.orders
        && End(p, s).db.orders[id].notifiedAt == Some(Head(Tail(Tail(envs))).now)
  {
    var m := Middle(p, s).db.orders;
    assert id !in StuckIds(p.db.orders, s.now);
    UnlistedStays(p, s, batch, id);
    SmallListingIsAll(m, UnnotifiedIds(m), batch, s.pending);
    assert id in UnnotifiedIds(m);
    k := ListedIsAt(s.pending, id);
    ScanIsExact(p, s, batch);
    assert OneNoticed(m, End(p, s).db.orders, s.pending[k], At(s.retries, k));
  }

  // ---------------------------------------------------------------- the backlog of stuck orders

  /** PVS answers for every listed order and the database is up; only orders in
      `hopeless` are refunds that PVS does not report reversed. */
  ghost predicate Working(s: Round, hopeless: set<Text>) {
    forall k :: 0 <= k < |s.stuck| ==> Answered(s.stuck[k], At(s.answers, k), hopeless)
  }

  predicate Answered(s: Snap, envs: seq<Env>, hopeless: set<Text>) {
    && Head(envs).state.Some? && 3 <= Head(envs).state.value <= 6 && Head(Tail(envs)).up
    && (s.id !in hopeless ==> s.row.status == QRShown || Head(envs).state.value == 4)
  }

  lemma ListedIsAt(l: seq<Snap>, id: Text) returns (k: nat)
    requires id in Ids(l)
    ensures k < |l| && l[k].id == id
  {
    k :| 0 <= k < |l| && l[k].id == id;
  }

  lemma ClearedRow(o: map<Text, Row>, m: map<Text, Row>, s: Snap, envs: seq<Env>, now: Time, hopeless: set<Text>)
    requires OneFixed(o, m, s, envs, now) && s.row == o[s.id] && Stuck(s.row, now)
    requires Answered(s, envs, hopeless) && s.id !in hopeless
    ensures !Stuck(m[s.id], now)
  {
  }

  /** The second loop touches confirmed orders only, which are not stuck before or after. */
  lemma NoticeLeavesStuck(m: map<Text, Row>, e: map<Text, Row>, l: seq<Snap>, retries: seq<seq<Env>>, now: Time)
    requires LoopNoticed(m, e, l, retries) && Current(m, l) && forall k :: 0 <= k < |l| ==> Unnotified(l[k].row)
    ensures StuckIds(e, now) == StuckIds(m, now)
  {
    forall id | id in m ensures Stuck(e[id], now) <==> Stuck(m[id], now) {
      if id in Ids(l) {
        var k := ListedIsAt(l, id);
        assert OneNoticed(m, e, l[k], At(retries, k));
      }
    }
  }

  lemma NoneBecomesStuck(p: Pass, s: Round, batch: nat, hopeless: set<Text>)
    requires Valid(p, s, batch) && Working(s, hopeless)
    ensures StuckIds(End(p, s).db.orders, s.now) <= StuckIds(p.db.orders, s.now) - (Ids(s.stuck) - hopeless)
  {
    var o, m := p.db.orders, Middle(p, s).db.orders;
    ScanIsExact(p, s, batch);
    PendingUnnotified(m, batch, s.pending);
    NoticeLeavesStuck(m, End(p, s).db.orders, s.pending, s.retries, s.now);
    forall id | id in StuckIds(m, s.now) ensures id in StuckIds(o, s.now) && id !in Ids(s.stuck) - hopeless {
      if id in Ids(s.stuck) {
        var k := ListedIsAt(s.stuck, id);
        if id !in hopeless { ClearedRow(o, m, s.stuck[k], At(s.answers, k), s.now, hopeless); }
      }
    }
  }

  lemma SubsetSize(a: set<Text>, b: set<Text>)
    requires a <= b
    ensures |a| <= |b| && |b - a| == |b| - |a|
  {
    assert b == a + (b - a);
  }

  /** Counting: at least min(batch - |h|, |b| - |h|) members of a batch from b lie outside h. */
  lemma BatchOutside(b: set<Text>, listed: set<Text>, h: set<Text>, batch: nat)
    requires listed <= b && h <= b && |listed| == Min(batch, |b|)
    ensures |listed - h| >= Min(batch - |h|, |b| - |h|)
  {
    SubsetSize(listed * h, listed);
    SubsetSize(listed * h, h);
    assert listed - h == listed - listed * h;
  }

  /** One scan clears at least min(batch - hopeless, resolvable) of its stuck
      orders, and no order becomes stuck by it. */
  lemma ScanDrainsStuck(p: Pass, s: Round, batch: nat, hopeless: set<Text>)
    requires Valid(p, s, batch) && Working(s, hopeless)
    requires hopeless <= StuckIds(p.db.orders, s.now) && |hopeless| < batch
    ensures var before, after := StuckIds(p.db.orders, s.now), StuckIds(End(p, s).db.orders, s.now);
      && after <= before
      && |before| - |after| >= Min(batch - |hopeless|, |before| - |hopeless|)
  {
    var before, listed := StuckIds(p.db.orders, s.now), Ids(s.stuck);
    NoneBecomesStuck(p, s, batch, hopeless);
    CurrentSize(p.db.orders, s.stuck);
    BatchOutside(before, listed, hopeless, batch);
    SubsetSize(StuckIds(End(p, s).db.orders, s.now), before - (listed - hopeless));
    SubsetSize(listed - hopeless, before);
  }

  /** Scans one after another, none meeting a stuck order that the one before did
      not leave; at most `hopeless` of each scan's orders cannot be cleared. */
  ghost predicate FixedBacklog(p: Pass, ss: seq<Round>, backlog: set<Text>, batch: nat, hopeless: seq<set<Text>>, most: nat)
    decreases ss
  {
    ss == [] || (
      && hopeless != [] && |hopeless[0]| <= most < batch
      && Valid(p, ss[0], batch) && Working(ss[0], hopeless[0])
      && hopeless[0] <= StuckIds(p.db.orders, ss[0].now) <= backlog
      && FixedBacklog(End(p, ss[0]), ss[1..], StuckIds(End(p, ss[0]).db.orders, ss[0].now), batch, hopeless[1..], most))
  }

  /** What the last of the scans leaves stuck. */
  ghost function Leftover(p: Pass, ss: seq<Round>, backlog: set<Text>): set<Text>
    decreases ss
  {
    if ss == [] then backlog
    else Leftover(End(p, ss[0]), ss[1..], StuckIds(End(p, ss[0]).db.orders, ss[0].now))
  }

  /** What k rounds leave at most of b, when each clears d until `most` are left. */
  function Remaining(b: int, most: nat, d: int, k: nat): int {
    Max(Min(most, b), b - k * d)
  }

  lemma Telescope(b: int, a: int, x: int, most: nat, d: nat, k: nat)
    requires a <= b && a <= Remaining(b, most, d, 1) && x <= Remaining(a, most, d, k)
    ensures x <= Remaining(b, most, d, k + 1)
  {
    assert (k + 1) * d == k * d + d && k * d >= 0;
  }

  lemma FirstScanDrains(p: Pass, ss: seq<Round>, backlog: set<Text>, batch: nat, hopeless: seq<set<Text>>, most: nat)
    requires ss != [] && FixedBacklog(p, ss, backlog, batch, hopeless, most)
    ensures var after := StuckIds(End(p, ss[0]).db.orders, ss[0].now);
      |after| <= |backlog| && |after| <= Remaining(|backlog|, most, batch - most, 1)
  {
    ScanDrainsStuck(p, ss[0], batch, hopeless[0]);
    SubsetSize(StuckIds(p.db.orders, ss[0].now), backlog);
    SubsetSize(StuckIds(End(p, ss[0]).db.orders, ss[0].now), StuckIds(p.db.orders, ss[0].now));
  }

  /** A fixed backlog drains down to the hopeless orders, at least `d`, the batch
      less the hopeless orders, per scan until then. */
  lemma {:induction false} BacklogDrains(p: Pass, ss: seq<Round>, backlog: set<Text>, batch: nat, hopeless: seq<set<Text>>, most: nat, d: nat)
    requires FixedBacklog(p, ss, backlog, batch, hopeless, most) && batch == most + d
    ensures |Leftover(p, ss, backlog)| <= Remaining(|backlog|, most, d, |ss|)
    decreases ss
  {
    if ss != [] {
      var p' := End(p, ss[0]);
      var after := StuckIds(p'.db.orders, ss[0].now);
      FirstScanDrains(p, ss, backlog, batch, hopeless, most);
      BacklogDrains(p', ss[1..], after, batch, hopeless[1..], most, d);
      Telescope(|backlog|, |after|, |Leftover(p', ss[1..], after)|, most, d, |ss[1..]|);
    }
  }

  // ---------------------------------------------------------------- the backlog of payment notices

  /** Unnotified orders last touched by `cutoff`. */
  function Overdue(o: map<Text, Row>, cutoff: Time): set<Text> {
    set id | id in o && Unnotified(o[id]) && o[id].updatedAt <= cutoff
  }

  /** GS accepts, the database is up, and the cutoff is old enough not to be left
      to a notice under way; writes of this scan come after the cutoff. */
  ghost predicate Accepting(s: Round, cutoff: Time) {
    && cutoff < s.now
    && forall k :: 0 <= k < |s.pending| ==>
         var envs := At(s.retries, k);
         Head(envs).now - cutoff >= NOTIFY_MIN_AGE && Accepted(Head(Tail(envs))) && Head(Tail(Tail(envs))).up
  }

  predicate AllNotifiable(o: map<Text, Row>) {
    forall id :: id in o ==> o[id].notifyUrl != EMPTY
  }

  lemma {:induction false} FixesKeepUrls(p: Pass, l: seq<Snap>, answers: seq<seq<Env>>)
    requires AllNotifiable(p.db.orders)
    ensures AllNotifiable(FixAll(p, l, answers).db.orders)
    decreases |l|
  {
    if l != [] {
      var n := |l| - 1;
      FixesKeepUrls(p, l[..n], answers);
      TouchesOne(FixAll(p, l[..n], answers).db, FixAsk(l[n].id, l[n].row), At(answers, n), l[n].id);
    }
  }

  lemma {:induction false} NoticesKeepUrls(p: Pass, l: seq<Snap>, answers: seq<seq<Env>>)
    requires AllNotifiable(p.db.orders)
    ensures AllNotifiable(RetryAll(p, l, answers).db.orders)
    decreases |l|
  {
    if l != [] {
      var n := |l| - 1;
      NoticesKeepUrls(p, l[..n], answers);
      TouchesOne(RetryAll(p, l[..n], answers).db, RetryCheck(l[n].id, l[n].row), At(answers, n), l[n].id);
    }
  }

  /** The first loop neither adds to the overdue notices nor touches them. */
  lemma FixesLeaveOverdue(p: Pass, s: Round, batch: nat, cutoff: Time)
    requires Valid(p, s, batch) && cutoff < s.now
    ensures Overdue(Middle(p, s).db.orders, cutoff) == Overdue(p.db.orders, cutoff)
  {
    var o, m := p.db.orders, Middle(p, s).db.orders;
    ScanIsExact(p, s, batch);
    forall id | id in o ensures id in Overdue(m, cutoff) <==> id in Overdue(o, cutoff) {
      if id in Ids(s.stuck) {
        var k := ListedIsAt(s.stuck, id);
        assert OneFixed(o, m, s.stuck[k], At(s.answers, k), s.now);
        assert Stuck(o[id], s.now);
      }
    }
  }

  lemma OverdueRowLands(m: map<Text, Row>, e: map<Text, Row>, s: Snap, envs: seq<Env>, cutoff: Time)
    requires OneNoticed(m, e, s, envs) && s.row == m[s.id] && s.row.notifyUrl != EMPTY
    requires Head(envs).now - cutoff >= NOTIFY_MIN_AGE && Accepted(Head(Tail(envs))) && Head(Tail(Tail(envs))).up
    ensures s.id !in Overdue(e, cutoff)
  {
  }

  /** The second loop delivers every overdue notice that it listed. */
  lemma ListedOverdueLand(p: Pass, s: Round, batch: nat, cutoff: Time)
    requires Valid(p, s, batch) && Accepting(s, cutoff) && AllNotifiable(Middle(p, s).db.orders)
    ensures Overdue(End(p, s).db.orders, cutoff) <= Overdue(Middle(p, s).db.orders, cutoff) - Ids(s.pending)
  {
    var m, e := Middle(p, s).db.orders, End(p, s).db.orders;
    ScanIsExact(p, s, batch);
    forall id | id in Ids(s.pending) ensures id !in Overdue(e, cutoff) {
      var k := ListedIsAt(s.pending, id);
      OverdueRowLands(m, e, s.pending[k], At(s.retries, k), cutoff);
    }
    forall id | id in Overdue(e, cutoff) ensures id in Overdue(m, cutoff) && id !in Ids(s.pending) {
      assert id in m && e[id] == m[id];
    }
  }

  /** Oldest first: a listing takes as many overdue notices as fit in the batch. */
  lemma OldestFirst(m: map<Text, Row>, batch: nat, l: seq<Snap>, cutoff: Time)
    requires Listing(m, UnnotifiedIds(m), batch, l)
    ensures |Overdue(m, cutoff) * Ids(l)| >= Min(batch, |Overdue(m, cutoff)|)
  {
    var due, listed := Overdue(m, cutoff), Ids(l);
    CurrentSize(m, l);
    if |due - listed| == 0 {
      forall i | i in due ensures i in listed { assert i !in due - listed; }
      assert due * listed == due;
    } else {
      var id := Member(due - listed);
      forall i | i in listed ensures i in due {
        var k := ListedIsAt(l, i);
        assert l[k].row.updatedAt <= m[id].updatedAt;
      }
      assert due * listed == listed;
      SubsetSize(listed + {id}, UnnotifiedIds(m));
    }
  }

  /** One scan delivers min(batch, overdue) of the overdue notices, even when
      orders confirmed later compete for the batch. */
  lemma ScanDrainsNotices(p: Pass, s: Round, batch: nat, cutoff: Time)
    requires Valid(p, s, batch) && Accepting(s, cutoff) && AllNotifiable(p.db.orders)
    ensures |Overdue(End(p, s).db.orders, cutoff)| <= Max(0, |Overdue(p.db.orders, cutoff)| - batch)
  {
    var m := Middle(p, s).db.orders;
    var due, listed := Overdue(m, cutoff), Ids(s.pending);
    FixesKeepUrls(p, s.stuck, s.answers);
    FixesLeaveOverdue(p, s, batch, cutoff);
    ListedOverdueLand(p, s, batch, cutoff);
    OldestFirst(m, batch, s.pending, cutoff);
    SubsetSize(Overdue(End(p, s).db.orders, cutoff), due - listed);
    SubsetSize(due * listed, due);
    assert due - listed == due - due * listed;
  }

  ghost predicate AcceptingScans(p: Pass, ss: seq<Round>, batch: nat, cutoff: Time)
    decreases ss
  {
    ss == [] || (
      && Valid(p, ss[0], batch) && Accepting(ss[0], cutoff)
      && AcceptingScans(End(p, ss[0]), ss[1..], batch, cutoff))
  }

  ghost function After(p: Pass, ss: seq<Round>): Pass
    decreases ss
  {
    if ss == [] then p else After(End(p, ss[0]), ss[1..])
  }

  lemma ScanKeepsUrls(p: Pass, s: Round)
    requires AllNotifiable(p.db.orders)
    ensures AllNotifiable(End(p, s).db.orders)
  {
    FixesKeepUrls(p, s.stuck, s.answers);
    NoticesKeepUrls(Middle(p, s), s.pending, s.retries);
  }

  /** E overdue notices are gone after E / batch scans, rounded up. */
  lemma {:induction false} NoticesDrain(p: Pass, ss: seq<Round>, batch: nat, cutoff: Time)
    requires AcceptingScans(p, ss, batch, cutoff) && AllNotifiable(p.db.orders)
    ensures |Overdue(After(p, ss).db.orders, cutoff)| <= Remaining(|Overdue(p.db.orders, cutoff)|, 0, batch, |ss|)
    decreases ss
  {
    if ss != [] {
      var p' := End(p, ss[0]);
      ScanDrainsNotices(p, ss[0], batch, cutoff);
      ScanKeepsUrls(p, ss[0]);
      NoticesDrain(p', ss[1..], batch, cutoff);
      var b, a := |Overdue(p.db.orders, cutoff)|, |Overdue(p'.db.orders, cutoff)|;
      Telescope(b, a, |Overdue(After(p, ss).db.orders, cutoff)|, 0, batch, |ss[1..]|);
    }
  }

  // ---------------------------------------------------------------- a scan as part of a serial run

  /** The calls the first loop makes, one correction per row. */
  function Corrections(l: seq<Snap>, answers: seq<seq<Env>>): (cs: seq<Served>)
    decreases |l|
  {
    if l == [] then [] else
    var n := |l| - 1;
    Corrections(l[..n], answers) + [Served(Correct(l[n].id), At(answers, n))]
  }

  /** The calls the second loop makes, one retry per row. */
  function Retries(l: seq<Snap>, answers: seq<seq<Env>>): (cs: seq<Served>)
    decreases |l|
  {
    if l == [] then [] else
    var n := |l| - 1;
    Retries(l[..n], answers) + [Served(RetryNotify(l[n].id), At(answers, n))]
  }

  /** From p a pass has done to p' what a serial run of these calls does. */
  ghost predicate IsRun(p: Pass, cs: seq<Served>, p': Pass) {
    p'.db == Run(p.db, cs).db && p'.events == p.events + Run(p.db, cs).events
  }

  lemma OneIsRun(m: Pass, c: Served, p': Pass)
    requires p'.db == Handle(m.db, c).db && p'.events == m.events + Handle(m.db, c).events
    ensures IsRun(m, [c], p')
  {
    assert [c][1..] == [] && Run(Handle(m.db, c).db, []).events == [];
    assert Run(m.db, [c]).events == Handle(m.db, c).events;
  }

  lemma Assoc(a: seq<Event>, b: seq<Event>, c: seq<Event>)
    ensures a + (b + c) == (a + b) + c
  {
  }

  lemma RunsJoin(p: Pass, cs: seq<Served>, m: Pass, ds: seq<Served>, p': Pass)
    requires IsRun(p, cs, m) && IsRun(m, ds, p')
    ensures IsRun(p, cs + ds, p')
  {
    RunOfConcat(p.db, cs, ds);
    Assoc(p.events, Run(p.db, cs).events, Run(m.db, ds).events);
  }

  /** The rows stay current until the loop reaches them. */
  lemma {:induction false} CorrectingLoopIsSerialRun(p: Pass, l: seq<Snap>, answers: seq<seq<Env>>, t: Time)
    requires Current(p.db.orders, l) && AllNotBefore(answers, t)
    requires forall k :: 0 <= k < |l| ==> l[k].row.status == QRShown || l[k].row.status == RefundPending
    ensures IsRun(p, Corrections(l, answers), FixAll(p, l, answers))
    decreases |l|
  {
    if l != [] {
      var n := |l| - 1;
      var m, c := FixAll(p, l[..n], answers), Served(Correct(l[n].id), At(answers, n));
      CurrentPrefix(p.db.orders, l);
      CorrectingLoopIsSerialRun(p, l[..n], answers, t);
      assert m.db.orders[l[n].id] == l[n].row by { FixAllExact(p, l[..n], answers, t); }
      OneIsRun(m, c, FixAll(p, l, answers));
      RunsJoin(p, Corrections(l[..n], answers), m, [c], FixAll(p, l, answers));
    }
  }

  lemma {:induction false} RetryingLoopIsSerialRun(p: Pass, l: seq<Snap>, answers: seq<seq<Env>>)
    requires Current(p.db.orders, l) && forall k :: 0 <= k < |l| ==> Unnotified(l[k].row)
    ensures IsRun(p, Retries(l, answers), RetryAll(p, l, answers))
    decreases |l|
  {
    if l != [] {
      var n := |l| - 1;
      var m, c := RetryAll(p, l[..n], answers), Served(RetryNotify(l[n].id), At(answers, n));
      CurrentPrefix(p.db.orders, l);
      RetryingLoopIsSerialRun(p, l[..n], answers);
      assert m.db.orders[l[n].id] == l[n].row by { RetryAllExact(p, l[..n], answers); }
      OneIsRun(m, c, RetryAll(p, l, answers));
      RunsJoin(p, Retries(l[..n], answers), m, [c], RetryAll(p, l, answers));
    }
  }

  /** A whole scan is a stretch of a serial run, tables and calls alike, and has
      all the properties of serial runs. */
  lemma ScanIsSerialRun(p: Pass, s: Round, batch: nat)
    requires Valid(p, s, batch)
    ensures IsRun(p, Corrections(s.stuck, s.answers) + Retries(s.pending, s.retries), End(p, s))
  {
    var m := Middle(p, s);
    StuckStatuses(p.db.orders, s.now, batch, s.stuck);
    CorrectingLoopIsSerialRun(p, s.stuck, s.answers, s.now);
    PendingUnnotified(m.db.orders, batch, s.pending);
    RetryingLoopIsSerialRun(m, s.pending, s.retries);
    RunsJoin(p, Corrections(s.stuck, s.answers), m, Retries(s.pending, s.retries), End(p, s));
  }
}
