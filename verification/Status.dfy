/** The order state machine: statuses, the table of permitted transitions and
    the translations to and from the two external vocabularies. */
module Status {
  datatype OrderStatus =
    | Received | QRRequested | QRShown | PaymentConfirmed | Done | Failed
    | Timeout | Cancelled | RefundPending | Refunded | RefundFailed

  datatype PVSStatus = InProcess | Approved | Reversed | Rejected | Expired

  datatype Option<+T> = None | Some(value: T)

  function Allowed(s: OrderStatus): set<OrderStatus> {
    match s
    case Received => {QRRequested, Failed}
    case QRRequested => {QRShown, Failed}
    case QRShown => {PaymentConfirmed, Failed, Timeout, Cancelled}
    case PaymentConfirmed => {Done, RefundPending, Failed, Cancelled}
    case RefundPending => {Refunded, RefundFailed}
    case Done => {RefundPending}
    case Failed => {RefundPending}
    case Timeout => {}
    case Cancelled => {}
    case Refunded => {}
    case RefundFailed => {}
  }

  predicate CanTransitionTo(s: OrderStatus, to: OrderStatus) {
    to in Allowed(s)
  }

  predicate IsTerminal(s: OrderStatus) {
    Allowed(s) == {}
  }

  /** The code 1..6 that the vending machine understands. */
  function ToGSStatus(s: OrderStatus): int {
    match s
    case Received => 1
    case QRRequested => 1
    case QRShown => 1
    case PaymentConfirmed => 2
    case Done => 2
    case Failed => 3
    case Cancelled => 3
    case RefundPending => 4
    case Refunded => 5
    case RefundFailed => 5
    case Timeout => 6
  }

  function PVSStatusFromStateID(stateId: int): Option<PVSStatus> {
    match stateId
    case 6 => Some(InProcess)
    case 5 => Some(Approved)
    case 4 => Some(Reversed)
    case 3 => Some(Rejected)
    case _ => None
  }

  /** The text is taken after trimming and upper-casing. */
  function PVSStatusFromCallback(text: string): Option<PVSStatus> {
    if text == "APPROVED" then Some(Approved)
    else if text == "REJECTED" then Some(Rejected)
    else if text == "REVERSED" || text == "REVERSE" then Some(Reversed)
    else if text == "IN_PROCESS" || text == "IN PROCESS" || text == "PENDING" then Some(InProcess)
    else None
  }

  /** A callback text wins over a state id; neither is an error. */
  function ResolveWebhookStatus(text: string, stateId: int): Option<PVSStatus> {
    if text != "" then PVSStatusFromCallback(text)
    else if stateId != 0 then PVSStatusFromStateID(stateId)
    else None
  }

  /** The status a delivery aims at, given the status the order was read with. */
  function WebhookTarget(pvs: PVSStatus, current: OrderStatus): Option<OrderStatus> {
    match pvs
    case Approved => Some(PaymentConfirmed)
    case Reversed => if current == RefundPending then Some(Refunded) else Some(RefundPending)
    case Rejected => Some(Failed)
    case InProcess => None
    case Expired => None
  }

  /** The status the reconciler aims at for a stuck order. */
  function CorrectionTarget(current: OrderStatus, stateId: int): Option<OrderStatus> {
    if current == QRShown then
      match stateId
      case 6 => Some(Timeout)
      case 5 => Some(PaymentConfirmed)
      case 3 => Some(Failed)
      case 4 => Some(RefundPending)
      case _ => None
    else if current == RefundPending && stateId == 4 then Some(Refunded)
    else None
  }

  // ---------------------------------------------------------------- paths

  /** A walk along table edges. */
  ghost predicate Walk(p: seq<OrderStatus>) {
    forall i :: 0 <= i < |p| - 1 ==> CanTransitionTo(p[i], p[i + 1])
  }

  /** There is a non-empty walk from s to t. */
  ghost predicate Path(s: OrderStatus, t: OrderStatus) {
    exists p: seq<OrderStatus> :: |p| >= 2 && p[0] == s && p[|p| - 1] == t && Walk(p)
  }

  lemma EdgeIsPath(s: OrderStatus, t: OrderStatus)
    requires CanTransitionTo(s, t)
    ensures Path(s, t)
  {
    assert Walk([s, t]);
  }

  lemma TwoEdgesArePath(s: OrderStatus, m: OrderStatus, t: OrderStatus)
    requires CanTransitionTo(s, m) && CanTransitionTo(m, t)
    ensures Path(s, t)
  {
    var p := [s, m, t];
    assert Walk(p) && p[|p| - 1] == t;
  }

  /** Length of the longest walk out of a status. */
  function Rank(s: OrderStatus): nat {
    match s
    case Received => 6
    case QRRequested => 5
    case QRShown => 4
    case PaymentConfirmed => 3
    case Done => 2
    case Failed => 2
    case RefundPending => 1
    case _ => 0
  }

  lemma {:induction false} WalkLowersRank(p: seq<OrderStatus>)
    requires |p| >= 1 && Walk(p)
    ensures Rank(p[|p| - 1]) + |p| - 1 <= Rank(p[0])
  {
    if |p| > 1 {
      assert CanTransitionTo(p[0], p[1]);
      var q := p[1..];
      assert forall i :: 0 <= i < |q| ==> q[i] == p[i + 1];
      WalkLowersRank(q);
    }
  }

  /** The table has no cycles: every path loses rank, and a terminal status
      starts none. */
  lemma PathLowersRank(s: OrderStatus, t: OrderStatus)
    requires Path(s, t)
    ensures Rank(t) < Rank(s) && !IsTerminal(s)
  {
    var p: seq<OrderStatus> :| |p| >= 2 && p[0] == s && p[|p| - 1] == t && Walk(p);
    WalkLowersRank(p);
    assert CanTransitionTo(p[0], p[1]);
  }
}
