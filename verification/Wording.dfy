/** What the two external vocabularies say, word by word and number by number,
    and that the translations of the program say the same. */
module Wording {
  import opened Status

  // ---------------------------------------------------------------- a delivery of PVS

  /** A non-empty text decides; only without one does the state id count. The text
      is taken after trimming and upper-casing. */
  predicate SaysApproved(text: string, stateId: int) {
    text == "APPROVED" || (text == "" && stateId == 5)
  }

  predicate SaysRejected(text: string, stateId: int) {
    text == "REJECTED" || (text == "" && stateId == 3)
  }

  predicate SaysReversed(text: string, stateId: int) {
    text == "REVERSED" || text == "REVERSE" || (text == "" && stateId == 4)
  }

  predicate SaysInProcess(text: string, stateId: int) {
    text == "IN_PROCESS" || text == "IN PROCESS" || text == "PENDING" || (text == "" && stateId == 6)
  }

  /** A delivery that says anything; all others are refused. */
  predicate Understood(text: string, stateId: int) {
    SaysApproved(text, stateId) || SaysRejected(text, stateId) || SaysReversed(text, stateId) || SaysInProcess(text, stateId)
  }

  /** The status an order has after hearing a delivery in status s. */
  function StatusTold(s: OrderStatus, text: string, stateId: int): OrderStatus {
    if SaysApproved(text, stateId) && s == QRShown then PaymentConfirmed
    else if SaysRejected(text, stateId) && (s == Received || s == QRRequested || s == QRShown || s == PaymentConfirmed) then Failed
    else if SaysReversed(text, stateId) && (s == PaymentConfirmed || s == Done || s == Failed) then RefundPending
    else if SaysReversed(text, stateId) && s == RefundPending then Refunded
    else s
  }

  /** The status a delivery leads to, if the transition table lets it. */
  function Aimed(told: Option<PVSStatus>, s: OrderStatus): Option<OrderStatus> {
    if told.None? then None else
    var to := WebhookTarget(told.value, s);
    if to.Some? && CanTransitionTo(s, to.value) then to else None
  }

  lemma TextMeaning(text: string, stateId: int)
    ensures var told := ResolveWebhookStatus(text, stateId);
      && (told == Some(Approved) <==> SaysApproved(text, stateId))
      && (told == Some(Rejected) <==> SaysRejected(text, stateId))
      && (told == Some(Reversed) <==> SaysReversed(text, stateId))
      && (told == Some(InProcess) <==> SaysInProcess(text, stateId))
      && (told == None <==> !Understood(text, stateId))
  {
    assert "APPROVED" != "REJECTED" && "APPROVED" != "REVERSED" && "APPROVED" != "REVERSE" && "REJECTED" != "REVERSED";
  }

  lemma AimedMeaning(told: Option<PVSStatus>, s: OrderStatus)
    ensures told == Some(Approved) ==> Aimed(told, s) == if s == QRShown then Some(PaymentConfirmed) else None
    ensures told == Some(Rejected) ==>
              Aimed(told, s) == if s == Received || s == QRRequested || s == QRShown || s == PaymentConfirmed then Some(Failed) else None
    ensures told == Some(Reversed) ==>
              Aimed(told, s) == if s == PaymentConfirmed || s == Done || s == Failed then Some(RefundPending)
                                else if s == RefundPending then Some(Refunded) else None
    ensures told == Some(InProcess) || told == None ==> Aimed(told, s) == None
  {
  }

  /** The translations and the transition table together come to that. */
  lemma ToldMeaning(s: OrderStatus, text: string, stateId: int)
    ensures var to := Aimed(ResolveWebhookStatus(text, stateId), s);
      StatusTold(s, text, stateId) == if to.Some? then to.value else s
    ensures var to := Aimed(ResolveWebhookStatus(text, stateId), s);
      to.Some? ==> to.value != s
  {
    TextMeaning(text, stateId);
    AimedMeaning(ResolveWebhookStatus(text, stateId), s);
  }

  // ---------------------------------------------------------------- an answer of PVS to the reconciler

  /** The status a stuck order has after PVS was asked about it. */
  function StatusFixed(s: OrderStatus, stateId: int): OrderStatus {
    if s == QRShown then
      if stateId == 3 then Failed
      else if stateId == 4 then RefundPending
      else if stateId == 5 then PaymentConfirmed
      else if stateId == 6 then Timeout
      else s
    else if s == RefundPending && stateId == 4 then Refunded
    else s
  }

  lemma FixedMeaning(s: OrderStatus, stateId: int)
    ensures var to := CorrectionTarget(s, stateId);
      StatusFixed(s, stateId) == (if to.Some? then to.value else s) && (to.Some? ==> to.value != s)
  {
  }

  // ---------------------------------------------------------------- the machine's calls

  /** The transition table as the machine's calls meet it. */
  lemma MachineEdges(s: OrderStatus)
    ensures CanTransitionTo(s, Done) <==> s == PaymentConfirmed
    ensures CanTransitionTo(s, Failed) <==> s == Received || s == QRRequested || s == QRShown || s == PaymentConfirmed
    ensures CanTransitionTo(s, Cancelled) <==> s == QRShown || s == PaymentConfirmed
    ensures CanTransitionTo(s, RefundPending) <==> s == PaymentConfirmed || s == Done || s == Failed
  {
  }
}
