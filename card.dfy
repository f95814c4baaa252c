/**
 * One opportunity card: the loss dialog with its mandatory reason, and the
 * pure conditions that decide whether the card can be dragged, whether it
 * offers the win and loss actions, which status badge it wears and whether
 * it shows the loss reason.
 */
module Card {
  import opened Common
  import opened Text
  import opened Board

  /** What `onMarkAsLost(opportunity.id, lossReason)` hands the board. */
  datatype LossRequest = LossRequest(opportunityId: string, reason: string)

  /** The "Marcar como Perdida" button is enabled exactly while `lossReason.trim()`
      is truthy. */
  predicate ConfirmEnabled(reason: string)
  {
    Trim(reason) != []
  }

  /** The confirm button is enabled exactly when the reason has a character
      other than whitespace. */
  lemma ConfirmEnabledIffNotBlank(reason: string)
    ensures ConfirmEnabled(reason) <==> HasNonWhitespace(reason)
  {
    TrimIsEmptyIffBlank(reason);
  }

  /** The card's two pieces of loss-dialog state: `isLossDialogOpen` and
      `lossReason`. */
  class LossDialog {
    var isOpen: bool
    var reason: string

    /** `useState(false)` and `useState('')`. */
    constructor ()
      ensures !isOpen && reason == []
    {
      isOpen := false;
      reason := [];
    }

    /** `onOpenChange` of the dialog and its "Cancelar" button. The typed
        reason survives closing and reopening. */
    method SetOpen(open: bool)
      modifies this
      ensures isOpen == open && reason == old(reason)
    {
      isOpen := open;
    }

    /** The textarea's `onChange`. */
    method EditReason(text: string)
      modifies this
      ensures reason == text && isOpen == old(isOpen)
    {
      reason := text;
    }

    /** `handleMarkAsLost`: with a reason that is not blank, forward it exactly
        as typed, close the dialog and clear the reason; otherwise do nothing. */
    method HandleMarkAsLost(opportunityId: string) returns (request: Option<LossRequest>)
      modifies this
      ensures request.Some? <==> HasNonWhitespace(old(reason))
      ensures request.Some? ==> request.value == LossRequest(opportunityId, old(reason))
      ensures request.Some? ==> !isOpen && reason == []
      ensures request.None? ==> isOpen == old(isOpen) && reason == old(reason)
    {
      TrimIsEmptyIffBlank(reason);
      if Trim(reason) != [] {
        request := Some(LossRequest(opportunityId, reason));
        isOpen := false;
        reason := [];
      } else {
        request := None;
      }
    }
  }

  /** The card's `draggable` attribute. */
  predicate IsDraggable(o: Opportunity)
  {
    !o.isLost && o.status == Some(EmAndamento)
  }

  /** The win and loss buttons are rendered only for `status === 'em-andamento'`. */
  predicate ShowsOutcomeActions(o: Opportunity)
  {
    o.status == Some(EmAndamento)
  }

  /** `getStatusBadge`: 'perdida' and 'ganha' have their own badges; every
      other status, an absent one included, falls through to "Em andamento". */
  function StatusBadgeLabel(status: Option<Status>): (text: string)
    ensures text == "Perdida" <==> status == Some(Perdida)
    ensures text == "Ganha" <==> status == Some(Ganha)
    ensures text == "Em andamento" <==> status != Some(Perdida) && status != Some(Ganha)
  {
    match status
    case Some(Perdida) => "Perdida"
    case Some(Ganha) => "Ganha"
    case _ => "Em andamento"
  }

  /** The loss-reason panel: `opportunity.isLost && opportunity.lossReason`. */
  predicate ShowsLossReason(o: Opportunity)
  {
    o.isLost && o.lossReason.Some? && o.lossReason.value != []
  }

  /** A draggable card offers the outcome actions; the converse fails only for
      a lost card. */
  lemma DraggableOffersActions(o: Opportunity)
    ensures IsDraggable(o) ==> ShowsOutcomeActions(o)
    ensures ShowsOutcomeActions(o) && !IsDraggable(o) ==> o.isLost
  {
  }

  /** The board's own records carry no status: their cards can be neither
      dragged nor marked won or lost, and their badge reads "Em andamento". */
  lemma StatuslessCardIsInert(o: Opportunity)
    requires o.status == None
    ensures !IsDraggable(o) && !ShowsOutcomeActions(o)
    ensures StatusBadgeLabel(o.status) == "Em andamento"
  {
  }

  /** The board's `markAsLost` leaves `status` alone: a card that was in
      progress stops being draggable but keeps its win and loss buttons and its
      "Em andamento" badge. */
  lemma LostCardKeepsActions(o: Opportunity, reason: string)
    requires o.status == Some(EmAndamento)
    ensures !IsDraggable(MarkedLost(o, reason))
    ensures ShowsOutcomeActions(MarkedLost(o, reason))
    ensures StatusBadgeLabel(MarkedLost(o, reason).status) == "Em andamento"
  {
  }

  /** A reason the dialog lets through is shown on the card once the board
      has marked the opportunity lost. */
  lemma ForwardedReasonIsShown(o: Opportunity, reason: string)
    requires ConfirmEnabled(reason)
    ensures ShowsLossReason(MarkedLost(o, reason))
    ensures MarkedLost(o, reason).lossReason == Some(reason)
  {
  }

  /** A blank reason, had it reached the board, would mark the opportunity
      lost without a panel to show why; the dialog's guard prevents it. */
  lemma EmptyReasonIsNotShown(o: Opportunity)
    ensures !ShowsLossReason(MarkedLost(o, ""))
    ensures !ConfirmEnabled("")
  {
  }
}
