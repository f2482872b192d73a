/**
 * The bid dialog of the listing page: a risk warning that must be
 * acknowledged, then the amount entry, the floor check and the insert of the
 * bid row, with the `submitting` flag raised while the insert is in flight.
 */
module BidDialog {
  import opened Wrappers
  import opened Domain
  import opened Bidding

  /** The two screens of the dialog (`"warning" | "bid"`). */
  datatype Step = Warning | Amount

  /** What pressing "Confirmar Lance" does. */
  datatype SubmitResult =
    | Ignored              // the button is disabled while an insert is in flight
    | Refused(floor: Cents) // the amount did not parse or lies below the floor
    | Sent(row: BidInsert)  // the insert has been issued

  /** `s.replace(",", ".")`: a string pattern, so only the first comma becomes a point. */
  function ReplaceFirstComma(s: string): (r: string)
    ensures |r| == |s|
    ensures forall k :: 0 <= k < |s| ==> r[k] == if s[k] == ',' && ',' !in s[..k] then '.' else s[k]
  {
    if s == [] then []
    else if s[0] == ',' then
      var r := ['.'] + s[1..];
      assert forall k :: 1 <= k < |s| ==> ',' in s[..k] by {
        forall k | 1 <= k < |s| ensures ',' in s[..k] { assert s[..k][0] == ','; }
      }
      r
    else
      var rest := ReplaceFirstComma(s[1..]);
      var r := [s[0]] + rest;
      assert forall k :: 1 <= k < |s| ==> s[..k] == [s[0]] + s[1..][..k - 1];
      r
  }

  class Dialog {
    /** The `open` prop, owned by the listing page. */
    var open: bool
    var step: Step
    /** The "I am aware of the risks" checkbox. */
    var accepted: bool
    /** The text typed into the amount field. */
    var valor: string
    var submitting: bool
    /** The row of the insert in flight, if any. */
    var pending: Option<BidInsert>

    /**
     * The amount screen is only reached with the risk box ticked, and
     * `submitting` is raised exactly while an insert is in flight.
     */
    ghost predicate Valid()
      reads this
    {
      (step == Amount ==> accepted) && (submitting <==> pending.Some?)
    }

    constructor ()
      ensures Valid()
      ensures !open && step == Warning && !accepted && valor == "" && !submitting && pending == None
    {
      open := false;
      step := Warning;
      accepted := false;
      valor := "";
      submitting := false;
      pending := None;
    }

    /**
     * `handleClose(v)`, called by the dialog itself (Cancel, Escape, a click
     * outside): closing resets the screen, the checkbox and the typed amount;
     * opening leaves them as they are.
     */
    method HandleClose(v: bool)
      requires Valid()
      modifies this
      ensures Valid() && open == v
      ensures !v ==> step == Warning && !accepted && valor == ""
      ensures v ==> step == old(step) && accepted == old(accepted) && valor == old(valor)
      ensures submitting == old(submitting) && pending == old(pending)
    {
      if !v {
        step := Warning;
        accepted := false;
        valor := "";
      }
      open := v;
    }

    /**
     * The listing page setting its `bidModalOpen` state directly ("Dar Lance",
     * or after a successful bid): this does not go through `handleClose`,
     * so nothing is reset.
     */
    method SetOpenFromPage(v: bool)
      requires Valid()
      modifies this`open
      ensures Valid() && open == v
    {
      open := v;
    }

    /** The checkbox, rendered on the warning screen. */
    method SetAccepted(checked: bool)
      requires Valid() && open && step == Warning
      modifies this`accepted
      ensures Valid() && accepted == checked
    {
      accepted := checked;
    }

    /** "Continuar": disabled, and so without effect, while the box is not ticked. */
    method Continue()
      requires Valid() && open && step == Warning
      modifies this`step
      ensures Valid()
      ensures step == if accepted then Amount else Warning
    {
      if accepted {
        step := Amount;
      }
    }

    /** Typing into the amount field, rendered on the amount screen. */
    method TypeAmount(text: string)
      requires Valid() && open && step == Amount
      modifies this`valor
      ensures Valid() && valor == text
    {
      valor := text;
    }

    /**
     * "Confirmar Lance" (`handleSubmitBid` up to the insert). `parse` stands
     * for `parseFloat` read in cents (None for NaN). A refused amount issues
     * no insert and leaves `submitting` down; an accepted one raises it and
     * issues the insert of the row CheckBid builds.
     */
    method Submit(listing: Listing, currentMax: Option<Cents>, userId: UserId, parse: string -> Option<Cents>)
      returns (r: SubmitResult)
      requires Valid() && open && step == Amount
      modifies this`submitting, this`pending
      ensures Valid()
      ensures old(submitting) ==> r == Ignored && submitting && pending == old(pending)
      ensures !old(submitting) ==>
        match CheckBid(listing, currentMax, userId, parse(ReplaceFirstComma(valor)))
        case Failure(floor) => r == Refused(floor) && !submitting && pending == None
        case Success(row) => r == Sent(row) && submitting && pending == Some(row)
    {
      if submitting {
        return Ignored;
      }
      var numVal := parse(ReplaceFirstComma(valor));
      var floor := MinValue(currentMax, listing.minPrice);
      if numVal.None? || numVal.value < floor {
        return Refused(floor);
      }
      var row := BidInsert(listing.id, userId, numVal.value);
      submitting := true;
      pending := Some(row);
      r := Sent(row);
    }

    /**
     * The insert has answered. Without an error `onSuccess` runs, and the
     * page closes the dialog directly, so the screen, the checkbox and the
     * typed amount survive; either way `submitting` drops.
     */
    method FinishInsert(error: bool) returns (success: bool)
      requires Valid() && pending.Some?
      modifies this`submitting, this`pending, this`open
      ensures Valid() && !submitting && pending == None
      ensures success == !error
      ensures open == (old(open) && error)
    {
      success := !error;
      if success {
        open := false;
      }
      submitting := false;
      pending := None;
    }
  }
}
