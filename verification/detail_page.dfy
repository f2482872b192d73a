/**
 * The state of the listing detail page: the listing, its bids as fetched
 * (largest first), the viewer, and the two dialogs the page opens. The
 * seller accepts one bid through the confirmation dialog; a buyer opens the
 * bid dialog through "Dar Lance".
 */
module DetailPage {
  import opened Wrappers
  import opened Domain
  import opened Text
  import opened Bidding
  import Countdown

  /** Where "Dar Lance" leads. */
  datatype BidButtonOutcome = GoToAuth | BidDialogOpened

  /** The chat link the seller is sent to after an acceptance, with its parts. */
  datatype Handoff = Handoff(phone: string, message: string, link: string)

  /** The page's deadline test and the countdown's agree on every instant. */
  lemma ExpiredAgreesWithCountdown(listing: Listing, now: int)
    ensures IsExpired(listing, now) <==> Countdown.Tick(listing.deadline, now).Expired?
  {
  }

  class ListingPage {
    var listing: Listing
    var bids: seq<Bid>
    /** `currentUserId`: None for a visitor who is not logged in. */
    var viewer: Option<UserId>
    /** `selectedLance`: the bid chosen with "Aceitar", kept after its dialog closes. */
    var selected: Option<Bid>
    var acceptOpen: bool
    var bidOpen: bool

    /**
     * The bids are those of this listing, fetched largest first, with
     * distinct ids; the confirmation dialog is only open on a chosen bid.
     */
    ghost predicate Valid()
      reads this
    {
      && SortedByAmountDesc(bids)
      && UniqueIds(bids)
      && (forall k :: 0 <= k < |bids| ==> bids[k].listingId == listing.id)
      && (acceptOpen ==> selected.Some?)
    }

    constructor (listing: Listing, bids: seq<Bid>, viewer: Option<UserId>)
      requires SortedByAmountDesc(bids) && UniqueIds(bids)
      requires forall k :: 0 <= k < |bids| ==> bids[k].listingId == listing.id
      ensures Valid()
      ensures this.listing == listing && this.bids == bids && this.viewer == viewer
      ensures selected == None && !acceptOpen && !bidOpen
    {
      this.listing := listing;
      this.bids := bids;
      this.viewer := viewer;
      selected := None;
      acceptOpen := false;
      bidOpen := false;
    }

    /** A fresh fetch of the bids (after a change, or after a bid was placed), ordered by amount. */
    method Refresh(fetched: seq<Bid>)
      requires Valid()
      requires SortedByAmountDesc(fetched) && UniqueIds(fetched)
      requires forall k :: 0 <= k < |fetched| ==> fetched[k].listingId == listing.id
      modifies this`bids
      ensures Valid() && bids == fetched
    {
      bids := fetched;
    }

    /** "Aceitar" on row `i`, rendered only where CanAccept holds: choose the bid and open the confirmation. */
    method RequestAccept(i: nat)
      requires Valid() && i < |bids| && CanAccept(viewer, listing, bids[i])
      modifies this`selected, this`acceptOpen
      ensures Valid() && selected == Some(bids[i]) && acceptOpen
    {
      selected := Some(bids[i]);
      acceptOpen := true;
    }

    /** "Cancelar" in the confirmation: the dialog closes, the choice is kept. */
    method CancelAccept()
      requires Valid()
      modifies this`acceptOpen
      ensures Valid() && !acceptOpen
    {
      acceptOpen := false;
    }

    /**
     * "Aceitar e Ir ao WhatsApp" (`handleAcceptConfirm`), reachable only from
     * the open confirmation, with the refetch that follows it. The two
     * updates (the bid to `aceito`, then the listing to `finalizado`) are
     * awaited but their errors are never read: `bidStored` and `listingStored`
     * say whether each took effect, and the refetch shows exactly what did.
     * Either way the dialog closes and the chat link is built from the
     * buyer's digits and the listing's title; `encode` stands for
     * `encodeURIComponent`.
     */
    method AcceptConfirm(bidStored: bool, listingStored: bool, encode: string -> string) returns (r: Handoff)
      requires Valid() && acceptOpen
      modifies this`bids, this`listing, this`acceptOpen
      ensures Valid() && !acceptOpen
      ensures var chosen := old(selected).value;
        && bids == (if bidStored then MarkAccepted(old(bids), chosen.id) else old(bids))
        && listing == (if listingStored then old(listing).(status := Finalizado) else old(listing))
      ensures var chosen := old(selected).value;
        var phone := HandoffPhone(chosen.buyerWhatsapp);
        var message := HandoffMessage(old(listing).title);
        r == Handoff(phone, message, HandoffLink(phone, encode(message)))
    {
      var chosen := selected.value;
      if bidStored {
        var after := MarkAccepted(bids, chosen.id);
        assert forall k :: 0 <= k < |after| ==>
          after[k].amount == bids[k].amount && after[k].id == bids[k].id && after[k].listingId == bids[k].listingId;
        bids := after;
      }
      var phone := HandoffPhone(chosen.buyerWhatsapp);
      var message := HandoffMessage(listing.title);
      if listingStored {
        listing := listing.(status := Finalizado);
      }
      acceptOpen := false;
      r := Handoff(phone, message, HandoffLink(phone, encode(message)));
    }

    /**
     * "Dar Lance", rendered only where CanBid holds: a visitor without a
     * (truthy) user id is sent to the login page, anyone else gets the bid
     * dialog.
     */
    method BidButton() returns (outcome: BidButtonOutcome)
      requires Valid() && CanBid(viewer, listing, bids)
      modifies this`bidOpen
      ensures Valid()
      ensures outcome == GoToAuth <==> viewer.None? || viewer == Some("")
      ensures bidOpen == (outcome == BidDialogOpened || old(bidOpen))
    {
      if viewer.None? || viewer == Some("") {
        return GoToAuth;
      }
      bidOpen := true;
      outcome := BidDialogOpened;
    }
  }

  /**
   * After a confirmed acceptance from a state where the seller could press
   * "Aceitar", the page offers nothing more: the chosen bid is the only
   * accepted one, and neither "Aceitar" nor "Dar Lance" is shown to anyone.
   */
  lemma ConfirmedAcceptanceCloses(listing: Listing, bids: seq<Bid>, k: nat)
    requires UniqueIds(bids) && k < |bids|
    requires listing.status != Finalizado && FindAccepted(bids).None?
    ensures var after := MarkAccepted(bids, bids[k].id);
      && FindAccepted(after) == Some(after[k])
      && (forall v, j :: 0 <= j < |after| ==> !CanAccept(v, listing.(status := Finalizado), after[j]))
      && (forall v :: !CanBid(v, listing.(status := Finalizado), after))
  {
    AcceptanceIsFinal(listing, bids, k);
    var after := MarkAccepted(bids, bids[k].id);
    FindAcceptedUnique(after, k);
  }

  /**
   * When only the bid update takes effect, the listing stays open with an
   * accepted bid: "Dar Lance" is gone, but the seller is still offered
   * "Aceitar" on every other bid, so a second bid can be accepted.
   */
  lemma HalfAcceptanceReopens(listing: Listing, bids: seq<Bid>, k: nat, j: nat)
    requires UniqueIds(bids) && k < |bids| && j < |bids| && j != k
    requires listing.status != Finalizado && bids[j].status != Aceito
    ensures var after := MarkAccepted(bids, bids[k].id);
      && FindAccepted(after).Some?
      && (forall v :: !CanBid(v, listing, after))
      && CanAccept(Some(listing.sellerId), listing, after[j])
  {
    var after := MarkAccepted(bids, bids[k].id);
    CountAcceptedPositive(after, k);
    CountAcceptedZero(after);
  }

  /** When exactly one bid is accepted, `find` returns that one. */
  lemma {:induction false} FindAcceptedUnique(bids: seq<Bid>, k: nat)
    requires k < |bids| && bids[k].status == Aceito && CountAccepted(bids) == 1
    ensures FindAccepted(bids) == Some(bids[k])
  {
    if k == 0 {
    } else {
      if bids[0].status == Aceito {
        CountAcceptedPositive(bids[1..], k - 1);
        assert false;
      }
      FindAcceptedUnique(bids[1..], k - 1);
    }
  }

  /** A list with an accepted bid has a positive count. */
  lemma {:induction false} CountAcceptedPositive(bids: seq<Bid>, k: nat)
    requires k < |bids| && bids[k].status == Aceito
    ensures CountAccepted(bids) > 0
  {
    if k > 0 {
      CountAcceptedPositive(bids[1..], k - 1);
    }
  }
}
