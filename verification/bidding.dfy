/**
 * The bidding rules of the listing page and the bid dialog: who may bid,
 * who may accept which bid, the minimum amount a new bid must reach, the
 * effect of an acceptance on the stored rows, and the chat link handed to
 * the seller afterwards.
 */
module Bidding {
  import opened Wrappers
  import opened Domain
  import opened Text

  /** `currentUserId === anuncio?.vendedor_id`: a visitor who is not logged in is never the seller. */
  predicate IsSeller(viewer: Option<UserId>, listing: Listing): (r: bool)
    ensures r ==> viewer.Some? && viewer.value == listing.sellerId
    ensures viewer.None? ==> !r
  {
    viewer == Some(listing.sellerId)
  }

  /** `new Date(anuncio.data_fim) <= new Date()`, with instants in milliseconds. */
  predicate IsExpired(listing: Listing, now: int) {
    listing.deadline <= now
  }

  /** Expiry is permanent: a listing expired at one instant is expired at every later one. */
  lemma ExpiryIsPermanent(listing: Listing, now: int, later: int)
    requires now <= later
    ensures IsExpired(listing, now) ==> IsExpired(listing, later)
    ensures !IsExpired(listing, later) ==> !IsExpired(listing, now)
  {
  }

  /** `lances.length > 0 ? lances[0].valor : null`: the amount of the first bid as fetched. */
  function MaxLance(bids: seq<Bid>): (r: Option<Cents>)
    ensures r.None? <==> bids == []
    ensures SortedByAmountDesc(bids) && r.Some? ==> forall b :: b in bids ==> b.amount <= r.value
  {
    if |bids| > 0 then Some(bids[0].amount) else None
  }

  /** `lances.find((l) => l.status === "aceito")`: the first accepted bid, if any. */
  function FindAccepted(bids: seq<Bid>): (r: Option<Bid>)
    ensures r.None? <==> forall k :: 0 <= k < |bids| ==> bids[k].status != Aceito
    ensures r.Some? ==> exists k :: 0 <= k < |bids| && bids[k] == r.value && r.value.status == Aceito
                                     && forall j :: 0 <= j < k ==> bids[j].status != Aceito
  {
    if bids == [] then None
    else if bids[0].status == Aceito then Some(bids[0])
    else
      var r := FindAccepted(bids[1..]);
      assert forall k :: 1 <= k < |bids| ==> bids[k] == bids[1..][k - 1];
      r
  }

  /** How many of the bids are accepted. */
  function CountAccepted(bids: seq<Bid>): nat {
    if bids == [] then 0
    else (if bids[0].status == Aceito then 1 else 0) + CountAccepted(bids[1..])
  }

  /** The count is zero exactly when `find` finds nothing. */
  lemma {:induction false} CountAcceptedZero(bids: seq<Bid>)
    ensures CountAccepted(bids) == 0 <==> FindAccepted(bids).None?
  {
    if bids != [] {
      CountAcceptedZero(bids[1..]);
    }
  }

  /**
   * The "Aceitar" button of one bid row: shown to the seller, while the
   * listing is not finalised, on a bid that is not accepted. The deadline
   * plays no part.
   */
  predicate CanAccept(viewer: Option<UserId>, listing: Listing, bid: Bid): (r: bool)
    ensures r <==> viewer == Some(listing.sellerId) && listing.status != Finalizado && bid.status == Pendente
  {
    IsSeller(viewer, listing) && listing.status != Finalizado && bid.status != Aceito
  }

  /**
   * The "Dar Lance" button: shown to anyone but the seller, while the listing
   * is not finalised and no bid is accepted.
   */
  predicate CanBid(viewer: Option<UserId>, listing: Listing, bids: seq<Bid>): (r: bool)
    ensures r <==> viewer != Some(listing.sellerId) && listing.status != Finalizado
                   && forall k :: 0 <= k < |bids| ==> bids[k].status == Pendente
  {
    !IsSeller(viewer, listing) && listing.status != Finalizado && FindAccepted(bids).None?
  }

  /** Row `i` of the bid list carries the "Maior" badge: the first row, unless it is accepted. */
  predicate ShowsMaiorBadge(bids: seq<Bid>, i: nat): (r: bool)
    requires i < |bids|
    ensures r <==> i == 0 && bids[0].status == Pendente
  {
    i == 0 && bids[i].status != Aceito
  }

  /** On bids in fetch order, the badged bid is not accepted and no other bid is larger. */
  lemma MaiorBadgeMarksLargest(bids: seq<Bid>, i: nat)
    requires i < |bids| && SortedByAmountDesc(bids)
    ensures ShowsMaiorBadge(bids, i) <==> i == 0 && bids[0].status == Pendente
    ensures ShowsMaiorBadge(bids, i) ==> forall j :: 0 <= j < |bids| ==> bids[j].amount <= bids[i].amount
  {
  }

  /**
   * The floor of the bid dialog, `currentMax ? currentMax + 0.01 : preco_minimo`,
   * in cents: one cent above a non-zero current maximum, otherwise the
   * minimum price. A non-zero maximum makes the minimum price irrelevant.
   */
  function MinValue(currentMax: Option<Cents>, minPrice: Cents): (floor: Cents)
    ensures currentMax.Some? && currentMax.value != 0 ==> floor == currentMax.value + 1
    ensures currentMax.None? || currentMax.value == 0 ==> floor == minPrice
  {
    if currentMax.Some? && currentMax.value != 0 then currentMax.value + 1 else minPrice
  }

  /** The row the dialog inserts into `lances`. */
  datatype BidInsert = BidInsert(listingId: string, buyerId: UserId, amount: Cents)

  /**
   * The check of `handleSubmitBid`: an amount that did not parse, or lies
   * below the floor, is refused (the failure carries the floor shown to the
   * user); otherwise the row to insert.
   */
  function CheckBid(listing: Listing, currentMax: Option<Cents>, userId: UserId, amount: Option<Cents>)
    : (r: Result<BidInsert, Cents>)
    ensures r.Success? <==> amount.Some? && amount.value >= MinValue(currentMax, listing.minPrice)
    ensures r.Success? ==> r.value == BidInsert(listing.id, userId, amount.value)
    ensures r.Failure? ==> r.error == MinValue(currentMax, listing.minPrice)
  {
    var floor := MinValue(currentMax, listing.minPrice);
    if amount.None? || amount.value < floor then Failure(floor)
    else Success(BidInsert(listing.id, userId, amount.value))
  }

  /**
   * With the floor taken from the fetched bids and a positive minimum price,
   * every bid the dialog lets through is larger than every bid already there,
   * and the first bid reaches the minimum price.
   */
  lemma AcceptedBidLeads(listing: Listing, bids: seq<Bid>, userId: UserId, amount: Option<Cents>)
    requires SortedByAmountDesc(bids) && listing.minPrice > 0
    requires CheckBid(listing, MaxLance(bids), userId, amount).Success?
    ensures forall b :: b in bids ==> b.amount < amount.value
    ensures bids == [] ==> amount.value >= listing.minPrice
  {
    var a := amount.value;
    if bids != [] {
      forall b | b in bids ensures b.amount < a {
        assert b.amount <= bids[0].amount;
      }
    }
  }

  /**
   * With a non-zero leading bid the minimum price plays no part: an amount
   * passes exactly when it is at least one cent above the leading bid, and
   * the outcome is the same whatever the minimum price. Once the seller has
   * raised the minimum above the leading bid (the edit form allows it),
   * amounts below the minimum pass.
   */
  lemma FloorIgnoresMinimumPrice(listing: Listing, lead: Cents, userId: UserId, amount: Cents, otherMin: Cents)
    requires lead != 0
    ensures CheckBid(listing, Some(lead), userId, Some(amount)).Success? <==> amount >= lead + 1
    ensures CheckBid(listing, Some(lead), userId, Some(amount))
         == CheckBid(listing.(minPrice := otherMin), Some(lead), userId, Some(amount))
  {
  }

  /**
   * The effect of accepting the bid with id `id` (`update({ status: "aceito" }).eq("id", id)`):
   * that bid becomes accepted, every other bid is left as it was.
   */
  function MarkAccepted(bids: seq<Bid>, id: string): (r: seq<Bid>)
    ensures |r| == |bids|
    ensures forall k :: 0 <= k < |bids| && bids[k].id == id ==> r[k] == bids[k].(status := Aceito)
    ensures forall k :: 0 <= k < |bids| && bids[k].id != id ==> r[k] == bids[k]
  {
    if bids == [] then []
    else
      var head := if bids[0].id == id then bids[0].(status := Aceito) else bids[0];
      var r := [head] + MarkAccepted(bids[1..], id);
      assert forall k :: 1 <= k < |bids| ==> r[k] == MarkAccepted(bids[1..], id)[k - 1] && bids[k] == bids[1..][k - 1];
      r
  }

  /** Accepting one bid of a list with unique ids and no accepted bid leaves exactly one accepted. */
  lemma {:induction false} AcceptOneCount(bids: seq<Bid>, k: nat)
    requires UniqueIds(bids) && k < |bids|
    requires CountAccepted(bids) == 0
    ensures CountAccepted(MarkAccepted(bids, bids[k].id)) == 1
  {
    var id := bids[k].id;
    var r := MarkAccepted(bids, id);
    assert r[1..] == MarkAccepted(bids[1..], id);
    if k == 0 {
      NoMatchUnchanged(bids[1..], id);
    } else {
      AcceptOneCount(bids[1..], k - 1);
    }
  }

  /** Marking an id no bid carries changes nothing. */
  lemma NoMatchUnchanged(bids: seq<Bid>, id: string)
    requires forall j :: 0 <= j < |bids| ==> bids[j].id != id
    ensures MarkAccepted(bids, id) == bids
  {
  }

  /**
   * The acceptance state machine. From a listing that is not finalised and
   * has no accepted bid, accepting bid `k` (listing to `finalizado`, bid to
   * `aceito`) leaves exactly one accepted bid, the one chosen, and then no
   * viewer is offered "Aceitar" on any bid nor "Dar Lance".
   */
  lemma AcceptanceIsFinal(listing: Listing, bids: seq<Bid>, k: nat)
    requires UniqueIds(bids) && k < |bids|
    requires listing.status != Finalizado && FindAccepted(bids).None?
    ensures var after := MarkAccepted(bids, bids[k].id);
      && CountAccepted(after) == 1
      && after[k].status == Aceito
      && (forall j :: 0 <= j < |after| && j != k ==> after[j] == bids[j])
      && (forall v, j :: 0 <= j < |after| ==> !CanAccept(v, listing.(status := Finalizado), after[j]))
      && (forall v :: !CanBid(v, listing.(status := Finalizado), after))
  {
    CountAcceptedZero(bids);
    AcceptOneCount(bids, k);
  }

  /** The chat API address the seller is sent to. */
  const WhatsAppSend: string := "https://api.whatsapp.com/send?phone="

  /**
   * `profiles?.whatsapp?.replace(/\D/g, "") ?? ""`: the buyer's number with
   * every non-digit removed, or empty when the buyer has no profile.
   */
  function HandoffPhone(whatsapp: Option<string>): (phone: string)
    ensures AllDigits(phone)
    ensures whatsapp.None? ==> phone == []
    ensures whatsapp.Some? ==> IsSubsequence(phone, whatsapp.value)
    ensures whatsapp.Some? ==> forall c :: IsDigit(c) ==> multiset(phone)[c] == multiset(whatsapp.value)[c]
  {
    match whatsapp
    case None => []
    case Some(w) => DigitsOnly(w)
  }

  /** The greeting that opens the message to the buyer. */
  const Greeting: string := "Olá, vi seu lance no O Catireiro e aceitei sua oferta pelo "

  /** The message offered to the buyer, before it is URL-encoded: the greeting, the title, then "!". */
  function HandoffMessage(title: string): (r: string)
    ensures |r| == |Greeting| + |title| + 1
    ensures r[..|Greeting|] == Greeting
    ensures r[|Greeting|..|Greeting| + |title|] == title
    ensures r[|r| - 1] == '!'
  {
    var r := Greeting + title + "!";
    assert r[..|Greeting|] == Greeting;
    assert r[|Greeting|..|Greeting| + |title|] == title;
    r
  }

  /** `https://api.whatsapp.com/send?phone=55${phone}&text=${msg}` with `msg` already encoded. */
  function HandoffLink(phone: string, encodedText: string): (r: string)
    ensures |r| == |WhatsAppSend| + 2 + |phone| + 6 + |encodedText|
    ensures r[..|WhatsAppSend| + 2] == WhatsAppSend + "55"
    ensures r[|WhatsAppSend| + 2..|WhatsAppSend| + 2 + |phone|] == phone
    ensures r[|r| - |encodedText|..] == encodedText
  {
    var p := WhatsAppSend + "55";
    var r := p + phone + "&text=" + encodedText;
    assert r == p + (phone + ("&text=" + encodedText));
    assert r[..|p|] == p;
    assert r[|p|..|p| + |phone|] == phone;
    r
  }

  /** Reads the phone number back out of a chat link: the digits after the country code 55. */
  function LinkPhone(link: string): (r: Option<string>)
    ensures r.Some? ==> AllDigits(r.value)
  {
    var p := WhatsAppSend + "55";
    if |link| >= |p| && link[..|p|] == p then Some(LeadingDigits(link[|p|..])) else None
  }

  /** The number in the link is exactly the digits-only phone it was built from. */
  lemma LinkPhoneRoundTrip(phone: string, encodedText: string)
    requires AllDigits(phone)
    ensures LinkPhone(HandoffLink(phone, encodedText)) == Some(phone)
  {
    var p := WhatsAppSend + "55";
    var link := HandoffLink(phone, encodedText);
    assert link == p + (phone + ['&'] + ("text=" + encodedText));
    assert link[|p|..] == phone + ['&'] + ("text=" + encodedText);
    LeadingDigitsOfDigits(phone, '&', "text=" + encodedText);
  }
}
