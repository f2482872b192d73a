/**
 * The card that presents one listing in the catalogue: the category icon,
 * the price line (largest offer, or the minimum price when there is none)
 * and the offer count.
 */
module ListingCard {
  import opened Wrappers
  import opened Domain
  import opened Text

  /**
   * The card's properties. `category` is free text here; `highestBid` is
   * absent for a listing nobody has bid on.
   */
  datatype CardListing = CardListing(
    id: string,
    title: string,
    category: string,
    minPrice: Cents,
    highestBid: Option<Cents>,
    totalBids: nat,
    location: string,
    deadline: int,
    urgency: Option<string>)

  /** The icon of each category. */
  function Icon(c: Category): string {
    match c
    case Celulares => "\U{1F4F1}"
    case Carros => "\U{1F697}"
    case Caminhoes => "\U{1F69B}"
    case Motos => "\U{1F3CD}\U{FE0F}"
    case Outros => "\U{1F4E6}"
  }

  /** `categoryIcons[categoria] || "📦"`: an unknown category gets the parcel of "Outros". */
  function CategoryIcon(raw: string): (icon: string)
    ensures forall c :: CategoryName(c) == raw ==> icon == Icon(c)
    ensures ParseCategory(raw).None? ==> icon == Icon(Outros)
  {
    match ParseCategory(raw)
    case None => Icon(Outros)
    case Some(c) => Icon(c)
  }

  /** The five icons are different from each other. */
  lemma IconsDistinct(c: Category, d: Category)
    ensures Icon(c) == Icon(d) ==> c == d
  {
    if Icon(c) == Icon(d) {
      assert Icon(c)[0] == Icon(d)[0];
    }
  }

  /** The caption and amount of the price line. */
  datatype PriceLine = PriceLine(caption: string, amount: Cents)

  /**
   * `maior_lance ? "Maior Proposta" : "Preço Mínimo"` over
   * `maior_lance || preco_minimo`: a missing or zero offer shows the
   * minimum price, any other offer shows itself; caption and amount always
   * agree.
   */
  function Price(highestBid: Option<Cents>, minPrice: Cents): (r: PriceLine)
    ensures r.caption == "Maior Proposta" <==> highestBid.Some? && highestBid.value != 0
    ensures r.caption == "Maior Proposta" ==> r.amount == highestBid.value
    ensures r.caption != "Maior Proposta" ==> r.caption == "Preço Mínimo" && r.amount == minPrice
    ensures (highestBid.Some? ==> highestBid.value >= minPrice) ==> r.amount >= minPrice
  {
    assert "Maior Proposta"[0] != "Preço Mínimo"[0];
    if highestBid.Some? && highestBid.value != 0 then PriceLine("Maior Proposta", highestBid.value)
    else PriceLine("Preço Mínimo", minPrice)
  }

  /** `{total_lances > 0 && ...}`: the offer count, hidden when nobody has bid. */
  function OfferCount(n: nat): (r: Option<string>)
    ensures r.None? <==> n == 0
    ensures r.Some? ==> r.value == CountPhrase(n, "proposta")
  {
    if n > 0 then Some(CountPhrase(n, "proposta")) else None
  }
}
