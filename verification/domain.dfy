/**
 * The rows and enumerations of the marketplace's data store: listings
 * ("anúncios"), bids ("lances") and the three enumerations the schema declares.
 * Money is held in integer cents, instants in integer milliseconds.
 */
module Domain {
  import opened Wrappers

  type UserId = string
  /** An amount of money in cents (R$ 1,00 == 100). */
  type Cents = int

  datatype ListingStatus = Ativo | AguardandoEscolha | Finalizado
  datatype BidStatus = Pendente | Aceito
  datatype Category = Celulares | Carros | Caminhoes | Motos | Outros

  /** The database spelling of each listing status. */
  function ListingStatusName(s: ListingStatus): string {
    match s
    case Ativo => "ativo"
    case AguardandoEscolha => "aguardando_escolha"
    case Finalizado => "finalizado"
  }

  function BidStatusName(s: BidStatus): string {
    match s
    case Pendente => "pendente"
    case Aceito => "aceito"
  }

  function CategoryName(c: Category): string {
    match c
    case Celulares => "Celulares"
    case Carros => "Carros"
    case Caminhoes => "Caminhões"
    case Motos => "Motos"
    case Outros => "Outros"
  }

  /** The badge text of each listing status, as the dashboard and the detail page show it. */
  function ListingStatusLabel(s: ListingStatus): string {
    match s
    case Ativo => "Ativo"
    case AguardandoEscolha => "Escolha Obrigatória"
    case Finalizado => "Finalizado"
  }

  /** The categories in the order the schema's constants list them. */
  const AllCategories: seq<Category> := [Celulares, Carros, Caminhoes, Motos, Outros]

  /** Reads a raw status string; anything that is not one of the three names is unknown. */
  function ParseListingStatus(raw: string): (r: Option<ListingStatus>)
    ensures r.Some? ==> ListingStatusName(r.value) == raw
    ensures forall s: ListingStatus :: ListingStatusName(s) == raw ==> r == Some(s)
  {
    if raw == "ativo" then Some(Ativo)
    else if raw == "aguardando_escolha" then Some(AguardandoEscolha)
    else if raw == "finalizado" then Some(Finalizado)
    else None
  }

  function ParseBidStatus(raw: string): (r: Option<BidStatus>)
    ensures r.Some? ==> BidStatusName(r.value) == raw
    ensures forall s: BidStatus :: BidStatusName(s) == raw ==> r == Some(s)
  {
    if raw == "pendente" then Some(Pendente)
    else if raw == "aceito" then Some(Aceito)
    else None
  }

  function ParseCategory(raw: string): (r: Option<Category>)
    ensures r.Some? ==> CategoryName(r.value) == raw
    ensures forall c: Category :: CategoryName(c) == raw ==> r == Some(c)
  {
    if raw == "Celulares" then Some(Celulares)
    else if raw == "Carros" then Some(Carros)
    else if raw == "Caminhões" then Some(Caminhoes)
    else if raw == "Motos" then Some(Motos)
    else if raw == "Outros" then Some(Outros)
    else None
  }

  /** A row of the `anuncios` table (timestamps of bookkeeping left out). */
  datatype Listing = Listing(
    id: string,
    sellerId: UserId,
    title: string,
    description: Option<string>,
    category: Category,
    minPrice: Cents,
    durationDays: int,
    deadline: int,
    status: ListingStatus,
    urgency: Option<string>)

  /**
   * A row of the `lances` table, joined with the buyer's profile as the detail
   * page fetches it: `buyerWhatsapp` is None when the profile is missing.
   */
  datatype Bid = Bid(
    id: string,
    listingId: string,
    buyerId: UserId,
    amount: Cents,
    status: BidStatus,
    buyerWhatsapp: Option<string>)

  /** Bids ordered by amount, largest first (the order the detail page fetches them in). */
  ghost predicate SortedByAmountDesc(bids: seq<Bid>) {
    forall i, j :: 0 <= i < j < |bids| ==> bids[i].amount >= bids[j].amount
  }

  /** Row ids are primary keys. */
  ghost predicate UniqueIds(bids: seq<Bid>) {
    forall i, j :: 0 <= i < j < |bids| ==> bids[i].id != bids[j].id
  }
}
