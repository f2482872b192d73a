/**
 * The "new listing" form: the checks a draft must pass, in the order the
 * form applies them, and the row it inserts into `anuncios`.
 */
module NewListing {
  import opened Wrappers
  import opened Domain
  import opened Text

  /** The reasons a draft is refused, one per toast of the form. */
  datatype FormError = MissingTitle | InvalidPrice | InvalidDuration

  /** One day in milliseconds. */
  const DayMs: int := 86400000

  /** The choices of the duration select, in days. */
  const DurationOptions: seq<int> := [1, 3, 5, 7, 14, 21, 30]

  /** The price field after `parseFloat`, in cents: None stands for NaN. */
  predicate ValidPrice(price: Option<Cents>) {
    price.Some? && price.value > 0
  }

  /** The duration after `parseInt`: None stands for NaN. */
  predicate ValidDuration(days: Option<int>) {
    days.Some? && 1 <= days.value <= 30
  }

  /** The fields of the form, with the numeric ones already parsed. */
  datatype Draft = Draft(
    title: string,
    description: string,
    category: Category,
    price: Option<Cents>,
    days: Option<int>,
    urgency: string)

  /** A blank form: category "Outros", seven days, every text empty. */
  const EmptyDraft: Draft := Draft("", "", Outros, None, Some(7), "")

  /** The row inserted into `anuncios`; `deadline` is the creation instant plus the duration. */
  datatype ListingInsert = ListingInsert(
    sellerId: UserId,
    title: string,
    description: Option<string>,
    category: Category,
    minPrice: Cents,
    durationDays: int,
    deadline: int,
    urgency: Option<string>)

  /**
   * The first failing check of the draft, title before price before
   * duration, or the row to insert for seller `userId` at instant `now`.
   */
  function NewListingRow(userId: UserId, d: Draft, now: int): (r: Result<ListingInsert, FormError>)
    ensures r == Failure(MissingTitle) <==> IsBlank(d.title)
    ensures r == Failure(InvalidPrice) <==> !IsBlank(d.title) && !ValidPrice(d.price)
    ensures r == Failure(InvalidDuration) <==> !IsBlank(d.title) && ValidPrice(d.price) && !ValidDuration(d.days)
    ensures r.Success? ==>
      && r.value.sellerId == userId
      && r.value.title != [] && IsTrimmed(r.value.title) && r.value.title == Trim(d.title)
      && r.value.description == NullIfBlank(d.description)
      && r.value.urgency == NullIfBlank(d.urgency)
      && r.value.category == d.category
      && Some(r.value.minPrice) == d.price && r.value.minPrice > 0
      && Some(r.value.durationDays) == d.days && 1 <= r.value.durationDays <= 30
      && r.value.deadline == now + r.value.durationDays * DayMs
  {
    if IsBlank(d.title) then Failure(MissingTitle)
    else if !ValidPrice(d.price) then Failure(InvalidPrice)
    else if !ValidDuration(d.days) then Failure(InvalidDuration)
    else
      var days := d.days.value;
      Success(ListingInsert(userId, Trim(d.title), NullIfBlank(d.description), d.category,
                            d.price.value, days, now + days * DayMs, NullIfBlank(d.urgency)))
  }

  /** Every choice of the duration select passes the duration check. */
  lemma DurationOptionsValid()
    ensures forall k :: 0 <= k < |DurationOptions| ==> ValidDuration(Some(DurationOptions[k]))
    ensures ValidDuration(EmptyDraft.days)
  {
  }

  /** The form's default category is one of the schema's category constants. */
  lemma DefaultCategoryIsConstant()
    ensures EmptyDraft.category in AllCategories && CategoryName(EmptyDraft.category) == "Outros"
  {
  }

  /** A blank form is refused for its title first. */
  lemma EmptyDraftRefused(userId: UserId, now: int)
    ensures NewListingRow(userId, EmptyDraft, now) == Failure(MissingTitle)
  {
  }

  /**
   * The shape every stored listing has when the forms wrote it: a trimmed,
   * non-empty title, normalised optional texts, a positive minimum price,
   * a duration of 1 to 30 days.
   */
  predicate WellFormed(l: Listing) {
    && l.title != [] && IsTrimmed(l.title)
    && IsNormalizedText(l.description) && IsNormalizedText(l.urgency)
    && l.minPrice > 0
    && 1 <= l.durationDays <= 30
  }

  /** The row as stored under `id`: active, with the given columns. */
  function Stored(id: string, row: ListingInsert): Listing {
    Listing(id, row.sellerId, row.title, row.description, row.category, row.minPrice,
            row.durationDays, row.deadline, Ativo, row.urgency)
  }

  /** A listing created through the form is well formed, active, and ends `durationDays` after its creation. */
  lemma CreatedListingWellFormed(id: string, userId: UserId, d: Draft, now: int)
    requires NewListingRow(userId, d, now).Success?
    ensures var l := Stored(id, NewListingRow(userId, d, now).value);
      WellFormed(l) && l.status == Ativo && l.sellerId == userId && l.deadline > now
  {
  }

  /** What pressing "Criar Anúncio" does. */
  datatype SubmitOutcome =
    | Ignored                   // nobody is logged in
    | Refused(error: FormError) // a check failed; nothing is sent
    | Inserting(row: ListingInsert)

  class Form {
    var draft: Draft
    var submitting: bool

    constructor ()
      ensures draft == EmptyDraft && !submitting
    {
      draft := EmptyDraft;
      submitting := false;
    }

    /** Editing any field of the form. */
    method Edit(d: Draft)
      modifies this`draft
      ensures draft == d
    {
      draft := d;
    }

    /**
     * `handleSubmit` up to the insert; the button is disabled while a
     * submission is in flight. `user` is the logged-in user, if any, and
     * `now` the instant of the submission.
     */
    method Submit(user: Option<UserId>, now: int) returns (r: SubmitOutcome)
      requires !submitting
      modifies this`submitting
      ensures user.None? ==> r == Ignored && !submitting
      ensures user.Some? ==>
        match NewListingRow(user.value, draft, now)
        case Failure(e) => r == Refused(e) && !submitting
        case Success(row) => r == Inserting(row) && submitting
    {
      if user.None? {
        return Ignored;
      }
      match NewListingRow(user.value, draft, now)
      case Failure(e) =>
        r := Refused(e);
      case Success(row) =>
        submitting := true;
        r := Inserting(row);
    }

    /**
     * The insert has answered (or thrown): `submitting` drops in every case;
     * the result says whether the page moves on to the dashboard.
     */
    method FinishSubmit(error: bool) returns (toDashboard: bool)
      requires submitting
      modifies this`submitting
      ensures !submitting && toDashboard == !error
    {
      submitting := false;
      toDashboard := !error;
    }
  }
}
