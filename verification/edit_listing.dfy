/**
 * The "edit listing" form: loading a listing into the form (only for its
 * seller), the checks a change must pass, and the five columns it updates.
 */
module EditListing {
  import opened Wrappers
  import opened Domain
  import opened Text
  import opened NewListing

  /** How loading the listing into the form ended. */
  datatype LoadOutcome = NotFound | Forbidden | Loaded

  /** The five columns the form updates. */
  datatype ListingPatch = ListingPatch(
    title: string,
    description: Option<string>,
    category: Category,
    minPrice: Cents,
    urgency: Option<string>)

  /**
   * The first failing check, title before price, or the patch to apply.
   * The duration is not part of this form.
   */
  function EditPatch(d: Draft): (r: Result<ListingPatch, FormError>)
    ensures r == Failure(MissingTitle) <==> IsBlank(d.title)
    ensures r == Failure(InvalidPrice) <==> !IsBlank(d.title) && !ValidPrice(d.price)
    ensures r.Failure? ==> r.error != InvalidDuration
    ensures r.Success? ==>
      && r.value.title != [] && IsTrimmed(r.value.title) && r.value.title == Trim(d.title)
      && r.value.description == NullIfBlank(d.description)
      && r.value.urgency == NullIfBlank(d.urgency)
      && r.value.category == d.category
      && Some(r.value.minPrice) == d.price && r.value.minPrice > 0
  {
    if IsBlank(d.title) then Failure(MissingTitle)
    else if !ValidPrice(d.price) then Failure(InvalidPrice)
    else Success(ListingPatch(Trim(d.title), NullIfBlank(d.description), d.category, d.price.value, NullIfBlank(d.urgency)))
  }

  /**
   * `update({...}).eq("id", id)` on the stored row: the five columns take
   * the patch's values; id, seller, duration, deadline and status stay.
   */
  function ApplyPatch(l: Listing, p: ListingPatch): (r: Listing)
    ensures r.id == l.id && r.sellerId == l.sellerId && r.status == l.status
    ensures r.durationDays == l.durationDays && r.deadline == l.deadline
    ensures r.title == p.title && r.description == p.description && r.category == p.category
    ensures r.minPrice == p.minPrice && r.urgency == p.urgency
  {
    l.(title := p.title, description := p.description, category := p.category,
       minPrice := p.minPrice, urgency := p.urgency)
  }

  /**
   * The form filled from a stored row: absent texts become empty, the
   * price field holds the stored price, the duration is not shown.
   */
  function DraftOf(l: Listing): (d: Draft)
    ensures d.title == l.title && d.category == l.category && d.price == Some(l.minPrice)
    ensures d.description == l.description.GetOr("") && d.urgency == l.urgency.GetOr("")
  {
    Draft(l.title, l.description.GetOr(""), l.category, Some(l.minPrice), None, l.urgency.GetOr(""))
  }

  /** Every draft the creation form accepts, the edit form accepts too. */
  lemma CreationStricterThanEdit(userId: UserId, d: Draft, now: int)
    requires NewListingRow(userId, d, now).Success?
    ensures EditPatch(d).Success?
    ensures var row := NewListingRow(userId, d, now).value; var p := EditPatch(d).value;
      p == ListingPatch(row.title, row.description, row.category, row.minPrice, row.urgency)
  {
  }

  /** Saving a change keeps a well-formed listing well formed. */
  lemma EditKeepsWellFormed(l: Listing, d: Draft)
    requires WellFormed(l) && EditPatch(d).Success?
    ensures WellFormed(ApplyPatch(l, EditPatch(d).value))
  {
  }

  /** Loading a well-formed listing and saving it untouched writes back the very same row. */
  lemma LoadSaveRoundTrip(l: Listing)
    requires WellFormed(l)
    ensures EditPatch(DraftOf(l)).Success?
    ensures ApplyPatch(l, EditPatch(DraftOf(l)).value) == l
  {
    TrimOfTrimmed(l.title);
    NullIfBlankRoundTrip(l.description);
    NullIfBlankRoundTrip(l.urgency);
  }

  /** What pressing "Salvar Alterações" does. */
  datatype SaveOutcome =
    | Skipped                 // no user, or no id in the address
    | Rejected(error: FormError)
    | Updating(id: string, patch: ListingPatch)

  class Form {
    var draft: Draft
    var loading: bool
    var submitting: bool

    constructor ()
      ensures draft == EmptyDraft && loading && !submitting
    {
      draft := EmptyDraft;
      loading := true;
      submitting := false;
    }

    /**
     * `fetchAnuncio`: a missing row (or a fetch error) and a row of another
     * seller leave the form loading and send the user away; the seller's own
     * row fills the form.
     */
    method Load(userId: UserId, fetched: Option<Listing>) returns (r: LoadOutcome)
      modifies this`draft, this`loading
      ensures fetched.None? ==> r == NotFound && draft == old(draft) && loading == old(loading)
      ensures fetched.Some? && fetched.value.sellerId != userId ==>
        r == Forbidden && draft == old(draft) && loading == old(loading)
      ensures fetched.Some? && fetched.value.sellerId == userId ==>
        r == Loaded && !loading && draft == DraftOf(fetched.value).(days := old(draft).days)
    {
      if fetched.None? {
        return NotFound;
      }
      var row := fetched.value;
      if row.sellerId != userId {
        return Forbidden;
      }
      draft := draft.(title := row.title, description := row.description.GetOr(""),
                      category := row.category, price := Some(row.minPrice),
                      urgency := row.urgency.GetOr(""));
      loading := false;
      r := Loaded;
    }

    /** Editing any field of the form. */
    method Edit(d: Draft)
      modifies this`draft
      ensures draft == d
    {
      draft := d;
    }

    /**
     * `handleSubmit` up to the update; the button is disabled while a save
     * is in flight. A missing user or an empty id does nothing.
     */
    method Submit(user: Option<UserId>, id: string) returns (r: SaveOutcome)
      requires !loading && !submitting
      modifies this`submitting
      ensures user.None? || id == "" ==> r == Skipped && !submitting
      ensures user.Some? && id != "" ==>
        match EditPatch(draft)
        case Failure(e) => r == Rejected(e) && !submitting
        case Success(p) => r == Updating(id, p) && submitting
    {
      if user.None? || id == "" {
        return Skipped;
      }
      match EditPatch(draft)
      case Failure(e) =>
        r := Rejected(e);
      case Success(p) =>
        submitting := true;
        r := Updating(id, p);
    }

    /** The update has answered: `submitting` drops; without an error the page moves to the listing. */
    method FinishSubmit(error: bool) returns (toListing: bool)
      requires submitting
      modifies this`submitting
      ensures !submitting && toListing == !error
    {
      submitting := false;
      toListing := !error;
    }
  }
}
