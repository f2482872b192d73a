# O Catireiro: the listing and bid workflow in Dafny

O Catireiro is a marketplace for urgent sales. A seller publishes a listing
("anúncio") with a minimum price and a duration of 1 to 30 days. Buyers place
bids ("lances"), each one higher than the last. The seller accepts one bid,
and is then sent to a chat link with the buyer. This project models the rules
of that workflow as the web front end implements them, and proves what the
front end promises about them.

Money is held in integer cents, so "one cent more" is `+ 1`. Instants are
integer milliseconds.

The modules follow the program's files:

- `Domain` (`domain.dfy`): the rows and enumerations of the schema. It has
  parsers that read each enumeration back from its database spelling, and the
  status labels shared by the pages.
- `Text` (`text.dfy`): the string operations the pages use:
  - `trim()` over the ECMAScript white-space set;
  - "trimmed or null";
  - removing every non-digit;
  - decimal printing, `padStart(2, "0")` and pluralised counts.
- `Bidding` (`bidding.dfy`): who may bid and who may accept. It also holds the
  bid floor, the bid check, the effect of an acceptance on the bids, and the
  chat link.
- `DetailPage` (`detail_page.dfy`): the listing page as a class. Its state is
  the listing, the bids (largest first), the viewer and two dialogs. Its
  methods are choosing a bid, confirming the acceptance, and "Dar Lance".
- `BidDialog` (`bid_dialog.dfy`): the bid dialog as a class. It moves from the
  risk warning to amount entry, checks the amount against the floor, and
  raises `submitting` while the insert is in flight.
- `Countdown` (`countdown.dfy`): the per-second split of the time left into
  days, hours, minutes and seconds. It computes the urgent and expired flags,
  and the padded display of the units. The component state is a class.
- `NewListing` and `EditListing` (`new_listing.dfy`, `edit_listing.dfy`): the
  listing forms.
  - The new-listing form checks title, then price, then duration.
  - It builds the inserted row.
  - The edit form loads a listing only for its seller.
  - It writes back only five columns.
- `Dashboard` (`dashboard.dfy`): per-listing maximum and accepted bid, the
  status badges with their fallbacks, and the in-place sort of the bids. It
  also has the three-bid quick list and the "+N mais" line.
- `Catalog` and `ListingCard` (`catalog.dfy`, `listing_card.dfy`): the
  category filter of the catalogue page and the query parameter behind it,
  and the price line, offer count and category icon of a card.

The UI handlers that change state are class methods with `modifies` clauses:
the listing page, the bid dialog, the countdown, the two forms and the
catalogue's query. The bids are sorted in place on an `array`. Expressions
are functions. The rules have lemmas relating them to a partner definition:
an inverse, a reference definition or an invariant. The display helpers
(badges, price line, counts, the "mais" line, the chat message) are pinned
by contracts on the text they produce.

A button that the page renders only under a condition is modelled with that
condition as the method's precondition. Examples are "Aceitar" only where
`CanAccept` holds, and the checkbox only on the warning screen. A button that
is rendered but disabled is modelled in one of two ways:

- The forms' submit buttons are disabled while `submitting`, so their
  `Submit` methods require `!submitting`.
- In the bid dialog, "Continuar" without the tick and "Confirmar Lance" while
  submitting are calls that change nothing.

Two rules of the code deserve a note:

- The bid floor. A non-zero leading bid sets the floor on its own: one cent
  above it. `preco_minimo` counts only when there is no bid, or the leading
  bid is zero (`Bidding.MinValue`).
  - While every bid went through the dialog under the current minimum, each
    accepted bid exceeds all earlier ones and a first bid reaches the minimum
    (`Bidding.AcceptedBidLeads`).
  - The edit form lets the seller raise the minimum above the leading bid.
    After that, bids below the new minimum pass. With a non-zero leading bid,
    an amount passes exactly when it is at least one cent above that bid,
    whatever the minimum price (`Bidding.FloorIgnoresMinimumPrice`).
- The unused status. `aguardando_escolha` is declared but never set by the front end.
  Nothing in the model moves a listing into it. Neither the page's expiry
  test nor the countdown's expiry guards any action.

## Model

| member | source | states |
|---|---|---|
| Domain.ParseListingStatus | src/integrations/supabase/types.ts:159 | a raw status parses exactly when it is the spelling of one of the three statuses, and then to that status |
| Domain.ParseBidStatus | src/integrations/supabase/types.ts:161 | a raw bid status parses exactly when it is "pendente" or "aceito", to that status |
| Domain.ParseCategory | src/integrations/supabase/types.ts:290 | a raw category parses exactly when it is one of the five constant names, to that category |
| Domain.ListingStatusLabel | src/pages/Dashboard.tsx:99-103 | the badge text of each listing status: "Ativo", "Escolha Obrigatória", "Finalizado" (different for different statuses, by `Dashboard.BadgesTellStatus`) |
| Text.Trim | src/pages/NovoAnuncio.tsx:46 | the result is a contiguous part of the input with only white space cut from both ends, starts and ends with non-space, and is empty exactly when the input is blank |
| Text.TrimOfTrimmed | src/pages/EditarAnuncio.tsx:94 | trimming an already trimmed text changes nothing |
| Text.TrimIdempotent | src/pages/NovoAnuncio.tsx:68 | trimming twice is trimming once |
| Text.NullIfBlank | src/pages/NovoAnuncio.tsx:69 | `s.trim() \|\| null`: null exactly for blank text, otherwise non-empty trimmed text |
| Text.NullIfBlankRoundTrip | src/pages/EditarAnuncio.tsx:65 | loading an optional column with `?? ""` and saving it with trim-or-null gives the column back |
| Text.DigitsOnly | src/pages/AnuncioDetalhe.tsx:140 | the result is all digits, a subsequence of the input, and keeps every digit of the input |
| Text.NatToString | src/components/CountdownTimer.tsx:52 | decimal printing: digits only, no leading zero, reads back as the number, one digit below 10 |
| Text.PadStart2 | src/components/CountdownTimer.tsx:70 | `padStart(2, "0")`: at least two characters, the input at the end, zeros before it |
| Text.Pad2 | src/components/CountdownTimer.tsx:70 | a padded unit is at least two digits, reads back as the number, and is exactly two digits below 100 |
| Text.CountPhrase | src/pages/Dashboard.tsx:197 | the count reads back from the front of the phrase; the word follows and takes "s" exactly when the count is not 1 |
| Bidding.IsSeller | src/pages/AnuncioDetalhe.tsx:106 | only a logged-in viewer whose id is the listing's seller id is the seller |
| Bidding.IsExpired | src/pages/AnuncioDetalhe.tsx:107 | `data_fim <= now`: the listing is expired once its deadline is reached (the same test as the countdown, by `DetailPage.ExpiredAgreesWithCountdown`) |
| Bidding.ExpiryIsPermanent | src/pages/AnuncioDetalhe.tsx:107 | a listing expired at one instant is expired at every later one |
| Bidding.MaxLance | src/pages/AnuncioDetalhe.tsx:108 | null exactly when there are no bids; on bids in amount order no bid exceeds it |
| Bidding.FindAccepted | src/pages/AnuncioDetalhe.tsx:109 | none exactly when no bid is accepted; otherwise the first accepted bid (same rule on the dashboard) |
| Bidding.CountAcceptedZero | src/pages/AnuncioDetalhe.tsx:109 | no accepted bid by count exactly when `find` finds none |
| Bidding.CanAccept | src/pages/AnuncioDetalhe.tsx:313 | "Aceitar" appears exactly for the seller, on a listing not finalised, on a pending bid |
| Bidding.CanBid | src/pages/AnuncioDetalhe.tsx:361 | "Dar Lance" appears exactly for a viewer who is not the seller, on a listing not finalised, when every bid is pending |
| Bidding.ShowsMaiorBadge | src/pages/AnuncioDetalhe.tsx:306 | the "Maior" badge is on a row exactly when it is the first row and that bid is pending |
| Bidding.MaiorBadgeMarksLargest | src/pages/AnuncioDetalhe.tsx:306 | the "Maior" badge sits on row 0 only, only when that bid is pending, and on bids in amount order it marks a largest bid |
| Bidding.MinValue | src/components/BidModal.tsx:36 | a non-zero leading bid gives a floor of exactly one cent above it; none or zero gives the minimum price |
| Bidding.CheckBid | src/components/BidModal.tsx:51-66 | an amount is accepted exactly when it parsed and reaches the floor; the row then carries listing id, buyer id and amount; a refusal carries the floor |
| Bidding.AcceptedBidLeads | src/components/BidModal.tsx:36-52 | with a positive minimum price and the floor taken from the bids in amount order, an accepted amount exceeds every existing bid, and a first bid reaches the minimum price |
| Bidding.FloorIgnoresMinimumPrice | src/components/BidModal.tsx:36 | with a non-zero leading bid, any amount passes exactly when it is at least one cent above that bid, and the outcome is the same for every minimum price |
| Bidding.MarkAccepted | src/pages/AnuncioDetalhe.tsx:129-132 | the bid with the chosen id becomes accepted, every other bid is unchanged |
| Bidding.AcceptOneCount | src/pages/AnuncioDetalhe.tsx:129-132 | with unique ids and no accepted bid, one acceptance leaves exactly one accepted bid |
| Bidding.NoMatchUnchanged | src/pages/AnuncioDetalhe.tsx:132 | marking an id no bid carries changes nothing |
| Bidding.AcceptanceIsFinal | src/pages/AnuncioDetalhe.tsx:129-137 | after an acceptance exactly one bid is accepted, the chosen one, the others are unchanged, and no viewer can accept any bid or bid again |
| Bidding.HandoffPhone | src/pages/AnuncioDetalhe.tsx:140 | the phone is digits only, empty without a profile, a subsequence of the buyer's number, and keeps every digit of it |
| Bidding.HandoffMessage | src/pages/AnuncioDetalhe.tsx:141-143 | the message is the greeting, then the listing's title, then "!" |
| Bidding.HandoffLink | src/pages/AnuncioDetalhe.tsx:144 | the link is the chat address with country code 55, then the phone, and ends with the encoded text |
| Bidding.LinkPhone | src/pages/AnuncioDetalhe.tsx:144 | a phone read from a chat link is digits only |
| Bidding.LinkPhoneRoundTrip | src/pages/AnuncioDetalhe.tsx:144 | the number read back from the built link is exactly the digits-only phone it was built from |
| DetailPage.ExpiredAgreesWithCountdown | src/pages/AnuncioDetalhe.tsx:107 | the page's `data_fim <= now` and the countdown's expiry agree at every instant |
| DetailPage.ListingPage.constructor | src/pages/AnuncioDetalhe.tsx:36-43 | the page starts with no bid chosen and both dialogs closed, bids in amount order |
| DetailPage.ListingPage.Refresh | src/pages/AnuncioDetalhe.tsx:75-81 | a fetch replaces the bids, keeping them ordered by amount and unique |
| DetailPage.ListingPage.RequestAccept | src/pages/AnuncioDetalhe.tsx:121-124 | "Aceitar" (offered only to the seller, on a non-final listing, on a pending bid, with no deadline check) chooses that bid and opens the confirmation |
| DetailPage.ListingPage.CancelAccept | src/pages/AnuncioDetalhe.tsx:404 | cancelling closes the confirmation and keeps the choice |
| DetailPage.ListingPage.AcceptConfirm | src/pages/AnuncioDetalhe.tsx:126-155 | only from the open confirmation: the chosen bid is accepted exactly when its update took effect, the listing is finalised exactly when its update took effect, nothing else changes, the dialog closes, and the link is built from the buyer's digits and the title in every case |
| DetailPage.HalfAcceptanceReopens | src/pages/AnuncioDetalhe.tsx:129-137 | when only the bid update takes effect, an accepted bid sits on an open listing: "Dar Lance" is gone but the seller is still offered "Aceitar" on every other pending bid |
| DetailPage.ListingPage.BidButton | src/pages/AnuncioDetalhe.tsx:361-371 | "Dar Lance" (offered to non-sellers of a non-final listing without an accepted bid) sends a visitor without a user id to login, otherwise opens the bid dialog |
| DetailPage.ConfirmedAcceptanceCloses | src/pages/AnuncioDetalhe.tsx:361 | after an acceptance `find` returns the chosen bid, and neither "Aceitar" nor "Dar Lance" is offered to anyone |
| DetailPage.FindAcceptedUnique | src/pages/AnuncioDetalhe.tsx:109 | with exactly one accepted bid, `find` returns it |
| BidDialog.ReplaceFirstComma | src/components/BidModal.tsx:51 | only the first comma becomes a point; every other character is kept |
| BidDialog.Dialog.constructor | src/components/BidModal.tsx:30-33 | the dialog starts closed on the warning screen, unticked, empty, not submitting |
| BidDialog.Dialog.HandleClose | src/components/BidModal.tsx:41-48 | closing resets screen, checkbox and typed amount; opening changes none of them |
| BidDialog.Dialog.SetOpenFromPage | src/pages/AnuncioDetalhe.tsx:112 | the page opening or closing the dialog directly resets nothing |
| BidDialog.Dialog.SetAccepted | src/components/BidModal.tsx:121 | the checkbox sets `accepted` |
| BidDialog.Dialog.Continue | src/components/BidModal.tsx:132 | the amount screen is reached only with the box ticked (kept as an invariant) |
| BidDialog.Dialog.TypeAmount | src/components/BidModal.tsx:169 | typing sets the amount text |
| BidDialog.Dialog.Submit | src/components/BidModal.tsx:50-66 | a refused amount issues no insert and leaves `submitting` down; an accepted one raises it and issues the insert CheckBid builds; disabled while submitting |
| BidDialog.Dialog.FinishInsert | src/components/BidModal.tsx:68-78 | `submitting` drops on both paths; only a successful insert runs onSuccess, which closes the dialog without a reset |
| Countdown.Split | src/components/CountdownTimer.tsx:26-29 | hours < 24, minutes < 60, seconds < 60, and the split's milliseconds S satisfy S <= diff < S + 1000 |
| Countdown.SplitIsUnique | src/components/CountdownTimer.tsx:26-29 | any split within those bounds and that window is the computed one |
| Countdown.UrgentIffUnderSixHours | src/components/CountdownTimer.tsx:32 | `days == 0 && hours < 6` exactly when less than six hours remain |
| Countdown.Tick | src/components/CountdownTimer.tsx:18-32 | expired exactly when nothing is left; otherwise the split brackets what is left and urgent means under six hours |
| Countdown.Timer.constructor | src/components/CountdownTimer.tsx:10-12 | before the first tick all units are 0, neither urgent nor expired |
| Countdown.Timer.OnInterval | src/components/CountdownTimer.tsx:15-32 | past the deadline: expired, interval cleared, units untouched; before it: the new split and urgent flag |
| Countdown.Timer.Caption | src/components/CountdownTimer.tsx:38-42 | a caption appears exactly when expired; as written it is one character longer than, and different from, the label the other pages give a listing awaiting a choice |
| Countdown.ClockLayout | src/components/CountdownTimer.tsx:52 | three two-character fields joined by colons sit at places 0, 3 and 6 |
| Countdown.ClockText | src/components/CountdownTimer.tsx:52 | eight characters, colons at 2 and 5, each two-digit field reads back as its unit |
| Countdown.CompactText | src/components/CountdownTimer.tsx:52 | the unpadded day count, then "d " and the eight-character `HH:MM:SS` clock |
| Countdown.UnitTexts | src/components/CountdownTimer.tsx:62-70 | four displayed units, in order days, hours, minutes, seconds, each padded digits reading back as its value (two digits below 100) |
| Countdown.ExpiredCaptionMisspelt | src/components/CountdownTimer.tsx:42 | the caption as written differs from the status label it stands for |
| Countdown.ExpiredCaptionMatchesStatus | src/components/CountdownTimer.tsx:42 | the corrected caption equals that label |
| NewListing.NewListingRow | src/pages/NovoAnuncio.tsx:46-75 | blank title, then bad price, then bad duration, each refused exactly in that order; the row has the seller, trimmed title, trim-or-null texts, positive price, 1-30 days and the deadline |
| NewListing.DurationOptionsValid | src/pages/NovoAnuncio.tsx:191 | every duration choice, and the default 7, passes the duration check |
| NewListing.DefaultCategoryIsConstant | src/pages/NovoAnuncio.tsx:30 | the default category is one of the schema's constants |
| NewListing.EmptyDraftRefused | src/pages/NovoAnuncio.tsx:46-49 | a blank form is refused for its title |
| NewListing.CreatedListingWellFormed | src/pages/NovoAnuncio.tsx:66-75 | a created listing is well formed, active, owned by the user and ends after now |
| NewListing.Form.constructor | src/pages/NovoAnuncio.tsx:28-34 | the form starts blank, category "Outros", seven days, not submitting |
| NewListing.Form.Edit | src/pages/NovoAnuncio.tsx:28-33 | editing sets the fields |
| NewListing.Form.Submit | src/pages/NovoAnuncio.tsx:42-75 | no user does nothing; a failed check is reported and inserts nothing; otherwise `submitting` rises and the row is inserted |
| NewListing.Form.FinishSubmit | src/pages/NovoAnuncio.tsx:77-89 | `submitting` drops on every path; only success moves on |
| EditListing.EditPatch | src/pages/EditarAnuncio.tsx:79-99 | blank title, then bad price, refused in that order, never for duration; the patch has trimmed title, trim-or-null texts, category, positive price |
| EditListing.ApplyPatch | src/pages/EditarAnuncio.tsx:91-100 | the five columns take the patch; id, seller, status, duration and deadline are untouched |
| EditListing.DraftOf | src/pages/EditarAnuncio.tsx:64-68 | the loaded form holds the title, category and price, with absent texts as "" |
| EditListing.CreationStricterThanEdit | src/pages/EditarAnuncio.tsx:79-87 | whatever creation accepts, editing accepts with the same five values |
| EditListing.EditKeepsWellFormed | src/pages/EditarAnuncio.tsx:93-99 | a saved change keeps a well-formed listing well formed |
| EditListing.LoadSaveRoundTrip | src/pages/EditarAnuncio.tsx:64-99 | loading a well-formed listing and saving it untouched writes back the same row |
| EditListing.Form.constructor | src/pages/EditarAnuncio.tsx:29-35 | the form starts blank and loading |
| EditListing.Form.Load | src/pages/EditarAnuncio.tsx:43-69 | a missing row is not found and a foreign row forbidden, both loading nothing; the seller's row fills the form and ends loading |
| EditListing.Form.Edit | src/pages/EditarAnuncio.tsx:29-33 | editing sets the fields |
| EditListing.Form.Submit | src/pages/EditarAnuncio.tsx:75-100 | no user or no id does nothing; a failed check updates nothing; otherwise `submitting` rises and the patch is sent for that id |
| EditListing.Form.FinishSubmit | src/pages/EditarAnuncio.tsx:102-108 | `submitting` drops; only success moves to the listing |
| Dashboard.ListingBadge | src/pages/Dashboard.tsx:172 | a known status shows its label; an unknown one falls back to "Ativo" |
| Dashboard.BidStatusLabel | src/pages/Dashboard.tsx:105-108 | the badge text of each bid status: "Pendente", "Aceito!" (different for different statuses, by `Dashboard.BadgesTellStatus`) |
| Dashboard.BidBadge | src/pages/Dashboard.tsx:266 | a known bid status shows its label; an unknown one falls back to "Pendente" |
| Dashboard.BadgesTellStatus | src/pages/Dashboard.tsx:99-108 | different statuses get different badges |
| Dashboard.MaxAmount | src/pages/Dashboard.tsx:168-170 | null exactly without bids; otherwise the amount of some bid and no smaller than any |
| Dashboard.MaxLine | src/pages/Dashboard.tsx:191-195 | no line without bids; a bare "0" when the largest bid is zero; otherwise the "Maior" line with a bid amount no smaller than any |
| Dashboard.MaxLanceIsMaxAmount | src/pages/Dashboard.tsx:168-170 | on bids in amount order the page's first bid and the dashboard's maximum agree |
| Dashboard.SortByAmountDesc | src/pages/Dashboard.tsx:217-218 | the array is reordered in place into non-increasing amount and holds the same bids |
| Dashboard.InsertDown | src/pages/Dashboard.tsx:218 | one step of the sort: the amount-ordered prefix grows by one and the array holds the same bids |
| Dashboard.SwapDown | src/pages/Dashboard.tsx:218 | two neighbouring bids change places; every other slot and the bag of bids are kept |
| Dashboard.TopThree | src/pages/Dashboard.tsx:219 | the first three, or all when fewer |
| Dashboard.TopThreeAreLargest | src/pages/Dashboard.tsx:217-219 | after the sort no bid outside the quick list exceeds one inside it |
| Dashboard.MoreText | src/pages/Dashboard.tsx:237-239 | "+N mais..." shown exactly for more than three bids, N = count - 3 |
| Dashboard.QuickListCoversAll | src/pages/Dashboard.tsx:217-239 | the quick list followed by the bids left out is the whole sorted list, and the "mais" line appears exactly when bids are left out, with their number |
| Dashboard.QuickRowBadge | src/pages/Dashboard.tsx:226-234 | "Aceito" exactly for an accepted bid, "Pendente" exactly for a pending one |
| Catalog.OfCategory | src/pages/Anuncios.tsx:30 | only listings of the category, all of them, in their order: a subsequence with the matching multiset, no longer than the input |
| Catalog.Filter | src/pages/Anuncios.tsx:29-31 | no or empty parameter returns the list unchanged; otherwise exactly that category's listings |
| Catalog.Page.constructor | src/pages/Anuncios.tsx:26-27 | the page reads the address's parameters |
| Catalog.Page.ClickAll | src/pages/Anuncios.tsx:46 | "Todos" clears the query; everything shows and only "Todos" is highlighted |
| Catalog.Page.ClickCategory | src/pages/Anuncios.tsx:55 | a badge sets exactly that category; only its listings show and only its badge is highlighted |
| ListingCard.CategoryIcon | src/components/ListingCard.tsx:18-46 | each known category gets its icon, any other the parcel |
| ListingCard.IconsDistinct | src/components/ListingCard.tsx:18-24 | the five icons are pairwise different |
| ListingCard.Price | src/components/ListingCard.tsx:75-78 | the offer and "Maior Proposta" exactly when it is present and non-zero, otherwise the minimum price and "Preço Mínimo"; never below the minimum when the offer is not |
| ListingCard.OfferCount | src/components/ListingCard.tsx:81-84 | hidden exactly for zero offers; otherwise the pluralised count |

## Left out

- Remote calls (select, insert, update, authentication) are not modelled as
  calls. Their effects are state transitions, and their answers are method
  parameters (`fetched`, `error`, and `bidStored`/`listingStored` for the two
  unchecked updates of an acceptance). The realtime re-fetch of the bids is
  `DetailPage.ListingPage.Refresh` with the fetched list as input.
- Bidding.MinValue: the floor is the exact next cent. The program computes
  `currentMax + 0.01` in floating point and compares the parsed amount with
  it, so at some leading bids it refuses a bid of exactly the next cent. For
  example, a leading bid of 0.20 gives a floor of 0.21000000000000002, and
  0.21 is refused. Floating-point rounding is not modelled.
- DetailPage.ListingPage.AcceptConfirm: each handler is one atomic step. In
  the program the confirm button stays enabled while `handleAcceptConfirm`
  awaits its two updates, so a second click runs both updates again and
  opens a second chat window. The precondition that the confirmation is
  open rules that interleaving out.
- Concurrency between buyers, and the database's own ordering of rows, are
  not modelled. The model assumes the fetched bids arrive in amount order
  with unique ids.
- `parseFloat` and `parseInt` are not modelled.
  - The bid dialog receives the parser as a function parameter.
  - The forms hold the parsed value, with None for NaN.
  - Sub-cent amounts cannot be expressed, since amounts are integer cents.
- EditListing.Form.Load: stores the price as a number rather than as
  `String(preco_minimo)`, so the number-to-text-to-number round trip is
  taken as exact.
- EditListing.Form.Load: the early return when the address has no id is not
  modelled. The form just stays loading.
- The deadline of a new listing is `now + days * 86400000`. `Date.setDate`
  calendar and time-zone rules (daylight saving) are not modelled.
- `encodeURIComponent` is a function parameter of `AcceptConfirm`. Opening
  the link (`window.open`), toasts, navigation other than the outcomes named
  in the model, and `Intl` currency formatting are left out.
- The `setInterval`/`clearInterval` scheduling is reduced to a `running`
  flag. Only one callback run is modelled.
- Dashboard.SortByAmountDesc: does not state that equal amounts keep their
  order, as the stable JavaScript sort guarantees. It proves only order and
  permutation.
- Record lookups (`statusConfig[...]`, `categoryIcons[...]`) are modelled on
  the declared keys. Inherited object keys such as "constructor" are not.
- Profile names, cities and reputation on the pages are plain display and
  are not modelled.
- The catalogue page's fixed sample listings are not modelled. The filter
  is proved for every list of listings.
- The confirmation dialog's text (AcceptBidModal) is not modelled.

## Findings

| source | as written | input that shows it | evidently intended | confidence | as-written member | corrected member |
|---|---|---|---|---|---|---|
| src/components/CountdownTimer.tsx:42 | the expired caption reads "Escolha Obrigat√≥ria": the UTF-8 bytes of "ó" decoded as two characters | any countdown past its deadline | "Escolha Obrigatória", the label the dashboard and the listing page give the same state | high (not executed) | Countdown.ExpiredCaptionMisspelt | Countdown.ExpiredCaptionMatchesStatus |
