/** The donation form (src/pages/CreateListing.tsx): its field state, the change
    handler and the submit guard that builds the draft for `addListing`. */
module CreateListingPage {
  import opened Common
  import opened Auth
  import opened FoodData

  /** What `parseFloat` yields: a number or `NaN`. */
  datatype Quantity = Number(value: real) | NaN

  /** `formData` */
  datatype FormData = FormData(
    title: string, description: string, quantity: Quantity, unit: string,
    category: string, expiryDate: string, location: string)

  /** The form as first rendered. */
  const InitialForm := FormData("", "", Number(0.0), "kg", "Vegetables", "", "")

  /** The `name` attribute of the field that changed. */
  datatype Field = Title | Description | QuantityField | Unit | Category | ExpiryDate | Location

  /** The text fields of a form, quantity aside. */
  function TextOf(f: FormData, g: Field): string {
    match g
    case Title => f.title
    case Description => f.description
    case QuantityField => ""
    case Unit => f.unit
    case Category => f.category
    case ExpiryDate => f.expiryDate
    case Location => f.location
  }

  /** `handleChange`: the named field takes the new value, parsed with `parse`
      (the browser's `parseFloat`) for the quantity; nothing else changes. */
  function HandleChange(f: FormData, field: Field, value: string, parse: string -> Quantity): (r: FormData)
    ensures field == QuantityField ==> r == f.(quantity := parse(value))
    ensures field != QuantityField ==> r.quantity == f.quantity && TextOf(r, field) == value
    ensures forall g :: g != field && g != QuantityField ==> TextOf(r, g) == TextOf(f, g)
  {
    match field
    case Title => f.(title := value)
    case Description => f.(description := value)
    case QuantityField => f.(quantity := parse(value))
    case Unit => f.(unit := value)
    case Category => f.(category := value)
    case ExpiryDate => f.(expiryDate := value)
    case Location => f.(location := value)
  }

  /** `!!formData.quantity`: zero and `NaN` are falsy. */
  predicate Truthy(q: Quantity) {
    q.Number? && q.value != 0.0
  }

  /** `handleSubmit`: all of title, a non-zero number as quantity, expiry date and
      location are required; the draft is the form plus the user's id and
      display name, offered as available, without coordinates, image or claims. */
  function HandleSubmit(f: FormData, user: Option<User>): (r: Option<ListingDraft>)
    ensures r.None? <==> f.title == "" || !Truthy(f.quantity) || f.expiryDate == "" || f.location == ""
    ensures r.Some? ==>
              var d := r.value;
              d.title == f.title && d.description == f.description && d.quantity == f.quantity.value &&
              d.unit == f.unit && d.category == f.category && d.expiryDate == f.expiryDate &&
              d.location == f.location && d.donorId == IdOrEmpty(user) && d.donorName == DisplayName(user) &&
              d.status == Available && d.latitude.None? && d.longitude.None? && d.image.None? && d.claims.None?
  {
    if f.title == "" || !Truthy(f.quantity) || f.expiryDate == "" || f.location == "" then None
    else Some(ListingDraft(f.title, f.description, f.quantity.value, f.unit, f.category, f.expiryDate,
                           f.location, None, None, IdOrEmpty(user), DisplayName(user), Available, None, None))
  }

  /** The untouched form cannot be submitted. */
  lemma InitialFormRejected(user: Option<User>)
    ensures HandleSubmit(InitialForm, user).None?
  {
  }

  /** Typing a title, a quantity, a date and a place makes the form submittable,
      and the listing `addListing` then stores is on offer with no claims yet. */
  lemma FilledFormIsListed(s: Store, title: string, q: real, date: string, place: string,
                           user: Option<User>, parse: string -> Quantity, qText: string, id: string, today: string)
    requires title != "" && date != "" && place != "" && q != 0.0 && parse(qText) == Number(q)
    ensures var f := HandleChange(HandleChange(HandleChange(HandleChange(InitialForm, Title, title, parse),
                                                            QuantityField, qText, parse),
                                               ExpiryDate, date, parse),
                                  Location, place, parse);
            var d := HandleSubmit(f, user);
            d.Some? && d.value.quantity == q &&
            var r := AddListingStep(s, d.value, id, today);
            var l := r.listings[|s.listings|];
            l.title == title && l.quantity == q && l.status == Available && ClaimsOf(l) == [] &&
            l.unit == "kg" && l.category == "Vegetables" && l.id == id
  {
    var f := HandleChange(HandleChange(HandleChange(HandleChange(InitialForm, Title, title, parse),
                                                    QuantityField, qText, parse),
                                       ExpiryDate, date, parse),
                          Location, place, parse);
    assert f == FormData(title, "", Number(q), "kg", "Vegetables", date, place);
  }

  /** The guard accepts a negative quantity: only the input's `min="0"` keeps it out. */
  lemma NegativeQuantityPassesGuard(user: Option<User>)
    ensures HandleSubmit(FormData("Rice", "", Number(-5.0), "kg", "Grains", "2026-02-01", "Pune"), user).Some?
  {
  }
}
