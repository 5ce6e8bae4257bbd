/** The form schemas (src/lib/validationSchemas.ts). Parsing a form yields the
    list of issues found, each with its field path and message; an empty list
    is success. Every field is a string (or an optional number) here, so no
    type issue arises and zod checks every field, in declaration order, then
    runs the object's refinement. Whether a string is an email (zod's
    `email()` pattern) is the parameter `isEmail`. */
module Validation {
  import opened Common

  /** The form fields an issue can be reported on. */
  datatype FieldPath =
    | Name | Email | Password | ConfirmPassword | Phone | Address
    | FoodType | Quantity | Description | Location | ExpiresAt
    | RequiredQuantity | PickupLocation | ListingId | Reason

  /** The message of an issue; `Text` gives the wording the form shows. */
  datatype Message =
    | NameTooShort | InvalidEmail | PasswordTooShort | PasswordsDiffer | PhoneTooShort
    | AddressTooShort | FoodTypeRequired | QuantityRequired | DescriptionTooShort
    | LocationRequired | ExpiryDateRequired | PickupLocationRequired | ListingRequired
    | InvalidReason

  function Text(m: Message): string {
    match m
    case NameTooShort => "Name must be at least 2 characters"
    case InvalidEmail => "Invalid email address"
    case PasswordTooShort => "Password must be at least 6 characters"
    case PasswordsDiffer => "Passwords do not match"
    case PhoneTooShort => "Phone must be at least 10 characters"
    case AddressTooShort => "Address must be at least 5 characters"
    case FoodTypeRequired => "Food type is required"
    case QuantityRequired => "Quantity is required"
    case DescriptionTooShort => "Description must be at least 10 characters"
    case LocationRequired => "Location is required"
    case ExpiryDateRequired => "Expiry date is required"
    case PickupLocationRequired => "Pickup location is required"
    case ListingRequired => "Listing is required"
    case InvalidReason => "Invalid enum value"
  }

  datatype Issue = Issue(path: FieldPath, message: Message)

  /** `z.string().min(n, message)` on one field: string length counted in characters. */
  function MinLength(path: FieldPath, value: string, n: nat, message: Message): (r: seq<Issue>)
    ensures r == [] <==> |value| >= n
    ensures r != [] ==> r == [Issue(path, message)]
    ensures Paths(r) == if |value| >= n then {} else {path}
  {
    if |value| < n then [Issue(path, message)] else []
  }

  /** `z.string().email(message)` */
  function EmailCheck(path: FieldPath, value: string, isEmail: string -> bool, message: Message): (r: seq<Issue>)
    ensures r == [] <==> isEmail(value)
    ensures r != [] ==> r == [Issue(path, message)]
    ensures Paths(r) == if isEmail(value) then {} else {path}
  {
    if isEmail(value) then [] else [Issue(path, message)]
  }

  /** The paths of a list of issues. */
  function Paths(issues: seq<Issue>): set<FieldPath> {
    if issues == [] then {} else {issues[0].path} + Paths(issues[1..])
  }

  lemma {:induction false} PathsConcat(a: seq<Issue>, b: seq<Issue>)
    ensures Paths(a + b) == Paths(a) + Paths(b)
  {
    if a != [] {
      assert (a + b)[1..] == a[1..] + b;
      PathsConcat(a[1..], b);
    } else {
      assert a + b == b;
    }
  }

  // ------------------------------------------------------------------ login

  datatype LoginInput = LoginInput(email: string, password: string)

  /** `loginSchema` */
  function LoginSchema(x: LoginInput, isEmail: string -> bool): (r: seq<Issue>)
    ensures r == [] <==> isEmail(x.email) && |x.password| >= 6
    ensures Paths(r) <= {Email, Password}
    ensures Email in Paths(r) <==> !isEmail(x.email)
    ensures Password in Paths(r) <==> |x.password| < 6
  {
    var a := EmailCheck(Email, x.email, isEmail, InvalidEmail);
    var b := MinLength(Password, x.password, 6, PasswordTooShort);
    PathsConcat(a, b);
    a + b
  }

  // --------------------------------------------------------------- register

  datatype RegisterInput = RegisterInput(
    name: string, email: string, password: string, confirmPassword: string,
    phone: string, address: string)

  /** The field checks of `registerSchema`, before its refinement. */
  function RegisterFields(x: RegisterInput, isEmail: string -> bool): (r: seq<Issue>)
    ensures r == [] <==> |x.name| >= 2 && isEmail(x.email) && |x.password| >= 6 &&
                         |x.phone| >= 10 && |x.address| >= 5
    ensures Paths(r) <= {Name, Email, Password, Phone, Address}
  {
    var a := MinLength(Name, x.name, 2, NameTooShort);
    var b := EmailCheck(Email, x.email, isEmail, InvalidEmail);
    var c := MinLength(Password, x.password, 6, PasswordTooShort);
    var d := MinLength(Phone, x.phone, 10, PhoneTooShort);
    var e := MinLength(Address, x.address, 5, AddressTooShort);
    PathsConcat(a, b);
    PathsConcat(a + b, c);
    PathsConcat(a + b + c, d);
    PathsConcat(a + b + c + d, e);
    a + b + c + d + e
  }

  /** The refinement: the confirmation must repeat the password. */
  function PasswordsMatch(x: RegisterInput): (r: seq<Issue>)
    ensures r == [] <==> x.password == x.confirmPassword
    ensures r != [] ==> r == [Issue(ConfirmPassword, PasswordsDiffer)]
  {
    if x.password == x.confirmPassword then [] else [Issue(ConfirmPassword, PasswordsDiffer)]
  }

  /** `registerSchema`: the field issues, then the mismatch issue on
      `confirmPassword`, which is the only issue ever reported there. */
  function RegisterSchema(x: RegisterInput, isEmail: string -> bool): (r: seq<Issue>)
    ensures r == [] <==> |x.name| >= 2 && isEmail(x.email) && |x.password| >= 6 &&
                         |x.phone| >= 10 && |x.address| >= 5 && x.password == x.confirmPassword
    ensures ConfirmPassword in Paths(r) <==> x.password != x.confirmPassword
    ensures Paths(r) <= {Name, Email, Password, ConfirmPassword, Phone, Address}
    ensures x.password != x.confirmPassword ==> r[|r| - 1] == Issue(ConfirmPassword, PasswordsDiffer)
  {
    var f := RegisterFields(x, isEmail);
    var m := PasswordsMatch(x);
    PathsConcat(f, m);
    f + m
  }

  /** Whoever can register can sign in with the same email and password. */
  lemma RegisteredCanLogIn(x: RegisterInput, isEmail: string -> bool)
    requires RegisterSchema(x, isEmail) == []
    ensures LoginSchema(LoginInput(x.email, x.password), isEmail) == []
  {
  }

  // ---------------------------------------------------------- food listing

  datatype CreateFoodListingInput = CreateFoodListingInput(
    foodType: string, quantity: string, description: string, location: string,
    latitude: Option<real>, longitude: Option<real>, expiresAt: string, image: Option<string>)

  /** `createFoodListingSchema`: the coordinates and the image never cause an issue. */
  function CreateFoodListingSchema(x: CreateFoodListingInput): (r: seq<Issue>)
    ensures r == [] <==> x.foodType != "" && x.quantity != "" && |x.description| >= 10 &&
                         x.location != "" && x.expiresAt != ""
    ensures Paths(r) <= {FoodType, Quantity, Description, Location, ExpiresAt}
  {
    var a := MinLength(FoodType, x.foodType, 1, FoodTypeRequired);
    var b := MinLength(Quantity, x.quantity, 1, QuantityRequired);
    var c := MinLength(Description, x.description, 10, DescriptionTooShort);
    var d := MinLength(Location, x.location, 1, LocationRequired);
    var e := MinLength(ExpiresAt, x.expiresAt, 1, ExpiryDateRequired);
    PathsConcat(a, b);
    PathsConcat(a + b, c);
    PathsConcat(a + b + c, d);
    PathsConcat(a + b + c + d, e);
    a + b + c + d + e
  }

  /** The coordinates and the image may be anything, or left out. */
  lemma OptionalListingFieldsIgnored(x: CreateFoodListingInput, lat: Option<real>, lon: Option<real>, img: Option<string>)
    ensures CreateFoodListingSchema(x.(latitude := lat, longitude := lon, image := img)) == CreateFoodListingSchema(x)
  {
  }

  // ----------------------------------------------------------------- claim

  datatype ClaimFoodInput = ClaimFoodInput(requiredQuantity: string, notes: Option<string>, pickupLocation: string)

  /** `claimFoodSchema`: the notes may be left out. */
  function ClaimFoodSchema(x: ClaimFoodInput): (r: seq<Issue>)
    ensures r == [] <==> x.requiredQuantity != "" && x.pickupLocation != ""
    ensures Paths(r) <= {RequiredQuantity, PickupLocation}
  {
    var a := MinLength(RequiredQuantity, x.requiredQuantity, 1, QuantityRequired);
    var b := MinLength(PickupLocation, x.pickupLocation, 1, PickupLocationRequired);
    PathsConcat(a, b);
    a + b
  }

  /** The notes may be anything, or left out. */
  lemma NotesIgnored(x: ClaimFoodInput, n: Option<string>)
    ensures ClaimFoodSchema(x.(notes := n)) == ClaimFoodSchema(x)
  {
  }

  // ---------------------------------------------------------------- report

  const ReportReasons: set<string> := {"fraud", "expired", "quality", "other"}

  datatype ReportInput = ReportInput(listingId: string, reason: string, description: string)

  /** `z.enum([...])` on the reason; zod's own message text is not modelled. */
  function ReasonCheck(reason: string): (r: seq<Issue>)
    ensures r == [] <==> reason in ReportReasons
    ensures r != [] ==> r == [Issue(Reason, InvalidReason)]
  {
    if reason in ReportReasons then [] else [Issue(Reason, InvalidReason)]
  }

  /** `reportSchema` */
  function ReportSchema(x: ReportInput): (r: seq<Issue>)
    ensures r == [] <==> x.listingId != "" && x.reason in ReportReasons && |x.description| >= 10
    ensures Paths(r) <= {ListingId, Reason, Description}
    ensures Reason in Paths(r) <==> x.reason !in ReportReasons
  {
    var a := MinLength(ListingId, x.listingId, 1, ListingRequired);
    var b := ReasonCheck(x.reason);
    var c := MinLength(Description, x.description, 10, DescriptionTooShort);
    PathsConcat(a, b);
    PathsConcat(a + b, c);
    a + b + c
  }
}
