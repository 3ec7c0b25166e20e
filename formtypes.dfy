/** The shapes of client/src/types/ServiceFormData.ts as the form hook uses them. */
module FormTypes {

  /** A browser `File` as far as the form looks at it. */
  datatype File = File(name: string, size: nat)

  /** The text fields of the form, in the key order of the initial state object
      (which is the order `Object.keys` reports, since every update spreads the
      previous object and so keeps its keys in place). */
  datatype TextField =
    | CenterName | Phone | Email | City | State | ZipCode | Country | Latitude | Longitude

  const TextFieldOrder: seq<TextField> :=
    [CenterName, Phone, Email, City, State, ZipCode, Country, Latitude, Longitude]

  /** The property name of a text field. */
  function Key(f: TextField): string {
    match f
    case CenterName => "centerName"
    case Phone => "phone"
    case Email => "email"
    case City => "city"
    case State => "state"
    case ZipCode => "zipCode"
    case Country => "country"
    case Latitude => "latitude"
    case Longitude => "longitude"
  }

  /** The form's values. Coordinates are kept as the strings the form holds. */
  datatype ServiceFormData = ServiceFormData(
    centerName: string, phone: string, email: string,
    city: string, state: string, zipCode: string, country: string,
    latitude: string, longitude: string,
    categories: seq<string>, imagePaths: seq<File>)
  {
    /** `formData[key]` for a text field. */
    function Get(f: TextField): string {
      match f
      case CenterName => centerName
      case Phone => phone
      case Email => email
      case City => city
      case State => state
      case ZipCode => zipCode
      case Country => country
      case Latitude => latitude
      case Longitude => longitude
    }

    /** `{ ...this, [key]: v }` for a text field. */
    function With(f: TextField, v: string): (r: ServiceFormData)
      ensures r.Get(f) == v
      ensures forall g :: g != f ==> r.Get(g) == Get(g)
      ensures r.categories == categories && r.imagePaths == imagePaths
    {
      match f
      case CenterName => this.(centerName := v)
      case Phone => this.(phone := v)
      case Email => this.(email := v)
      case City => this.(city := v)
      case State => this.(state := v)
      case ZipCode => this.(zipCode := v)
      case Country => this.(country := v)
      case Latitude => this.(latitude := v)
      case Longitude => this.(longitude := v)
    }
  }

  /** The names `updateField` is called with: every text field (from the inputs)
      and `categories` (from the category toggle). */
  datatype FieldName = TextName(field: TextField) | CategoriesName

  /** The value written together with a field name. */
  datatype FieldValue = TextValue(text: string) | CategoriesValue(cats: seq<string>)

  predicate Fits(name: FieldName, value: FieldValue) {
    (name.TextName? && value.TextValue?) || (name.CategoriesName? && value.CategoriesValue?)
  }

  /** The keys of the errors object: a field's own name, `location` (set when
      the latitude is missing) and `imagePaths` (the key the hook reads and
      writes for the image section). */
  datatype ErrorKey = FieldError(name: FieldName) | LocationError | ImagePathsError

  const CATEGORY_OPTIONS: seq<string> := ["Mechanic", "AC", "Electrician"]

  const INITIAL_STATE: ServiceFormData :=
    ServiceFormData("", "", "", "", "", "", "India", "", "", [], [])
}
