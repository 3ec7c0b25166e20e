/** client/src/hooks/useServiceForm.ts: the form's state and the handlers that
    change it. React's state cells become the fields of one object; browser
    effects become data: `alert` is a returned message, an object URL is a
    `PreviewUrl` numbered by a counter, and `revokeObjectURL` adds it to the
    set of revoked URLs. */
module ServiceForm {
  import opened Wrappers
  import opened JsText
  import opened FormTypes
  import opened SubmitApi
  import Location

  const MAX_FILE_SIZE: nat := 5 * 1024 * 1024
  const MAX_TOTAL_IMAGES: nat := 5

  const TooLargeAlert: string := "Some images are too large. Maximum size per image is 5MB."
  const TooManyAlert: string := "You can only upload a maximum of 5 images."
  const FixErrorsAlert: string := "Please fix all errors before submitting."
  const SubmittedAlert: string := "Form submitted successfully!"
  const BusyAlert: string :=
    "The server is temporarily busy or your images were too large to process. Please try smaller files."
  const UnknownErrorAlert: string := "An unknown error occurred."
  const FetchCoordinatesAlert: string := "Fetch coordinates first"
  const AddressFailedAlert: string := "Could not fetch address details"
  const LocationFailedError: string := "Unable to retrieve location"

  // ---- category toggle ----

  /** `cats.filter(c => c !== category)`. */
  function Without(cats: seq<string>, category: string): (r: seq<string>)
    ensures forall x :: x in r <==> x in cats && x != category
    ensures |r| <= |cats|
    ensures category !in cats ==> r == cats
  {
    if cats == [] then []
    else (if cats[0] != category then [cats[0]] else []) + Without(cats[1..], category)
  }

  predicate Distinct(s: seq<string>) {
    forall i, j :: 0 <= i < j < |s| ==> s[i] != s[j]
  }

  /** The new category list of `handleCategoryChange`. */
  function Toggle(cats: seq<string>, category: string): (r: seq<string>)
    ensures forall x :: x in r <==> (if x == category then category !in cats else x in cats)
    ensures category !in cats ==> r == cats + [category]
  {
    if category in cats then Without(cats, category) else cats + [category]
  }

  lemma {:induction false} WithoutAppend(a: seq<string>, b: seq<string>, category: string)
    ensures Without(a + b, category) == Without(a, category) + Without(b, category)
  {
    if a == [] {
      assert a + b == b;
    } else {
      var ab := a + b;
      assert ab[0] == a[0] && ab[1..] == a[1..] + b;
      WithoutAppend(a[1..], b, category);
      var first := if a[0] != category then [a[0]] else [];
      assert Without(ab, category) == first + Without(a[1..] + b, category);
      assert Without(a, category) == first + Without(a[1..], category);
    }
  }

  /** Removing a category that occurs once, at index `i`, keeps every other
      category in its order. */
  lemma {:induction false} WithoutAt(cats: seq<string>, i: nat)
    requires i < |cats| && Distinct(cats)
    ensures Without(cats, cats[i]) == cats[..i] + cats[i + 1..]
  {
    OnlyAt(cats, i);
    assert cats == cats[..i] + [cats[i]] + cats[i + 1..];
    WithoutSplice(cats[..i], cats[i], cats[i + 1..]);
  }

  /** In a list without repeats, the element at `i` occurs nowhere else. */
  lemma OnlyAt(cats: seq<string>, i: nat)
    requires i < |cats| && Distinct(cats)
    ensures cats[i] !in cats[..i] && cats[i] !in cats[i + 1..]
  {
    var c, head, tail := cats[i], cats[..i], cats[i + 1..];
    forall m | 0 <= m < |head| ensures head[m] != c {
      assert head[m] == cats[m];
    }
    forall m | 0 <= m < |tail| ensures tail[m] != c {
      assert tail[m] == cats[i + 1 + m];
    }
  }

  /** Filtering out a category that occurs exactly once removes just that occurrence. */
  lemma WithoutSplice(head: seq<string>, c: string, tail: seq<string>)
    requires c !in head && c !in tail
    ensures Without(head + [c] + tail, c) == head + tail
  {
    var hc := head + [c];
    WithoutAppend(hc, tail, c);
    WithoutAppend(head, [c], c);
    assert Without([c], c) == [] by { assert [c][1..] == []; }
    assert Without(hc, c) == head + [];
    assert head + [] == head;
  }

  /** Toggling a category that is not selected twice gives back the same list. */
  lemma ToggleTwiceRestores(cats: seq<string>, category: string)
    requires category !in cats
    ensures Toggle(Toggle(cats, category), category) == cats
  {
    WithoutAppend(cats, [category], category);
    assert Without([category], category) == [] by { assert [category][1..] == []; }
  }

  /** Toggling a selected category twice gives back the same selection, with
      that category moved to the end. */
  lemma ToggleTwiceMovesLast(cats: seq<string>, i: nat)
    requires i < |cats| && Distinct(cats)
    ensures Toggle(Toggle(cats, cats[i]), cats[i]) == cats[..i] + cats[i + 1..] + [cats[i]]
  {
    WithoutAt(cats, i);
  }

  /** A list without repeats stays without repeats under toggling. */
  lemma {:induction false} ToggleKeepsDistinct(cats: seq<string>, category: string)
    requires Distinct(cats)
    ensures Distinct(Toggle(cats, category))
  {
    if category in cats {
      var i :| 0 <= i < |cats| && cats[i] == category;
      WithoutAt(cats, i);
      var r := cats[..i] + cats[i + 1..];
      forall a, b | 0 <= a < b < |r| ensures r[a] != r[b] {
        var a' := if a < i then a else a + 1;
        var b' := if b < i then b else b + 1;
        assert r[a] == cats[a'] && r[b] == cats[b'];
      }
    }
  }

  // ---- images ----

  /** `files.filter(f => f.size > MAX_FILE_SIZE)`. */
  function Oversized(files: seq<File>): (r: seq<File>)
    ensures forall f :: f in r <==> f in files && f.size > MAX_FILE_SIZE
  {
    if files == [] then []
    else (if files[0].size > MAX_FILE_SIZE then [files[0]] else []) + Oversized(files[1..])
  }

  /** `s.filter((_, i) => i !== index)`. */
  function RemoveAt<T>(s: seq<T>, index: int): (r: seq<T>)
    ensures 0 <= index < |s| ==> |r| == |s| - 1
    ensures 0 <= index < |s| ==> forall k :: 0 <= k < |r| ==> r[k] == if k < index then s[k] else s[k + 1]
    ensures !(0 <= index < |s|) ==> r == s
  {
    if 0 <= index < |s| then s[..index] + s[index + 1..] else s
  }

  /** Removing the same index from the images and from their previews keeps
      them paired, keeps the preview ids apart, and keeps every remaining
      preview unreleased when the removed one is released. */
  lemma RemoveAtKeepsPairing(previews: seq<PreviewUrl>, images: seq<File>, index: int, n: nat, revoked: set<PreviewUrl>)
    requires |previews| == |images|
    requires forall k :: 0 <= k < |previews| ==> previews[k].file == images[k]
    requires forall k :: 0 <= k < |previews| ==> previews[k].id < n && previews[k] !in revoked
    requires forall j, k :: 0 <= j < k < |previews| ==> previews[j].id != previews[k].id
    ensures var p, m := RemoveAt(previews, index), RemoveAt(images, index);
            var r := if 0 <= index < |previews| then revoked + {previews[index]} else revoked;
            && |p| == |m|
            && (forall k :: 0 <= k < |p| ==> p[k].file == m[k] && p[k].id < n && p[k] !in r)
            && (forall j, k :: 0 <= j < k < |p| ==> p[j].id != p[k].id)
  {
    var p, m := RemoveAt(previews, index), RemoveAt(images, index);
    var r := if 0 <= index < |previews| then revoked + {previews[index]} else revoked;
    if 0 <= index < |previews| {
      forall k | 0 <= k < |p| ensures p[k].file == m[k] && p[k].id < n && p[k] !in r {
        var k' := if k < index then k else k + 1;
        assert p[k] == previews[k'] && m[k] == images[k'];
        assert previews[k'].id != previews[index].id;
      }
      forall j, k | 0 <= j < k < |p| ensures p[j].id != p[k].id {
        var j', k' := (if j < index then j else j + 1), (if k < index then k else k + 1);
        assert p[j] == previews[j'] && p[k] == previews[k'];
      }
    }
  }

  /** An object URL created for a selected file. */
  datatype PreviewUrl = PreviewUrl(id: nat, file: File)

  /** `files.map(f => URL.createObjectURL(f))`, numbering from `start`. */
  function FreshPreviews(files: seq<File>, start: nat): (r: seq<PreviewUrl>)
    ensures |r| == |files|
    ensures forall k :: 0 <= k < |r| ==> r[k] == PreviewUrl(start + k, files[k])
  {
    seq(|files|, k requires 0 <= k < |files| => PreviewUrl(start + k, files[k]))
  }

  // ---- validation ----

  /** `/^[6-9]\d{9}$/`. */
  predicate IsPhone(s: string) {
    |s| == 10 && '6' <= s[0] <= '9' && forall i :: 1 <= i < 10 ==> IsDigit(s[i])
  }

  /** `/^\d{6}$/`. */
  predicate IsZip(s: string) {
    |s| == 6 && forall i :: 0 <= i < 6 ==> IsDigit(s[i])
  }

  /** The strings `/^\S+@\S+\.\S+$/` accepts: no whitespace at all, an `@` with
      something before it, and after it, past at least one character, a `.` with
      at least one character after it. */
  ghost predicate EmailPattern(s: string) {
    NoSpace(s) && exists i, j :: 0 < i && i + 1 < j < |s| - 1 && s[i] == '@' && s[j] == '.'
  }

  /** The first index at or after `from` holding `c`, or `|s|`. */
  function IndexFrom(s: string, c: char, from: nat): (r: nat)
    requires from <= |s|
    ensures from <= r <= |s| && (r < |s| ==> s[r] == c)
    ensures forall k :: from <= k < r ==> s[k] != c
    decreases |s| - from
  {
    if from == |s| || s[from] == c then from else IndexFrom(s, c, from + 1)
  }

  /** The last index below `below` holding `c`, or -1. */
  function LastIndexBelow(s: string, c: char, below: nat): (r: int)
    requires below <= |s|
    ensures -1 <= r < below && (r >= 0 ==> s[r] == c)
    ensures forall k :: r < k < below ==> s[k] != c
  {
    if below == 0 then -1 else if s[below - 1] == c then below - 1 else LastIndexBelow(s, c, below - 1)
  }

  /** The email test: the first `@` after the first character must be followed,
      one character or more later, by a `.` that is not the last character. */
  predicate IsEmail(s: string) {
    NoSpace(s) && |s| >= 2 && IndexFrom(s, '@', 1) + 2 <= LastIndexBelow(s, '.', |s| - 1)
  }

  /** The email test accepts exactly the strings of the pattern. */
  lemma EmailTestMatchesPattern(s: string)
    ensures IsEmail(s) <==> EmailPattern(s)
  {
    if IsEmail(s) {
      var p, q := IndexFrom(s, '@', 1), LastIndexBelow(s, '.', |s| - 1);
      assert 0 < p && p + 1 < q < |s| - 1 && s[p] == '@' && s[q] == '.';
    }
    if EmailPattern(s) {
      var i, j :| 0 < i && i + 1 < j < |s| - 1 && s[i] == '@' && s[j] == '.';
      assert IndexFrom(s, '@', 1) <= i;
      assert LastIndexBelow(s, '.', |s| - 1) >= j;
    }
  }

  /** Sample values accepted and rejected by the phone, zip and email rules. */
  lemma FormatExamples()
    ensures IsPhone("9876543210") && !IsPhone("1234567890")
    ensures IsZip("400001") && !IsZip("4000")
    ensures IsEmail("a@b.com") && !IsEmail("not-an-email")
  {
    EmailTestMatchesPattern("not-an-email");
    assert '@' !in "not-an-email";
  }

  /** Whether the rule behind an error key fails for a form. */
  predicate Violates(form: ServiceFormData, key: ErrorKey) {
    match key
    case FieldError(name) =>
      (match name
       case CategoriesName => |form.categories| == 0
       case TextName(f) => TextViolates(form, f))
    case LocationError => !Truthy(form.latitude)
    case ImagePathsError => |form.imagePaths| == 0
  }

  predicate TextViolates(form: ServiceFormData, f: TextField) {
    match f
    case CenterName => !Truthy(Trim(form.centerName))
    case Phone => !IsPhone(form.phone)
    case Email => !IsEmail(form.email)
    case City => !Truthy(form.city)
    case State => !Truthy(form.state)
    case ZipCode => !IsZip(form.zipCode)
    case _ => false
  }

  /** The message `validate` stores under each key it sets. */
  function ErrorMessage(key: ErrorKey): string {
    match key
    case FieldError(CategoriesName) => "Select one"
    case FieldError(TextName(Phone)) => "Invalid Phone"
    case FieldError(TextName(Email)) => "Invalid Email"
    case FieldError(TextName(ZipCode)) => "Invalid Zip"
    case ImagePathsError => "Upload one"
    case _ => "Required"
  }

  /** Every rule of the form, stated field by field. */
  ghost predicate FormIsValid(form: ServiceFormData) {
    && (exists i :: 0 <= i < |form.centerName| && !IsSpace(form.centerName[i]))
    && IsPhone(form.phone)
    && EmailPattern(form.email)
    && form.city != "" && form.state != ""
    && IsZip(form.zipCode)
    && form.latitude != ""
    && |form.categories| > 0
    && |form.imagePaths| > 0
  }

  /** A form passes every rule exactly when no error key's rule fails. */
  lemma ValidIffNoViolation(form: ServiceFormData)
    ensures FormIsValid(form) <==> forall key :: !Violates(form, key)
  {
    TrimEmptyIffBlank(form.centerName);
    EmailTestMatchesPattern(form.email);
    if forall key :: !Violates(form, key) {
      assert !Violates(form, FieldError(TextName(CenterName)));
      assert !Violates(form, FieldError(TextName(Phone)));
      assert !Violates(form, FieldError(TextName(Email)));
      assert !Violates(form, FieldError(TextName(City)));
      assert !Violates(form, FieldError(TextName(State)));
      assert !Violates(form, FieldError(TextName(ZipCode)));
      assert !Violates(form, LocationError);
      assert !Violates(form, FieldError(CategoriesName));
      assert !Violates(form, ImagePathsError);
    }
  }

  // ---- the submit outcome as the user sees it ----

  /** The alert `handleSubmit` shows for the message of a failed submission. */
  function SubmitAlert(message: string): (alert: string)
    ensures (Includes(message, "Unexpected token") || Includes(message, "JSON")) ==> alert == BusyAlert
    ensures !(Includes(message, "Unexpected token") || Includes(message, "JSON")) ==>
              alert == (if message != "" then message else UnknownErrorAlert)
  {
    if Includes(message, "Unexpected token") || Includes(message, "JSON") then BusyAlert
    else if Truthy(message) then message
    else UnknownErrorAlert
  }

  lemma DigitsLackLetters(d: string)
    requires forall i :: 0 <= i < |d| ==> IsDigit(d[i])
    ensures 'J' !in d && 'U' !in d
  {
  }

  lemma TooLargeLacksLetters()
    ensures 'J' !in TooLargeMessage && 'U' !in TooLargeMessage
  {
    var a, b, c := "The images you uploaded ", "are too large for the ", "server to process.";
    assert 'J' !in a && 'U' !in a;
    assert 'J' !in b && 'U' !in b;
    assert 'J' !in c && 'U' !in c;
    assert TooLargeMessage == a + b + c;
  }

  lemma TimeoutLacksLetters()
    ensures 'J' !in TimeoutMessage && 'U' !in TimeoutMessage
  {
    var a, b, c := "The server took too long ", "to respond (Timeout). ", "Try uploading fewer images.";
    assert 'J' !in a && 'U' !in a;
    assert 'J' !in b && 'U' !in b;
    assert 'J' !in c && 'U' !in c;
    assert TimeoutMessage == a + b + c;
  }

  /** A non-JSON answer reaches the user as the message for its status: the
      too-large text for 413, the timeout text for 504, the critical-error text
      with the status otherwise; none of them is mistaken for a parse error. */
  lemma NonJsonAlert(r: HttpResponse)
    requires !IsJsonType(r.contentType)
    ensures SubmitAlert(ReadResponse(r).error) ==
              if r.status == 413 then TooLargeMessage
              else if r.status == 504 then TimeoutMessage
              else CriticalMessage(r.status)
  {
    var m := ReadResponse(r).error;
    if r.status == 413 {
      TooLargeLacksLetters();
    } else if r.status == 504 {
      TimeoutLacksLetters();
    } else {
      CriticalLacksLetters(r.status);
    }
    NotIncludesWithoutFirst(m, "JSON");
    NotIncludesWithoutFirst(m, "Unexpected token");
    assert m != "";
  }

  lemma CriticalLacksLetters(status: nat)
    ensures 'J' !in CriticalMessage(status) && 'U' !in CriticalMessage(status)
  {
    var d := NatToString(status);
    DigitsLackLetters(d);
    var prefix, suffix := "Critical Server Error (", "). Please try again later.";
    assert 'J' !in prefix && 'U' !in prefix && 'J' !in suffix && 'U' !in suffix;
    assert CriticalMessage(status) == prefix + d + suffix;
  }

  /** A JSON body that cannot be parsed shows the busy alert when the parser's
      message mentions JSON. */
  lemma UnparseableJsonAlert(r: HttpResponse)
    requires IsJsonType(r.contentType) && r.payload.Unparseable? && Includes(r.payload.syntaxError, "JSON")
    ensures SubmitAlert(ReadResponse(r).error) == BusyAlert
  {
  }

  /** The errors object `validate` builds when it checks the rules for
      `keys` in order: each failed rule adds its key with its message. */
  function CollectErrors(form: ServiceFormData, keys: seq<ErrorKey>): map<ErrorKey, string> {
    if keys == [] then map[]
    else
      var m := CollectErrors(form, keys[..|keys| - 1]);
      var key := keys[|keys| - 1];
      if Violates(form, key) then m[key := ErrorMessage(key)] else m
  }

  /** The keys in the order `validate` checks them. */
  const RuleOrder: seq<ErrorKey> := [
    FieldError(TextName(CenterName)), FieldError(TextName(Phone)), FieldError(TextName(Email)),
    FieldError(TextName(City)), FieldError(TextName(State)), FieldError(TextName(ZipCode)),
    LocationError, FieldError(CategoriesName), ImagePathsError ]

  /** Checking a list of rules records exactly the failed ones, each with its message. */
  lemma {:induction false} CollectErrorsExact(form: ServiceFormData, keys: seq<ErrorKey>)
    ensures forall k :: k in CollectErrors(form, keys) <==> k in keys && Violates(form, k)
    ensures forall k :: k in CollectErrors(form, keys) ==> CollectErrors(form, keys)[k] == ErrorMessage(k)
  {
    if keys != [] {
      var init := keys[..|keys| - 1];
      CollectErrorsExact(form, init);
      assert keys == init + [keys[|keys| - 1]];
    }
  }

  /** Only the nine checked keys can carry a failed rule. */
  lemma OnlyRulesFail(form: ServiceFormData, key: ErrorKey)
    requires Violates(form, key)
    ensures key in RuleOrder
  {
    match key
    case FieldError(TextName(f)) => assert f != Country && f != Latitude && f != Longitude;
    case _ =>
  }

  function ValidationErrors(form: ServiceFormData): map<ErrorKey, string> {
    CollectErrors(form, RuleOrder)
  }

  /** The errors object names exactly the violated rules, each with its
      message, and is empty exactly when the form is valid. */
  lemma ValidationErrorsExact(form: ServiceFormData)
    ensures forall k :: k in ValidationErrors(form) <==> Violates(form, k)
    ensures forall k :: k in ValidationErrors(form) ==> ValidationErrors(form)[k] == ErrorMessage(k)
    ensures ValidationErrors(form) == map[] <==> FormIsValid(form)
  {
    var m := ValidationErrors(form);
    CollectErrorsExact(form, RuleOrder);
    forall k | Violates(form, k) ensures k in RuleOrder {
      OnlyRulesFail(form, k);
    }
    ValidIffNoViolation(form);
    if m != map[] {
      var k :| k in m;
    }
  }

  /** The state of the status flags. */
  datatype Status = Status(locating: bool, fetchingAddress: bool, submitting: bool)

  /** How a call of `handleSubmit` ends before or at its `await`. */
  datatype SubmitStart = AlreadySubmitting | Invalid(alert: string) | Sent(request: seq<Entry>)

  /** How a call of `handleAutoFillAddress` ends before or at its `await`. */
  datatype AutoFillStart = NoCoordinates(alert: string) | LookupSent(latitude: string, longitude: string)

  /** `{ ...form, [name]: value }`. */
  function Assign(form: ServiceFormData, name: FieldName, value: FieldValue): (r: ServiceFormData)
    requires Fits(name, value)
    ensures name.TextName? ==> r == form.With(name.field, value.text)
    ensures name.CategoriesName? ==> r == form.(categories := value.cats)
  {
    match name
    case TextName(f) => form.With(f, value.text)
    case CategoriesName => form.(categories := value.cats)
  }

  /** The hook's state. */
  class FormController {
    var formData: ServiceFormData
    var errors: map<ErrorKey, string>
    var previews: seq<PreviewUrl>
    var status: Status
    /** The number of object URLs created so far. */
    var nextPreview: nat
    /** The object URLs released with `revokeObjectURL`. */
    var revoked: set<PreviewUrl>
    /** The previews `handleSubmit` saw when it sent the pending request. */
    var inFlight: seq<PreviewUrl>

    /** Every image has one live preview, shown in the same place, and no two
        previews are the same URL. */
    ghost predicate Valid()
      reads this
    {
      && |previews| == |formData.imagePaths| <= MAX_TOTAL_IMAGES
      && (forall k :: 0 <= k < |previews| ==> previews[k].file == formData.imagePaths[k])
      && (forall k :: 0 <= k < |previews| ==> previews[k].id < nextPreview && previews[k] !in revoked)
      && (forall j, k :: 0 <= j < k < |previews| ==> previews[j].id != previews[k].id)
      && (forall p :: p in revoked ==> p.id < nextPreview)
      && (forall k :: 0 <= k < |inFlight| ==> inFlight[k].id < nextPreview)
    }

    /** The first render. */
    constructor ()
      ensures Valid()
      ensures formData == INITIAL_STATE && errors == map[] && previews == []
      ensures status == Status(false, false, false)
      ensures formData.country == "India" && formData.categories == [] && formData.imagePaths == []
    {
      formData := INITIAL_STATE;
      errors := map[];
      previews := [];
      status := Status(false, false, false);
      nextPreview := 0;
      revoked := {};
      inFlight := [];
    }

    /** `updateField`: writes one field and clears that field's error if it
        holds a message. */
    method UpdateField(name: FieldName, value: FieldValue)
      requires Valid() && Fits(name, value)
      modifies this
      ensures Valid()
      ensures formData == Assign(old(formData), name, value)
      ensures name.TextName? ==> forall g :: g != name.field ==> formData.Get(g) == old(formData).Get(g)
      ensures formData.imagePaths == old(formData.imagePaths)
      ensures var key := FieldError(name);
              errors == if key in old(errors) && Truthy(old(errors)[key]) then old(errors) - {key} else old(errors)
      ensures forall k :: k != FieldError(name) ==> (k in errors <==> k in old(errors))
      ensures forall k :: k in errors ==> errors[k] == old(errors)[k]
      ensures previews == old(previews) && status == old(status) && revoked == old(revoked)
      ensures nextPreview == old(nextPreview) && inFlight == old(inFlight)
    {
      formData := Assign(formData, name, value);
      var key := FieldError(name);
      if key in errors && Truthy(errors[key]) {
        errors := errors - {key};
      }
    }

    /** `handleCategoryChange`. */
    method HandleCategoryChange(category: string)
      requires Valid()
      modifies this
      ensures Valid()
      ensures formData == old(formData).(categories := Toggle(old(formData.categories), category))
      ensures var key := FieldError(CategoriesName);
              errors == if key in old(errors) && Truthy(old(errors)[key]) then old(errors) - {key} else old(errors)
      ensures previews == old(previews) && status == old(status) && revoked == old(revoked)
      ensures nextPreview == old(nextPreview) && inFlight == old(inFlight)
    {
      var newCats := Toggle(formData.categories, category);
      UpdateField(CategoriesName, CategoriesValue(newCats));
    }

    /** `handleImageChange`; `selected` is `e.target.files`. */
    method HandleImageChange(selected: Option<seq<File>>) returns (alert: Option<string>)
      requires Valid()
      modifies this
      ensures Valid()
      ensures selected.None? ==> alert == None && formData == old(formData) && errors == old(errors) &&
                                 previews == old(previews) && nextPreview == old(nextPreview)
      ensures selected.Some? && |Oversized(selected.value)| > 0 ==>
                alert == Some(TooLargeAlert) && formData == old(formData) && errors == old(errors) &&
                previews == old(previews) && nextPreview == old(nextPreview)
      ensures selected.Some? && |Oversized(selected.value)| == 0 &&
              |old(formData.imagePaths)| + |selected.value| > MAX_TOTAL_IMAGES ==>
                alert == Some(TooManyAlert) && formData == old(formData) && errors == old(errors) &&
                previews == old(previews) && nextPreview == old(nextPreview)
      ensures selected.Some? && |Oversized(selected.value)| == 0 &&
              |old(formData.imagePaths)| + |selected.value| <= MAX_TOTAL_IMAGES ==>
                && alert == None
                && formData == old(formData).(imagePaths := old(formData.imagePaths) + selected.value)
                && previews == old(previews) + FreshPreviews(selected.value, old(nextPreview))
                && nextPreview == old(nextPreview) + |selected.value|
                && errors == old(errors) - {ImagePathsError}
      ensures status == old(status) && revoked == old(revoked) && inFlight == old(inFlight)
    {
      alert := None;
      if selected.Some? {
        var files := selected.value;
        var oversized := Oversized(files);
        if |oversized| > 0 {
          alert := Some(TooLargeAlert);
          return;
        }
        if |formData.imagePaths| + |files| > MAX_TOTAL_IMAGES {
          alert := Some(TooManyAlert);
          return;
        }
        formData := formData.(imagePaths := formData.imagePaths + files);
        previews := previews + FreshPreviews(files, nextPreview);
        nextPreview := nextPreview + |files|;
        errors := errors - {ImagePathsError};
      }
    }

    /** `removeImage`: releases the preview at `index` and drops the image and
        its preview there; any other index changes nothing. */
    method RemoveImage(index: int)
      requires Valid()
      modifies this
      ensures Valid()
      ensures formData == old(formData).(imagePaths := RemoveAt(old(formData.imagePaths), index))
      ensures previews == RemoveAt(old(previews), index)
      ensures revoked == if 0 <= index < |old(previews)| then old(revoked) + {old(previews)[index]} else old(revoked)
      ensures errors == old(errors) && status == old(status)
      ensures nextPreview == old(nextPreview) && inFlight == old(inFlight)
    {
      RemoveAtKeepsPairing(previews, formData.imagePaths, index, nextPreview, revoked);
      var released := if 0 <= index < |previews| then revoked + {previews[index]} else revoked;
      formData, previews, revoked :=
        formData.(imagePaths := RemoveAt(formData.imagePaths, index)), RemoveAt(previews, index), released;
    }

    /** `handleGetLocation` up to its `await`: the locating flag is raised and
        the location error cleared while the device is asked for a fix. */
    method StartGetLocation()
      requires Valid()
      modifies this
      ensures Valid()
      ensures status == old(status).(locating := true)
      ensures errors == old(errors) - {LocationError}
      ensures formData == old(formData) && previews == old(previews) && revoked == old(revoked)
      ensures nextPreview == old(nextPreview) && inFlight == old(inFlight)
    {
      status := status.(locating := true);
      errors := errors - {LocationError};
    }

    /** The rest of `handleGetLocation`, once `getCurrentPosition` settled
        against a device that gave `first` and, if asked again, `second`
        (positions carry the coordinates already rendered with six decimals).
        A fix writes both coordinates of the form as it is now; a rejection
        sets the location error; the locating flag is lowered either way.
        There is no guard against a second click, so the flag is not
        required to be up. */
    method FinishGetLocation(supported: bool, first: Location.Answer, second: Location.Answer)
      requires Valid()
      modifies this
      ensures Valid()
      ensures var settled := Location.PositionOutcome(supported, first, second);
              && (settled.Resolved? ==>
                    formData == old(formData).(latitude := settled.position.latitude,
                                               longitude := settled.position.longitude) &&
                    errors == old(errors))
              && (settled.Rejected? ==>
                    formData == old(formData) && errors == old(errors)[LocationError := LocationFailedError])
      ensures status == old(status).(locating := false)
      ensures previews == old(previews) && revoked == old(revoked)
      ensures nextPreview == old(nextPreview) && inFlight == old(inFlight)
    {
      var settled, _ := Location.GetCurrentPosition(supported, first, second);
      match settled {
        case Resolved(position) =>
          formData := formData.(latitude := position.latitude, longitude := position.longitude);
        case Rejected(_) =>
          errors := errors[LocationError := LocationFailedError];
      }
      status := status.(locating := false);
    }

    /** `handleAutoFillAddress` up to its `await`: without a latitude, the
        fetch-coordinates alert and no change; otherwise the fetching flag is
        raised and the coordinates are looked up. */
    method StartAutoFillAddress() returns (start: AutoFillStart)
      requires Valid()
      modifies this
      ensures Valid()
      ensures !Truthy(old(formData.latitude)) ==>
                start == NoCoordinates(FetchCoordinatesAlert) && status == old(status)
      ensures Truthy(old(formData.latitude)) ==>
                start == LookupSent(old(formData.latitude), old(formData.longitude)) &&
                status == old(status).(fetchingAddress := true)
      ensures formData == old(formData) && errors == old(errors)
      ensures previews == old(previews) && revoked == old(revoked)
      ensures nextPreview == old(nextPreview) && inFlight == old(inFlight)
    {
      if !Truthy(formData.latitude) {
        return NoCoordinates(FetchCoordinatesAlert);
      }
      status := status.(fetchingAddress := true);
      start := LookupSent(formData.latitude, formData.longitude);
    }

    /** The rest of `handleAutoFillAddress`, once `reverseGeocode`'s request
        settled: `answer` is the parsed lookup body, or the message of the
        error the request or the parse threw. The body is mapped by
        `ReverseGeocodeFields`; its fields are spread over the form as it is
        now, overwriting city, state, zip code and the country (always
        "India"), and their errors are cleared; any failure only alerts. The
        fetching flag is lowered either way. */
    method FinishAutoFillAddress(answer: Result<Option<Location.GeocodeData>, string>) returns (alert: Option<string>)
      requires Valid()
      modifies this
      ensures Valid()
      ensures var lookup := if answer.Success? then Location.ReverseGeocodeFields(answer.value) else Failure(answer.error);
              && (lookup.Success? ==>
                    && alert == None
                    && formData == old(formData).(city := lookup.value.city, state := lookup.value.state,
                                                  zipCode := lookup.value.zipCode, country := lookup.value.country)
                    && formData.country == "India"
                    && errors == old(errors) - {FieldError(TextName(City)), FieldError(TextName(State)), FieldError(TextName(ZipCode))})
              && (lookup.Failure? ==>
                    alert == Some(AddressFailedAlert) && formData == old(formData) && errors == old(errors))
      ensures status == old(status).(fetchingAddress := false)
      ensures previews == old(previews) && revoked == old(revoked)
      ensures nextPreview == old(nextPreview) && inFlight == old(inFlight)
    {
      var lookup := if answer.Success? then Location.ReverseGeocodeFields(answer.value) else Failure(answer.error);
      alert := None;
      match lookup {
        case Success(address) =>
          formData := formData.(city := address.city, state := address.state,
                                zipCode := address.zipCode, country := address.country);
          errors := errors - {FieldError(TextName(City)), FieldError(TextName(State)), FieldError(TextName(ZipCode))};
        case Failure(_) =>
          alert := Some(AddressFailedAlert);
      }
      status := status.(fetchingAddress := false);
    }

    /** `validate`: replaces the errors with one entry per failed rule and
        reports whether there is none. */
    method Validate() returns (ok: bool)
      requires Valid()
      modifies this
      ensures Valid()
      ensures errors == ValidationErrors(formData)
      ensures forall k :: k in errors <==> Violates(formData, k)
      ensures forall k :: k in errors ==> errors[k] == ErrorMessage(k)
      ensures ok <==> errors == map[]
      ensures ok <==> FormIsValid(formData)
      ensures formData == old(formData) && previews == old(previews) && status == old(status)
      ensures revoked == old(revoked) && nextPreview == old(nextPreview) && inFlight == old(inFlight)
    {
      var newErrors := ValidationErrors(formData);
      ValidationErrorsExact(formData);
      errors := newErrors;
      ok := |newErrors.Keys| == 0;
      assert ok <==> newErrors == map[] by {
        if newErrors != map[] {
          var k :| k in newErrors;
          assert k in newErrors.Keys;
        }
      }
    }

    /** `handleSubmit` up to its `await`: nothing while a submission is in
        flight, the fix-errors alert when validation fails, and otherwise the
        request body that is sent. */
    method HandleSubmit() returns (outcome: SubmitStart)
      requires Valid()
      modifies this
      ensures Valid()
      ensures old(status.submitting) ==>
                outcome == AlreadySubmitting && formData == old(formData) && errors == old(errors) &&
                status == old(status) && inFlight == old(inFlight)
      ensures !old(status.submitting) ==> errors == ValidationErrors(old(formData))
      ensures !old(status.submitting) && !FormIsValid(old(formData)) ==>
                outcome == Invalid(FixErrorsAlert) && status == old(status) && inFlight == old(inFlight)
      ensures !old(status.submitting) && FormIsValid(old(formData)) ==>
                && outcome == Sent(FormEntries(old(formData)))
                && errors == map[]
                && status == old(status).(submitting := true)
                && inFlight == old(previews)
      ensures formData == old(formData) && previews == old(previews)
      ensures revoked == old(revoked) && nextPreview == old(nextPreview)
    {
      if status.submitting {
        return AlreadySubmitting;
      }
      var ok := Validate();
      if !ok {
        return Invalid(FixErrorsAlert);
      }
      status := status.(submitting := true);
      inFlight := previews;
      var request := BuildFormData(formData);
      outcome := Sent(request);
    }

    /** The rest of `handleSubmit`, once `fetch` has settled: on success the
        previews seen at the start are released and the form is reset; on
        failure the error is turned into an alert; either way the submitting
        flag is cleared. */
    method FinishSubmit(fetched: FetchResult) returns (alert: string)
      requires Valid() && status.submitting
      modifies this
      ensures Valid()
      ensures SubmitResult(fetched).Success? ==>
                && alert == SubmittedAlert
                && formData == INITIAL_STATE && previews == []
                && revoked == old(revoked) + (set k | 0 <= k < |old(inFlight)| :: old(inFlight)[k])
      ensures SubmitResult(fetched).Failure? ==>
                && alert == SubmitAlert(SubmitResult(fetched).error)
                && formData == old(formData) && previews == old(previews) && revoked == old(revoked)
      ensures status == old(status).(submitting := false)
      ensures errors == old(errors) && nextPreview == old(nextPreview) && inFlight == []
    {
      var result := SubmitResult(fetched);
      if result.Success? {
        var i := 0;
        while i < |inFlight|
          invariant 0 <= i <= |inFlight|
          invariant revoked == old(revoked) + (set k | 0 <= k < i :: inFlight[k])
          invariant forall p :: p in revoked ==> p.id < nextPreview
          invariant formData == old(formData) && previews == old(previews) && inFlight == old(inFlight)
          invariant status == old(status) && errors == old(errors) && nextPreview == old(nextPreview)
        {
          revoked := revoked + {inFlight[i]};
          i := i + 1;
        }
        alert := SubmittedAlert;
        formData := INITIAL_STATE;
        previews := [];
      } else {
        alert := SubmitAlert(result.error);
      }
      status := status.(submitting := false);
      inFlight := [];
    }
  }
}
