/** From the browser to the stored row: the multipart body the client sends,
    as Multer turns it into `req.body`, read back by the controller. Multer
    itself is not part of this model; its rule for text parts is stated here
    as `MulterField`: a name sent once gives a string, a name sent more than
    once gives the array of its values, a name not sent is absent. */
module RoundTrip {
  import opened Wrappers
  import opened FormTypes
  import opened SubmitApi
  import opened Request
  import opened CenterService
  import opened Controller
  import opened InlineHandler

  function MulterField(values: seq<string>): Option<BodyField> {
    if values == [] then None
    else if |values| == 1 then Some(Text(values[0]))
    else Some(List(values))
  }

  /** The names of the text parts of a body. */
  function TextNames(entries: seq<Entry>): set<string> {
    set i | 0 <= i < |entries| && entries[i].TextEntry? :: entries[i].name
  }

  /** `req.body` for a multipart body. */
  function ReceivedBody(entries: seq<Entry>): Body {
    map k | k in TextNames(entries) && MulterField(TextValues(entries, k)).Some? :: MulterField(TextValues(entries, k)).value
  }

  /** A name that no text part carries has no text values. */
  lemma {:induction false} NoValuesWithoutName(entries: seq<Entry>, name: string)
    requires name !in TextNames(entries)
    ensures TextValues(entries, name) == []
  {
    if entries != [] {
      assert TextNames(entries[1..]) <= TextNames(entries) by {
        forall k | k in TextNames(entries[1..]) ensures k in TextNames(entries) {
          var i :| 0 <= i < |entries[1..]| && entries[1..][i].TextEntry? && entries[1..][i].name == k;
          assert entries[i + 1] == entries[1..][i];
        }
      }
      NoValuesWithoutName(entries[1..], name);
    }
  }

  /** Every body field the server reads is Multer's reading of the values
      sent under that name. */
  lemma LookupReceived(entries: seq<Entry>, name: string)
    ensures Lookup(ReceivedBody(entries), name) == MulterField(TextValues(entries, name))
  {
    if name !in TextNames(entries) {
      NoValuesWithoutName(entries, name);
    }
  }

  /** Every text field of the form arrives as the string the form held. */
  lemma TextFieldArrives(form: ServiceFormData, f: TextField)
    ensures Lookup(ReceivedBody(FormEntries(form)), Key(f)) == Some(Text(form.Get(f)))
  {
    LookupReceived(FormEntries(form), Key(f));
    TextFieldSentOnce(form, f);
  }

  /** The server's category list is the client's selection, except for a
      selection of exactly one empty string, which the server reads as no
      categories. */
  lemma CategoriesArrive(form: ServiceFormData)
    ensures (Categories(Lookup(ReceivedBody(FormEntries(form)), "categories")) == form.categories)
              <==> form.categories != [""]
  {
    LookupReceived(FormEntries(form), "categories");
    CategoriesSent(form);
  }

  /** The row the controller writes for a submitted form whose images were
      uploaded to `urls`: every text field as the form held it, the country
      defaulted when the form's is empty, the selected categories and the
      URLs. */
  lemma ControllerRowMatchesForm(form: ServiceFormData, urls: seq<string>)
    requires form.categories != [""]
    ensures var body := ReceivedBody(FormEntries(form));
            var d := WithDefaultCountry(ControllerData(body, Categories(Lookup(body, "categories")), urls));
            && d.centerName == Some(Text(form.centerName))
            && d.phone == Some(Text(form.phone))
            && d.email == Some(Text(form.email))
            && d.city == Some(Text(form.city))
            && d.state == Some(Text(form.state))
            && d.zipCode == Some(Text(form.zipCode))
            && d.country == Some(Text(if form.country == "" then DefaultCountry else form.country))
            && d.latitude == Some(Text(form.latitude))
            && d.longitude == Some(Text(form.longitude))
            && d.categories == form.categories
            && d.imagePaths == urls
  {
    var body := ReceivedBody(FormEntries(form));
    forall f: TextField ensures Lookup(body, Key(f)) == Some(Text(form.Get(f))) {
      TextFieldArrives(form, f);
    }
    CategoriesArrive(form);
    RowFromBody(body, form, urls);
  }

  /** The controller's row for a body that holds every text field of `form`
      and its categories. */
  lemma RowFromBody(body: Body, form: ServiceFormData, urls: seq<string>)
    requires forall f: TextField :: Lookup(body, Key(f)) == Some(Text(form.Get(f)))
    requires Categories(Lookup(body, "categories")) == form.categories
    ensures var d := WithDefaultCountry(ControllerData(body, Categories(Lookup(body, "categories")), urls));
            && d.centerName == Some(Text(form.centerName))
            && d.phone == Some(Text(form.phone))
            && d.email == Some(Text(form.email))
            && d.city == Some(Text(form.city))
            && d.state == Some(Text(form.state))
            && d.zipCode == Some(Text(form.zipCode))
            && d.country == Some(Text(if form.country == "" then DefaultCountry else form.country))
            && d.latitude == Some(Text(form.latitude))
            && d.longitude == Some(Text(form.longitude))
            && d.categories == form.categories
            && d.imagePaths == urls
  {
    assert Lookup(body, Key(CenterName)) == Some(Text(form.centerName));
    assert Lookup(body, Key(Phone)) == Some(Text(form.phone));
    assert Lookup(body, Key(Email)) == Some(Text(form.email));
    assert Lookup(body, Key(City)) == Some(Text(form.city));
    assert Lookup(body, Key(State)) == Some(Text(form.state));
    assert Lookup(body, Key(ZipCode)) == Some(Text(form.zipCode));
    assert Lookup(body, Key(Country)) == Some(Text(form.country));
    assert Lookup(body, Key(Latitude)) == Some(Text(form.latitude));
    assert Lookup(body, Key(Longitude)) == Some(Text(form.longitude));
  }

  /** The row the inline handler of index.ts writes for a submitted form whose
      images were uploaded to `urls`: every text field, the coordinates
      included, as the form held it, the country defaulted when the form's
      is empty, the selected categories and the URLs. */
  lemma InlineRowMatchesForm(form: ServiceFormData, urls: seq<string>)
    requires form.categories != [""]
    ensures var body := ReceivedBody(FormEntries(form));
            var d := InlineData(body, Categories(Lookup(body, "categories")), urls);
            && d.centerName == Some(Text(form.centerName))
            && d.phone == Some(Text(form.phone))
            && d.email == Some(Text(form.email))
            && d.city == Some(Text(form.city))
            && d.state == Some(Text(form.state))
            && d.zipCode == Some(Text(form.zipCode))
            && d.country == Some(Text(if form.country == "" then DefaultCountry else form.country))
            && d.latitude == Some(Text(form.latitude))
            && d.longitude == Some(Text(form.longitude))
            && d.categories == form.categories
            && d.imagePaths == urls
  {
    var body := ReceivedBody(FormEntries(form));
    TextFieldArrives(form, CenterName);
    TextFieldArrives(form, Phone);
    TextFieldArrives(form, Email);
    TextFieldArrives(form, City);
    TextFieldArrives(form, State);
    TextFieldArrives(form, ZipCode);
    TextFieldArrives(form, Country);
    TextFieldArrives(form, Latitude);
    TextFieldArrives(form, Longitude);
    CategoriesArrive(form);
  }
}
