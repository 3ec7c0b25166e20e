/** client/src/services/api.ts: the multipart body `submitServiceForm` builds
    from the form, and how it reads the server's answer. The `fetch` itself is
    not modelled: its settled value is a parameter. */
module SubmitApi {
  import opened Wrappers
  import opened JsText
  import opened FormTypes

  /** One `FormData.append` call: a text part or a file part (RFC 7578). */
  datatype Entry = TextEntry(name: string, value: string) | FileEntry(name: string, file: File)

  /** The keys of the form object in `Object.keys` order. */
  datatype FormKey = TextKey(field: TextField) | CategoriesKey | ImagePathsKey

  const FormKeys: seq<FormKey> :=
    seq(|TextFieldOrder|, k requires 0 <= k < |TextFieldOrder| => TextKey(TextFieldOrder[k]))
    + [CategoriesKey, ImagePathsKey]

  /** The text parts for the given fields, one per field, in order. */
  function TextEntries(fields: seq<TextField>, form: ServiceFormData): seq<Entry> {
    if fields == [] then []
    else [TextEntry(Key(fields[0]), form.Get(fields[0]))] + TextEntries(fields[1..], form)
  }

  function RepeatedText(name: string, values: seq<string>): seq<Entry> {
    if values == [] then [] else [TextEntry(name, values[0])] + RepeatedText(name, values[1..])
  }

  function RepeatedFile(name: string, files: seq<File>): seq<Entry> {
    if files == [] then [] else [FileEntry(name, files[0])] + RepeatedFile(name, files[1..])
  }

  /** The whole body: the text fields, then every category, then every image. */
  function FormEntries(form: ServiceFormData): seq<Entry> {
    TextEntries(TextFieldOrder, form)
    + RepeatedText("categories", form.categories)
    + RepeatedFile("images", form.imagePaths)
  }

  /** Builds the `FormData` by successive appends, as `submitServiceForm` does
      before it calls `fetch`. */
  method BuildFormData(form: ServiceFormData) returns (entries: seq<Entry>)
    ensures entries == FormEntries(form)
  {
    entries := [];
    var i := 0;
    while i < |FormKeys|
      invariant 0 <= i <= |FormKeys|
      invariant entries == TextEntries(TextFieldOrder[..if i < |TextFieldOrder| then i else |TextFieldOrder|], form)
    {
      var key := FormKeys[i];
      if key.TextKey? {
        // every text field of the form holds a string, so the `typeof` test passes
        TextEntriesSnoc(TextFieldOrder[..i], key.field, form);
        assert TextFieldOrder[..i + 1] == TextFieldOrder[..i] + [key.field];
        entries := entries + [TextEntry(Key(key.field), form.Get(key.field))];
      }
      i := i + 1;
    }
    assert TextFieldOrder[..|TextFieldOrder|] == TextFieldOrder;
    var j := 0;
    while j < |form.categories|
      invariant 0 <= j <= |form.categories|
      invariant entries == TextEntries(TextFieldOrder, form) + RepeatedText("categories", form.categories[..j])
    {
      RepeatedTextSnoc("categories", form.categories[..j], form.categories[j]);
      assert form.categories[..j + 1] == form.categories[..j] + [form.categories[j]];
      entries := entries + [TextEntry("categories", form.categories[j])];
      j := j + 1;
    }
    assert form.categories[..j] == form.categories;
    var k := 0;
    while k < |form.imagePaths|
      invariant 0 <= k <= |form.imagePaths|
      invariant entries == TextEntries(TextFieldOrder, form) + RepeatedText("categories", form.categories)
                           + RepeatedFile("images", form.imagePaths[..k])
    {
      RepeatedFileSnoc("images", form.imagePaths[..k], form.imagePaths[k]);
      assert form.imagePaths[..k + 1] == form.imagePaths[..k] + [form.imagePaths[k]];
      entries := entries + [FileEntry("images", form.imagePaths[k])];
      k := k + 1;
    }
    assert form.imagePaths[..k] == form.imagePaths;
  }

  lemma {:induction false} TextEntriesSnoc(fields: seq<TextField>, f: TextField, form: ServiceFormData)
    ensures TextEntries(fields + [f], form) == TextEntries(fields, form) + [TextEntry(Key(f), form.Get(f))]
  {
    if fields != [] {
      assert (fields + [f])[1..] == fields[1..] + [f];
      TextEntriesSnoc(fields[1..], f, form);
    }
  }

  lemma {:induction false} RepeatedTextSnoc(name: string, values: seq<string>, v: string)
    ensures RepeatedText(name, values + [v]) == RepeatedText(name, values) + [TextEntry(name, v)]
  {
    if values != [] {
      assert (values + [v])[1..] == values[1..] + [v];
      RepeatedTextSnoc(name, values[1..], v);
    }
  }

  lemma {:induction false} RepeatedFileSnoc(name: string, files: seq<File>, f: File)
    ensures RepeatedFile(name, files + [f]) == RepeatedFile(name, files) + [FileEntry(name, f)]
  {
    if files != [] {
      assert (files + [f])[1..] == files[1..] + [f];
      RepeatedFileSnoc(name, files[1..], f);
    }
  }

  // ---- reading the body back, part name by part name ----

  /** The values of the text parts named `name`, in order. */
  function TextValues(entries: seq<Entry>, name: string): seq<string> {
    if entries == [] then []
    else (if entries[0].TextEntry? && entries[0].name == name then [entries[0].value] else [])
         + TextValues(entries[1..], name)
  }

  /** The files of the file parts named `name`, in order. */
  function FileValues(entries: seq<Entry>, name: string): seq<File> {
    if entries == [] then []
    else (if entries[0].FileEntry? && entries[0].name == name then [entries[0].file] else [])
         + FileValues(entries[1..], name)
  }

  lemma {:induction false} TextValuesAppend(a: seq<Entry>, b: seq<Entry>, name: string)
    ensures TextValues(a + b, name) == TextValues(a, name) + TextValues(b, name)
  {
    if a == [] {
      assert a + b == b;
    } else {
      assert (a + b)[1..] == a[1..] + b;
      TextValuesAppend(a[1..], b, name);
    }
  }

  lemma {:induction false} FileValuesAppend(a: seq<Entry>, b: seq<Entry>, name: string)
    ensures FileValues(a + b, name) == FileValues(a, name) + FileValues(b, name)
  {
    if a == [] {
      assert a + b == b;
    } else {
      assert (a + b)[1..] == a[1..] + b;
      FileValuesAppend(a[1..], b, name);
    }
  }

  lemma {:induction false} RepeatedTextValues(name: string, values: seq<string>, other: string)
    ensures TextValues(RepeatedText(name, values), name) == values
    ensures other != name ==> TextValues(RepeatedText(name, values), other) == []
    ensures FileValues(RepeatedText(name, values), other) == []
  {
    if values != [] {
      RepeatedTextValues(name, values[1..], other);
    }
  }

  lemma {:induction false} RepeatedFileValues(name: string, files: seq<File>, other: string)
    ensures FileValues(RepeatedFile(name, files), name) == files
    ensures other != name ==> FileValues(RepeatedFile(name, files), other) == []
    ensures TextValues(RepeatedFile(name, files), other) == []
  {
    if files != [] {
      RepeatedFileValues(name, files[1..], other);
    }
  }

  lemma KeyInjective(f: TextField, g: TextField)
    ensures Key(f) == Key(g) ==> f == g
    ensures Key(f) != "categories" && Key(f) != "images"
  {
  }

  lemma {:induction false} TextEntriesValues(fields: seq<TextField>, form: ServiceFormData, name: string)
    ensures FileValues(TextEntries(fields, form), name) == []
    ensures (forall f :: f in fields ==> Key(f) != name) ==> TextValues(TextEntries(fields, form), name) == []
  {
    if fields != [] {
      TextEntriesValues(fields[1..], form, name);
    }
  }

  /** No two of the given fields share a key. */
  predicate DistinctKeys(fields: seq<TextField>) {
    forall i, j :: 0 <= i < j < |fields| ==> Key(fields[i]) != Key(fields[j])
  }

  lemma {:induction false} TextEntriesValueOf(fields: seq<TextField>, form: ServiceFormData, f: TextField)
    requires f in fields && DistinctKeys(fields)
    ensures TextValues(TextEntries(fields, form), Key(f)) == [form.Get(f)]
  {
    if fields[0] == f {
      forall g | g in fields[1..] ensures Key(g) != Key(f) {
        var j :| 0 <= j < |fields[1..]| && fields[1..][j] == g;
        assert fields[j + 1] == g;
      }
      TextEntriesValues(fields[1..], form, Key(f));
    } else {
      KeyInjective(fields[0], f);
      assert DistinctKeys(fields[1..]) by {
        forall i, j | 0 <= i < j < |fields[1..]| ensures Key(fields[1..][i]) != Key(fields[1..][j]) {
          assert fields[1..][i] == fields[i + 1] && fields[1..][j] == fields[j + 1];
        }
      }
      TextEntriesValueOf(fields[1..], form, f);
    }
  }

  /** Every text field of the form travels as exactly one part under its own key. */
  lemma TextFieldSentOnce(form: ServiceFormData, f: TextField)
    ensures TextValues(FormEntries(form), Key(f)) == [form.Get(f)]
  {
    var t := TextEntries(TextFieldOrder, form);
    assert DistinctKeys(TextFieldOrder);
    TextEntriesValueOf(TextFieldOrder, form, f);
    KeyInjective(f, f);
    TextValuesAppend(t, RepeatedText("categories", form.categories), Key(f));
    TextValuesAppend(t + RepeatedText("categories", form.categories), RepeatedFile("images", form.imagePaths), Key(f));
    RepeatedTextValues("categories", form.categories, Key(f));
    RepeatedFileValues("images", form.imagePaths, Key(f));
  }

  /** The categories travel as repeated "categories" parts, in order. */
  lemma CategoriesSent(form: ServiceFormData)
    ensures TextValues(FormEntries(form), "categories") == form.categories
  {
    var t := TextEntries(TextFieldOrder, form);
    forall f | f in TextFieldOrder ensures Key(f) != "categories" { KeyInjective(f, f); }
    TextEntriesValues(TextFieldOrder, form, "categories");
    TextValuesAppend(t, RepeatedText("categories", form.categories), "categories");
    TextValuesAppend(t + RepeatedText("categories", form.categories), RepeatedFile("images", form.imagePaths), "categories");
    RepeatedTextValues("categories", form.categories, "categories");
    RepeatedFileValues("images", form.imagePaths, "categories");
  }

  /** The images travel as repeated "images" file parts, in order, and no
      other file part is sent. */
  lemma ImagesSent(form: ServiceFormData, name: string)
    ensures FileValues(FormEntries(form), name) == if name == "images" then form.imagePaths else []
  {
    var t := TextEntries(TextFieldOrder, form);
    TextEntriesValues(TextFieldOrder, form, name);
    FileValuesAppend(t, RepeatedText("categories", form.categories), name);
    FileValuesAppend(t + RepeatedText("categories", form.categories), RepeatedFile("images", form.imagePaths), name);
    RepeatedTextValues("categories", form.categories, name);
    RepeatedFileValues("images", form.imagePaths, name);
  }

  // ---- the answer ----

  /** The JSON envelope the client expects. */
  datatype SubmitServiceResponse = SubmitServiceResponse(success: bool, message: Option<string>, error: Option<string>)

  /** What `response.json()` gives: the parsed envelope, or the message of the
      parse error it throws. */
  datatype Payload = Parsed(json: SubmitServiceResponse) | Unparseable(syntaxError: string)

  datatype HttpResponse = HttpResponse(status: nat, contentType: Option<string>, payload: Payload)

  /** How the `fetch` promise settles. */
  datatype FetchResult = Received(response: HttpResponse) | FetchFailed(message: string)

  /** `response.ok`. */
  predicate IsOk(status: nat) {
    200 <= status <= 299
  }

  /** `contentType && contentType.includes("application/json")`. */
  predicate IsJsonType(contentType: Option<string>) {
    contentType.Some? && Truthy(contentType.value) && Includes(contentType.value, "application/json")
  }

  const TooLargeMessage: string :=
    "The images you uploaded " + "are too large for the " + "server to process."
  const TimeoutMessage: string :=
    "The server took too long " + "to respond (Timeout). " + "Try uploading fewer images."

  function ServerErrorMessage(status: nat): string {
    "Server Error: " + NatToString(status)
  }

  function CriticalMessage(status: nat): string {
    "Critical Server Error (" + NatToString(status) + "). Please try again later."
  }

  /** The part of `submitServiceForm` after `fetch` resolved: the parsed body,
      or the message of the error it throws. */
  function ReadResponse(r: HttpResponse): (out: Result<SubmitServiceResponse, string>)
    ensures out.Success? <==> IsJsonType(r.contentType) && r.payload.Parsed? && IsOk(r.status)
    ensures out.Success? ==> out.value == r.payload.json
    ensures IsJsonType(r.contentType) && r.payload.Unparseable? ==> out == Failure(r.payload.syntaxError)
    ensures IsJsonType(r.contentType) && r.payload.Parsed? && !IsOk(r.status) ==>
              out == Failure(r.payload.json.error.GetOr(ServerErrorMessage(r.status)))
    ensures !IsJsonType(r.contentType) ==>
              out == Failure(if r.status == 413 then TooLargeMessage
                             else if r.status == 504 then TimeoutMessage
                             else CriticalMessage(r.status))
  {
    if IsJsonType(r.contentType) then
      match r.payload
      case Unparseable(e) => Failure(e)
      case Parsed(result) =>
        if !IsOk(r.status) then
          Failure(if result.error.Some? then result.error.value else ServerErrorMessage(r.status))
        else Success(result)
    else if r.status == 413 then Failure(TooLargeMessage)
    else if r.status == 504 then Failure(TimeoutMessage)
    else Failure(CriticalMessage(r.status))
  }

  /** The settled value of `submitServiceForm` for a settled `fetch`. */
  function SubmitResult(fetched: FetchResult): (out: Result<SubmitServiceResponse, string>)
    ensures fetched.FetchFailed? ==> out == Failure(fetched.message)
    ensures fetched.Received? ==> out == ReadResponse(fetched.response)
  {
    match fetched
    case FetchFailed(m) => Failure(m)
    case Received(r) => ReadResponse(r)
  }

  /** A non-JSON answer is never taken for a success, whatever its status. */
  lemma NonJsonNeverSucceeds(r: HttpResponse)
    requires !IsJsonType(r.contentType)
    ensures ReadResponse(r).Failure?
  {
  }
}
