/**
 * The browser's API service: the URLs it builds, the multipart form it sends
 * to create or update an item, the empty-list default of getItems and the
 * error a failed request raises. The network exchange itself is not modelled.
 */
module ApiClient {
  import opened Wrappers
  import opened JsText
  import opened StoreTypes

  const ApiBase := "/api"
  const SomethingWentWrong := "Something went wrong"
  const CreateFailedFallback := "Failed to create item"
  const UpdateFailedFallback := "Failed to update item"

  /** The item form as the editor hands it over: two text fields and two optional files. */
  datatype ItemForm = ItemForm(name: string, price: string, image: Option<UploadFile>, sound: Option<UploadFile>)

  /** `Partial<FormData>`: what updateItem accepts, every field optional. */
  datatype ItemChanges = ItemChanges(name: Option<string>, price: Option<string>, image: Option<UploadFile>, sound: Option<UploadFile>)

  /** One `FormData.append(key, value)` entry. */
  datatype FormValue = TextValue(text: string) | FileValue(file: UploadFile)
  datatype FormEntry = FormEntry(key: string, value: FormValue)

  /** getImageUrl and getSoundUrl: `${API_BASE}/items/${id}/image` and `/sound`. */
  function ImageUrl(id: int): string {
    ApiBase + "/items/" + IntToDecimal(id) + "/image"
  }

  function SoundUrl(id: int): string {
    ApiBase + "/items/" + IntToDecimal(id) + "/sound"
  }

  // ----------------------------------------------------------------------
  // The multipart body
  // ----------------------------------------------------------------------

  /** The text values appended under a key, in order. */
  function TextValues(data: seq<FormEntry>, key: string): (r: seq<string>)
    ensures |r| <= |data|
  {
    if |data| == 0 then []
    else
      var last := data[|data| - 1];
      TextValues(data[..|data| - 1], key) + (if last.key == key && last.value.TextValue? then [last.value.text] else [])
  }

  /** The file entries, in order. */
  function FileEntries(data: seq<FormEntry>): (r: seq<FormEntry>)
    ensures |r| <= |data|
  {
    if |data| == 0 then []
    else
      var last := data[|data| - 1];
      FileEntries(data[..|data| - 1]) + (if last.value.FileValue? then [last] else [])
  }

  function AsSeq<T>(o: Option<T>): seq<T> {
    if o.Some? then [o.value] else []
  }

  /** The file entries for an optional image and an optional sound, image first. */
  function Attachments(image: Option<UploadFile>, sound: Option<UploadFile>): seq<FormEntry> {
    (if image.Some? then [FormEntry("image", FileValue(image.value))] else []) +
    (if sound.Some? then [FormEntry("sound", FileValue(sound.value))] else [])
  }

  /** The field names the server declares, plus its two text fields. */
  predicate KnownKey(key: string) {
    key == "name" || key == "price" || key == "image" || key == "sound"
  }

  /** Every entry of the form uses one of the four known keys. */
  predicate KnownKeys(data: seq<FormEntry>) {
    |data| == 0 || (KnownKeys(data[..|data| - 1]) && KnownKey(data[|data| - 1].key))
  }

  /**
   * A form that carries the given name and price text, each at most once,
   * and exactly the given files in that order, under no other key.
   */
  predicate Sends(data: seq<FormEntry>, name: Option<string>, price: Option<string>,
                  image: Option<UploadFile>, sound: Option<UploadFile>)
  {
    && TextValues(data, "name") == AsSeq(name)
    && TextValues(data, "price") == AsSeq(price)
    && FileEntries(data) == Attachments(image, sound)
    && KnownKeys(data)
  }

  /** One append: how the text values, the file entries and the keys grow. */
  lemma AppendEntry(data: seq<FormEntry>, e: FormEntry)
    ensures e.key == "name" && e.value.TextValue? ==> TextValues(data + [e], "name") == TextValues(data, "name") + [e.value.text]
    ensures !(e.key == "name" && e.value.TextValue?) ==> TextValues(data + [e], "name") == TextValues(data, "name")
    ensures e.key == "price" && e.value.TextValue? ==> TextValues(data + [e], "price") == TextValues(data, "price") + [e.value.text]
    ensures !(e.key == "price" && e.value.TextValue?) ==> TextValues(data + [e], "price") == TextValues(data, "price")
    ensures e.value.FileValue? ==> FileEntries(data + [e]) == FileEntries(data) + [e]
    ensures e.value.TextValue? ==> FileEntries(data + [e]) == FileEntries(data)
    ensures KnownKeys(data + [e]) == (KnownKeys(data) && KnownKey(e.key))
  {
    assert (data + [e])[..|data|] == data;
  }

  /** Appends the caller's files after what is already there. */
  method AppendFiles(data: seq<FormEntry>, image: Option<UploadFile>, sound: Option<UploadFile>)
    returns (data': seq<FormEntry>)
    ensures TextValues(data', "name") == TextValues(data, "name")
    ensures TextValues(data', "price") == TextValues(data, "price")
    ensures FileEntries(data') == FileEntries(data) + Attachments(image, sound)
    ensures KnownKeys(data') == KnownKeys(data)
    ensures |data'| >= |data| && data'[..|data|] == data
  {
    var middle := AppendFile(data, "image", image);
    data' := AppendFile(middle, "sound", sound);
    var a := if image.Some? then [FormEntry("image", FileValue(image.value))] else [];
    var b := if sound.Some? then [FormEntry("sound", FileValue(sound.value))] else [];
    assert (FileEntries(data) + a) + b == FileEntries(data) + (a + b);
    assert data'[..|data|] == middle[..|data|];
  }

  /** `if (file) data.append(key, file)`. */
  method AppendFile(data: seq<FormEntry>, key: string, file: Option<UploadFile>) returns (data': seq<FormEntry>)
    requires key == "image" || key == "sound"
    ensures TextValues(data', "name") == TextValues(data, "name")
    ensures TextValues(data', "price") == TextValues(data, "price")
    ensures FileEntries(data') == FileEntries(data) + (if file.Some? then [FormEntry(key, FileValue(file.value))] else [])
    ensures KnownKeys(data') == KnownKeys(data)
    ensures |data'| >= |data| && data'[..|data|] == data
  {
    data' := data;
    if file.Some? {
      var e := FormEntry(key, FileValue(file.value));
      AppendEntry(data, e);
      data' := data + [e];
      assert data'[..|data|] == data;
    } else {
      assert FileEntries(data) + [] == FileEntries(data);
    }
  }

  /** createItem: name, then price, always; then the image and the sound when present. */
  method CreateItemData(form: ItemForm) returns (data: seq<FormEntry>)
    ensures Sends(data, Some(form.name), Some(form.price), form.image, form.sound)
    ensures |data| >= 2 && data[0] == FormEntry("name", TextValue(form.name)) && data[1] == FormEntry("price", TextValue(form.price))
  {
    var nameEntry := FormEntry("name", TextValue(form.name));
    var priceEntry := FormEntry("price", TextValue(form.price));
    data := [];
    AppendEntry(data, nameEntry);
    data := data + [nameEntry];
    AppendEntry(data, priceEntry);
    data := data + [priceEntry];
    var texts := data;
    data := AppendFiles(data, form.image, form.sound);
    assert data[..2] == texts;
  }

  /** The value a field keeps under `if (formData.x)`: present and not empty. */
  function WhenTruthy(s: Option<string>): (r: Option<string>)
    ensures r.Some? <==> IsTruthy(s)
    ensures r.Some? ==> r == s
  {
    if IsTruthy(s) then s else None
  }

  /** updateItem: name and price only when they are non-empty, then the files when present. */
  method UpdateItemData(changes: ItemChanges) returns (data: seq<FormEntry>)
    ensures Sends(data, WhenTruthy(changes.name), WhenTruthy(changes.price), changes.image, changes.sound)
  {
    data := TruthyTexts(changes.name, changes.price);
    data := AppendFiles(data, changes.image, changes.sound);
  }

  /** The text part of updateItem's form: the name, then the price, each only when non-empty. */
  method TruthyTexts(name: Option<string>, price: Option<string>) returns (data: seq<FormEntry>)
    ensures TextValues(data, "name") == AsSeq(WhenTruthy(name))
    ensures TextValues(data, "price") == AsSeq(WhenTruthy(price))
    ensures FileEntries(data) == [] && KnownKeys(data)
  {
    data := [];
    if IsTruthy(name) {
      var e := FormEntry("name", TextValue(name.value));
      AppendEntry(data, e);
      assert [] + [name.value] == [name.value];
      data := data + [e];
    }
    assert TextValues(data, "name") == AsSeq(WhenTruthy(name));
    assert TextValues(data, "price") == [] && FileEntries(data) == [] && KnownKeys(data);
    if IsTruthy(price) {
      var e := FormEntry("price", TextValue(price.value));
      AppendEntry(data, e);
      assert [] + [price.value] == [price.value];
      data := data + [e];
    }
  }

  // ----------------------------------------------------------------------
  // Replies
  // ----------------------------------------------------------------------

  /** getItems: `response.data || []`. */
  function ItemsOrEmpty(data: Option<seq<StoreItem>>): (r: seq<StoreItem>)
    ensures data.Some? ==> r == data.value
    ensures data.None? ==> r == []
  {
    if data.Some? then data.value else []
  }

  /**
   * The error a call raises: none for an ok response; otherwise the server's
   * `error` when it is a non-empty string, else the call's fallback message.
   */
  function RaisedError(ok: bool, error: Option<string>, fallback: string): (r: Option<string>)
    ensures r.None? <==> ok
    ensures !ok && IsTruthy(error) ==> r == error
    ensures !ok && !IsTruthy(error) ==> r == Some(fallback)
  {
    if ok then None else if IsTruthy(error) then error else Some(fallback)
  }

  /** A failed call always raises a non-empty message, whatever the server sent. */
  lemma FailureAlwaysExplained(error: Option<string>)
    ensures RaisedError(false, error, SomethingWentWrong).Some? && RaisedError(false, error, SomethingWentWrong).value != ""
    ensures RaisedError(false, error, CreateFailedFallback).value != ""
    ensures RaisedError(false, error, UpdateFailedFallback).value != ""
  {
  }
}
