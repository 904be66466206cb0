/**
 * The add/edit item form: its prefill when an item is being edited, the two
 * file slots filled by a drop and cleared by a remove, the validator and
 * the choice between creating and updating on submit.
 */
module ItemEditor {
  import opened Wrappers
  import opened JsText
  import opened StoreTypes
  import opened ApiClient

  const NameMissing := "Item name is required!"
  const PriceInvalid := "Please enter a valid price!"

  /** `Partial<FormData>` used as the error record: one optional message per field. */
  datatype FormErrors = FormErrors(name: Option<string>, price: Option<string>, image: Option<string>, sound: Option<string>)

  const NoErrors := FormErrors(None, None, None, None)
  const EmptyForm := ItemForm("", "", None, None)

  /** The form's state: the entered data and the errors on show. */
  datatype Editor = Editor(form: ItemForm, errors: FormErrors)

  /** The price check: parseFloat yields a number that is not below zero. */
  predicate PriceValid(price: string) {
    ParseFloat(price).Some? && !IsBelowZero(ParseFloat(price).value)
  }

  /** Both checks the validator makes. */
  predicate FormValid(form: ItemForm) {
    Trim(form.name) != "" && PriceValid(form.price)
  }

  /**
   * The prefill effect: editing an item shows its name and its price as
   * Number.prototype.toString prints it, with both file slots empty; with no
   * item both fields are reset.
   */
  function Prefill(editing: Option<StoreItem>): (f: ItemForm)
    ensures editing.None? ==> f == EmptyForm
    ensures editing.Some? ==> f.name == editing.value.name && f.image.None? && f.sound.None?
    ensures editing.Some? ==>
      ParseFloat(f.price).Some? && ToCents(ParseFloat(f.price).value) == editing.value.price
    ensures editing.Some? ==> (PriceValid(f.price) <==> editing.value.price >= 0)
  {
    match editing
    case None => EmptyForm
    case Some(item) =>
      PriceRoundTrip(item.price);
      ItemForm(item.name, PriceToString(item.price), None, None)
  }

  /** onImageDrop: a non-empty drop puts its first file in the image slot and clears that slot's error. */
  function OnImageDrop(ed: Editor, accepted: seq<UploadFile>): (r: Editor)
    ensures |accepted| == 0 ==> r == ed
    ensures |accepted| > 0 ==> r.form.image == Some(accepted[0]) && r.errors.image.None?
    ensures r.form.(image := ed.form.image) == ed.form && r.errors.(image := ed.errors.image) == ed.errors
  {
    if |accepted| == 0 then ed
    else Editor(ed.form.(image := Some(accepted[0])), ed.errors.(image := None))
  }

  /** onSoundDrop: the same for the sound slot. */
  function OnSoundDrop(ed: Editor, accepted: seq<UploadFile>): (r: Editor)
    ensures |accepted| == 0 ==> r == ed
    ensures |accepted| > 0 ==> r.form.sound == Some(accepted[0]) && r.errors.sound.None?
    ensures r.form.(sound := ed.form.sound) == ed.form && r.errors.(sound := ed.errors.sound) == ed.errors
  {
    if |accepted| == 0 then ed
    else Editor(ed.form.(sound := Some(accepted[0])), ed.errors.(sound := None))
  }

  /** removeImage and removeSound empty their own slot and touch nothing else. */
  function RemoveImage(form: ItemForm): (r: ItemForm)
    ensures r.image.None? && r.(image := form.image) == form
  {
    form.(image := None)
  }

  function RemoveSound(form: ItemForm): (r: ItemForm)
    ensures r.sound.None? && r.(sound := form.sound) == form
  {
    form.(sound := None)
  }

  /**
   * validateForm: a fresh error record gets a name message when the trimmed
   * name is empty and a price message when the price does not parse or is
   * negative; it replaces the errors on show, and the form is valid when
   * the record stayed empty.
   */
  method ValidateForm(form: ItemForm) returns (valid: bool, errors: FormErrors)
    ensures errors.name.Some? <==> Trim(form.name) == ""
    ensures errors.price.Some? <==> !PriceValid(form.price)
    ensures errors.name.Some? ==> errors.name.value == NameMissing
    ensures errors.price.Some? ==> errors.price.value == PriceInvalid
    ensures errors.image.None? && errors.sound.None?
    ensures valid <==> errors == NoErrors
    ensures valid <==> FormValid(form)
  {
    var newErrors := NoErrors;
    if Trim(form.name) == "" {
      newErrors := newErrors.(name := Some(NameMissing));
    }
    var price := ParseFloat(form.price);
    if price.None? || IsBelowZero(price.value) {
      newErrors := newErrors.(price := Some(PriceInvalid));
    }
    errors := newErrors;
    valid := newErrors == NoErrors;
  }

  /** The request a submit makes. */
  datatype Submission = NoRequest | UpdateRequest(id: int, changes: ItemChanges) | CreateRequest(form: ItemForm)

  /**
   * handleSubmit: an invalid form sends nothing and shows the validator's
   * errors; a valid one updates the item being edited with the whole form,
   * or creates a new item from it.
   */
  method HandleSubmit(editing: Option<StoreItem>, ed: Editor) returns (request: Submission, ed': Editor)
    ensures request.NoRequest? <==> !FormValid(ed.form)
    ensures ed'.form == ed.form
    ensures ed'.errors.name.Some? <==> Trim(ed.form.name) == ""
    ensures ed'.errors.price.Some? <==> !PriceValid(ed.form.price)
    ensures FormValid(ed.form) && editing.Some? ==>
      request == UpdateRequest(editing.value.id, ItemChanges(Some(ed.form.name), Some(ed.form.price), ed.form.image, ed.form.sound))
    ensures FormValid(ed.form) && editing.None? ==> request == CreateRequest(ed.form)
  {
    var valid, errors := ValidateForm(ed.form);
    ed' := ed.(errors := errors);
    if !valid {
      return NoRequest, ed';
    }
    if editing.Some? {
      request := UpdateRequest(editing.value.id, ItemChanges(Some(ed.form.name), Some(ed.form.price), ed.form.image, ed.form.sound));
    } else {
      request := CreateRequest(ed.form);
    }
  }

  // ----------------------------------------------------------------------
  // Properties
  // ----------------------------------------------------------------------

  /** A drop followed by a remove leaves the slot empty and the rest of the form as it was. */
  lemma DropThenRemove(ed: Editor, images: seq<UploadFile>, sounds: seq<UploadFile>)
    ensures RemoveImage(OnImageDrop(ed, images).form) == ed.form.(image := None)
    ensures RemoveSound(OnSoundDrop(ed, sounds).form) == ed.form.(sound := None)
  {
  }

  /** The two slots are independent: dropping into both in either order gives the same editor. */
  lemma DropsCommute(ed: Editor, images: seq<UploadFile>, sounds: seq<UploadFile>)
    ensures OnSoundDrop(OnImageDrop(ed, images), sounds) == OnImageDrop(OnSoundDrop(ed, sounds), images)
  {
  }

  /** The prefilled form of an item is valid exactly when the item's name is not blank and its price is not negative. */
  lemma PrefillValid(item: StoreItem)
    ensures FormValid(Prefill(Some(item))) <==> !IsBlank(item.name) && item.price >= 0
  {
    TrimEmptyIffBlank(item.name);
  }
}
