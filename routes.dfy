/**
 * The items router: the multer configuration it installs in front of POST
 * and PUT (field dispatch, type filter, one 5 MiB limit, at most one image
 * and one sound) and the seven handlers that read and change the table.
 * Handlers take the table, the set of existing files and the request; they
 * answer with a response or hand a failure to the error middleware.
 */
module ItemRoutes {
  import opened Wrappers
  import opened JsText
  import opened StoreTypes
  import opened ItemsDb
  import opened FileUpload

  // ----------------------------------------------------------------------
  // Requests and responses
  // ----------------------------------------------------------------------

  /** One file part of a multipart body, with the clock and random readings its filename callback takes. */
  datatype FilePart = FilePart(field: string, file: UploadFile, time: nat, rand: nat)

  /** The text fields name and price of req.body (None when absent) and the file parts in arrival order. */
  datatype RequestBody = RequestBody(name: Option<string>, price: Option<string>, parts: seq<FilePart>)

  /** The bodies the server sends: JSON objects, a served file, or the health report; every ErrorBody carries success: false. */
  datatype Body =
    | ErrorBody(error: string)
    | ItemBody(item: StoreItem)
    | ItemsBody(items: seq<StoreItem>)
    | MessageBody(message: string)
    | FileBody(path: string)
    | StatusBody(status: string)

  datatype Response = Response(status: int, body: Body)

  /** A handler either answers, or passes a failure to next(err). */
  datatype Outcome = Respond(response: Response) | Next(failure: Failure)

  /** The readings a POST or PUT takes from outside: the clock for created_at and whether the image library decodes the upload in each step. */
  datatype Env = Env(now: int, processDecodes: bool, thumbnailDecodes: bool)

  const InvalidFieldName := "Invalid field name"
  const InvalidItemId := "Invalid item ID"
  const ItemNotFound := "Item not found"
  const NameRequired := "Item name is required"
  const PriceRequired := "Valid price is required"
  const UpdateFailed := "Failed to update item"
  const ImageNotFound := "Image not found"
  const ImageFileNotFound := "Image file not found"
  const SoundNotFound := "Sound not found"
  const SoundFileNotFound := "Sound file not found"
  const ItemDeleted := "Item deleted successfully"

  // ----------------------------------------------------------------------
  // The router's multer configuration
  // ----------------------------------------------------------------------

  /** The destination callback: images and sounds go to their directories; any other field is an Error. */
  function Destination(field: string): (r: Result<string, Failure>)
    ensures r.Ok? <==> field == "image" || field == "sound"
    ensures r.Ok? ==> r.value == (if field == "image" then ImagesDir else SoundsDir)
    ensures r.Err? ==> r.error == PlainError(InvalidFieldName)
  {
    if field == "image" then Ok(ImagesDir)
    else if field == "sound" then Ok(SoundsDir)
    else Err(PlainError(InvalidFieldName))
  }

  /** The filename callback: "item-" or "sound-" by field, the unique suffix and the original extension; any other field is an Error. */
  function Filename(field: string, time: nat, rand: nat, originalName: string): (r: Result<string, Failure>)
    ensures r.Ok? <==> field == "image" || field == "sound"
    ensures r.Ok? ==> r.value == StoredName(if field == "image" then ImagePrefix else SoundPrefix, time, rand, originalName)
    ensures r.Err? ==> r.error == PlainError(InvalidFieldName)
  {
    if field == "image" then Ok(StoredName(ImagePrefix, time, rand, originalName))
    else if field == "sound" then Ok(StoredName(SoundPrefix, time, rand, originalName))
    else Err(PlainError(InvalidFieldName))
  }

  /** The fileFilter callback: the image allow-list for "image", the audio allow-list for "sound", an Error for anything else. */
  function RouterFilter(field: string, f: UploadFile): (v: Verdict)
    ensures field == "image" ==> v == ImageFilter(f)
    ensures field == "sound" ==> v == AudioFilter(f)
    ensures field != "image" && field != "sound" ==> v == Reject(InvalidFieldName)
  {
    if field == "image" then ImageFilter(f)
    else if field == "sound" then AudioFilter(f)
    else Reject(InvalidFieldName)
  }

  /** The router's single fileSize limit, applied to images and sounds alike. */
  const RouterSizeLimit: nat := 5 * MiB

  /** For its two fields the router stores exactly as the standalone image and sound uploaders do; only the limit differs for sounds. */
  lemma RouterMatchesUploaders(f: UploadFile, time: nat, rand: nat)
    ensures Destination("image") == Ok(UploadImage.dir) && Destination("sound") == Ok(UploadSound.dir)
    ensures Filename("image", time, rand, f.originalName) == Ok(StoredName(UploadImage.prefix, time, rand, f.originalName))
    ensures Filename("sound", time, rand, f.originalName) == Ok(StoredName(UploadSound.prefix, time, rand, f.originalName))
    ensures RouterFilter("image", f) == KindFilter(UploadImage.kind, f)
    ensures RouterFilter("sound", f) == KindFilter(UploadSound.kind, f)
    ensures RouterSizeLimit == UploadImage.limit && RouterSizeLimit > UploadSound.limit
  {
  }

  /**
   * One file through the router's multer: filter, then destination and
   * filename, then the size limit while the bytes are written; the file's
   * path is the destination joined with the filename.
   */
  function ReceivePart(p: FilePart): (r: Result<string, Failure>)
    ensures r.Ok? <==> RouterFilter(p.field, p.file).Accept? && WithinLimit(p.file, RouterSizeLimit)
    ensures r.Ok? ==> r.value == StoredPath(Destination(p.field).value, Filename(p.field, p.time, p.rand, p.file.originalName).value)
    ensures r.Err? && RouterFilter(p.field, p.file).Reject? ==> r.error == PlainError(RouterFilter(p.field, p.file).message)
    ensures r.Err? && RouterFilter(p.field, p.file).Accept? ==> r.error == MulterError(LimitFileSize, FileTooLarge)
  {
    match RouterFilter(p.field, p.file)
    case Reject(message) => Err(PlainError(message))
    case Accept =>
      match Destination(p.field)
      case Err(e) => Err(e)
      case Ok(dir) =>
        match Filename(p.field, p.time, p.rand, p.file.originalName)
        case Err(e) => Err(e)
        case Ok(name) =>
          if !WithinLimit(p.file, RouterSizeLimit) then Err(MulterError(LimitFileSize, FileTooLarge))
          else Ok(StoredPath(dir, name))
  }

  /** req.files as the handlers read it: the path of files.image[0] and of files.sound[0], if present. */
  datatype Received = Received(image: Option<string>, sound: Option<string>)

  const NoFiles := Received(None, None)

  /** The paths a successful intake wrote to disk. */
  function StoredPaths(rec: Received): (s: set<string>)
    ensures rec.image.Some? ==> rec.image.value in s
    ensures rec.sound.Some? ==> rec.sound.value in s
    ensures forall x :: x in s ==> Some(x) == rec.image || Some(x) == rec.sound
  {
    (if rec.image.Some? then {rec.image.value} else {}) + (if rec.sound.Some? then {rec.sound.value} else {})
  }

  /** Whether the field still has a free slot under .fields([{ name: 'image', maxCount: 1 }, { name: 'sound', maxCount: 1 }]). */
  predicate SlotFree(field: string, got: Received) {
    (field == "image" && got.image.None?) || (field == "sound" && got.sound.None?)
  }

  /** A part that got through the intake: a declared field, accepted by the filter, within the limit. */
  predicate PartAdmitted(p: FilePart) {
    (p.field == "image" || p.field == "sound") && RouterFilter(p.field, p.file).Accept? && WithinLimit(p.file, RouterSizeLimit)
  }

  /**
   * upload.fields(...): each part in turn; a part for an undeclared field, or
   * beyond its field's maxCount, fails with LIMIT_UNEXPECTED_FILE before the
   * filter sees it; the first failure aborts the whole intake and discards
   * what was stored.
   */
  function ReceiveFiles(parts: seq<FilePart>, got: Received): (r: Result<Received, Failure>)
    ensures r.Ok? ==> forall i :: 0 <= i < |parts| ==> PartAdmitted(parts[i])
    ensures r.Err? && r.error.PlainError? ==> r.error.message == ImageTypeError || r.error.message == AudioTypeError
    decreases |parts|
  {
    if parts == [] then Ok(got)
    else
      var p := parts[0];
      if !SlotFree(p.field, got) then Err(MulterError(LimitUnexpectedFile, UnexpectedField))
      else
        match ReceivePart(p)
        case Err(e) => Err(e)
        case Ok(path) =>
          var r := ReceiveFiles(parts[1..], Take(got, p.field, path));
          assert forall i :: 1 <= i < |parts| ==> parts[i] == parts[1..][i - 1];
          r
  }

  /** req.files after a part for the given field was stored at path. */
  function Take(got: Received, field: string, path: string): Received {
    if field == "image" then got.(image := Some(path)) else got.(sound := Some(path))
  }

  /** A part for a field other than "image" and "sound" makes the whole intake fail. */
  lemma {:induction false} UndeclaredFieldRefused(parts: seq<FilePart>, got: Received, i: int)
    requires 0 <= i < |parts| && parts[i].field != "image" && parts[i].field != "sound"
    ensures ReceiveFiles(parts, got).Err?
  {
    if i > 0 && SlotFree(parts[0].field, got) && ReceivePart(parts[0]).Ok? {
      assert parts[1..][i - 1] == parts[i];
      UndeclaredFieldRefused(parts[1..], Take(got, parts[0].field, ReceivePart(parts[0]).value), i - 1);
    }
  }

  /** A successful intake took its first part into a free slot and went on with the rest. */
  lemma ReceiveStep(parts: seq<FilePart>, got: Received)
    requires parts != [] && ReceiveFiles(parts, got).Ok?
    ensures SlotFree(parts[0].field, got) && ReceivePart(parts[0]).Ok?
    ensures ReceiveFiles(parts, got) == ReceiveFiles(parts[1..], Take(got, parts[0].field, ReceivePart(parts[0]).value))
  {
  }

  /** The image path handed to the handler is the stored path of an image part of the request. */
  lemma {:induction false} ReceivedImageFromPart(parts: seq<FilePart>, got: Received)
    requires ReceiveFiles(parts, got).Ok? && ReceiveFiles(parts, got).value.image != got.image
    ensures got.image.None?
    ensures exists i :: 0 <= i < |parts| && parts[i].field == "image" && Some(ReceivePart(parts[i]).value) == ReceiveFiles(parts, got).value.image
  {
    var result := ReceiveFiles(parts, got).value.image;
    ReceiveStep(parts, got);
    var p := parts[0];
    var got' := Take(got, p.field, ReceivePart(p).value);
    if got'.image == result {
      assert p.field == "image";
      assert 0 < |parts| && parts[0].field == "image" && Some(ReceivePart(parts[0]).value) == result;
    } else {
      ReceivedImageFromPart(parts[1..], got');
      var i :| 0 <= i < |parts[1..]| && parts[1..][i].field == "image" && Some(ReceivePart(parts[1..][i]).value) == result;
      assert parts[i + 1] == parts[1..][i];
      assert 0 <= i + 1 < |parts| && parts[i + 1].field == "image" && Some(ReceivePart(parts[i + 1]).value) == result;
    }
  }

  /** The sound path handed to the handler is the stored path of a sound part of the request. */
  lemma {:induction false} ReceivedSoundFromPart(parts: seq<FilePart>, got: Received)
    requires ReceiveFiles(parts, got).Ok? && ReceiveFiles(parts, got).value.sound != got.sound
    ensures got.sound.None?
    ensures exists i :: 0 <= i < |parts| && parts[i].field == "sound" && Some(ReceivePart(parts[i]).value) == ReceiveFiles(parts, got).value.sound
  {
    var result := ReceiveFiles(parts, got).value.sound;
    ReceiveStep(parts, got);
    var p := parts[0];
    var got' := Take(got, p.field, ReceivePart(p).value);
    if got'.sound == result {
      assert p.field == "sound";
      assert 0 < |parts| && parts[0].field == "sound" && Some(ReceivePart(parts[0]).value) == result;
    } else {
      ReceivedSoundFromPart(parts[1..], got');
      var i :| 0 <= i < |parts[1..]| && parts[1..][i].field == "sound" && Some(ReceivePart(parts[1..][i]).value) == result;
      assert parts[i + 1] == parts[1..][i];
      assert 0 <= i + 1 < |parts| && parts[i + 1].field == "sound" && Some(ReceivePart(parts[i + 1]).value) == result;
    }
  }

  /** A part whose field has no free slot left makes the whole intake fail: a taken slot stays taken. */
  lemma TakenSlotRefused(parts: seq<FilePart>, got: Received, j: int)
    requires 0 <= j < |parts| && !SlotFree(parts[j].field, got)
    ensures ReceiveFiles(parts, got).Err?
  {
    AcceptedSlotsDistinct(parts, got);
  }

  /** Two parts for the same field anywhere in one request (maxCount 1) make the whole intake fail. */
  lemma SecondFileRefused(parts: seq<FilePart>, got: Received, i: int, j: int)
    requires 0 <= i < j < |parts| && parts[i].field == parts[j].field
    ensures ReceiveFiles(parts, got).Err?
  {
    AcceptedSlotsDistinct(parts, got);
  }

  /**
   * A successful intake found a free slot, in the slots it started from, for
   * every part, and took no two parts for the same field.
   */
  lemma {:induction false} AcceptedSlotsDistinct(parts: seq<FilePart>, got: Received)
    ensures ReceiveFiles(parts, got).Ok? ==> forall i :: 0 <= i < |parts| ==> SlotFree(parts[i].field, got)
    ensures ReceiveFiles(parts, got).Ok? ==> forall i, j :: 0 <= i < j < |parts| ==> parts[i].field != parts[j].field
    decreases |parts|
  {
    if parts != [] && ReceiveFiles(parts, got).Ok? {
      ReceiveStep(parts, got);
      var got' := Take(got, parts[0].field, ReceivePart(parts[0]).value);
      AcceptedSlotsDistinct(parts[1..], got');
      SlotsBeforeTake(parts, parts[1..], got, got', ReceivePart(parts[0]).value);
    }
  }

  /**
   * If every later part finds a free slot after the first part was taken into
   * its free slot, and no two later parts share a field, then every part found
   * a free slot before, and no two parts share a field: taking only fills slots.
   */
  lemma SlotsBeforeTake(parts: seq<FilePart>, rest: seq<FilePart>, got: Received, got': Received, path: string)
    requires parts != [] && rest == parts[1..] && SlotFree(parts[0].field, got)
    requires got' == Take(got, parts[0].field, path)
    requires forall i :: 0 <= i < |rest| ==> SlotFree(rest[i].field, got')
    requires forall i, j :: 0 <= i < j < |rest| ==> rest[i].field != rest[j].field
    ensures forall i :: 0 <= i < |parts| ==> SlotFree(parts[i].field, got)
    ensures forall i, j :: 0 <= i < j < |parts| ==> parts[i].field != parts[j].field
  {
    forall i | 0 < i < |parts| ensures SlotFree(parts[i].field, got) && parts[0].field != parts[i].field {
      assert parts[i] == rest[i - 1];
    }
    forall i, j | 0 < i < j < |parts| ensures parts[i].field != parts[j].field {
      assert parts[i] == rest[i - 1] && parts[j] == rest[j - 1];
    }
  }

  // ----------------------------------------------------------------------
  // Request shaping shared by the handlers
  // ----------------------------------------------------------------------

  /** `!name || !name.trim()` is false: the name is present and not all whitespace. */
  predicate NameGiven(name: Option<string>) {
    name.Some? && Trim(name.value) != ""
  }

  /** parseFloat(price), where parseFloat(undefined) is NaN (None). */
  function ParsePrice(price: Option<string>): Option<Decimal> {
    if price.None? then None else ParseFloat(price.value)
  }

  /** `isNaN(priceNum) || priceNum < 0` is false. */
  predicate PriceAccepted(d: Option<Decimal>) {
    d.Some? && !IsBelowZero(d.value)
  }

  /** The update arguments PUT builds: `name?.trim()`, `price ? parseFloat(price) : undefined`, and the uploaded paths. */
  function PutPatch(body: RequestBody, rec: Received): (p: ItemPatch)
    ensures p.name.Some? <==> body.name.Some?
    ensures p.name.Some? ==> p.name.value == Trim(body.name.value)
    ensures p.price.None? <==> body.price.None? || body.price == Some("")
    ensures p.price == Some(NotANumber) <==> body.price.Some? && body.price.value != "" && ParseFloat(body.price.value).None?
    ensures p.price.Some? && p.price.value.Cents? ==> p.price.value.cents == ToCents(ParseFloat(body.price.value).value)
    ensures p.imagePath == rec.image && p.soundFile == rec.sound
  {
    var price :=
      if body.price.None? || body.price.value == "" then None
      else match ParseFloat(body.price.value)
        case None => Some(NotANumber)
        case Some(d) => Some(Cents(ToCents(d)));
    ItemPatch(if body.name.Some? then Some(Trim(body.name.value)) else None, price, rec.image, rec.sound)
  }

  /** PUT, unlike POST, range-checks nothing: a negative price and an all-whitespace name are both written. */
  lemma PutAcceptsWhatPostRefuses(rec: Received)
    ensures var body := RequestBody(Some("  "), Some("-5"), []);
      && !NameGiven(body.name) && !PriceAccepted(ParsePrice(body.price))
      && PutPatch(body, rec) == ItemPatch(Some(""), Some(Cents(-500)), rec.image, rec.sound)
  {
    TrimEmptyIffBlank("  ");
    MinusFive();
  }

  lemma MinusFive()
    ensures ParseFloat("-5") == Some(Decimal(true, "5", ""))
    ensures ToCents(Decimal(true, "5", "")) == -500
    ensures IsBelowZero(Decimal(true, "5", ""))
  {
    assert TrimStart("-5") == "-5";
    assert StripSign("-5") == "5";
    assert OpensNegative("-5");
    assert DigitRun("5", 10) == 1;
    assert "5"[1..] == "" && "5"[..1] == "5";
    assert ReadDecimal(true, "5") == Some(Decimal(true, "5", ""));
    assert RadixValue("5", 10) == 5 by {
      assert "5"[..0] == "";
    }
    assert "5"[0] != '0';
  }

  /** The files on disk after the image steps of POST and PUT: processImage, then generateThumbnail, on the uploaded image if any. */
  function AfterImageSteps(files: set<string>, image: Option<string>, env: Env): (r: set<string>)
    ensures image.None? ==> r == files
    ensures image.Some? && image.value in files ==> image.value in r
  {
    if image.None? then files
    else
      var processed := ProcessImage(files, image.value, env.processDecodes);
      GenerateThumbnail(processed.files, image.value, env.thumbnailDecodes).files
  }

  /** The two guarded unlinks of DELETE: each truthy locator whose file exists is removed. */
  function UnlinkLocators(files: set<string>, item: StoreItem): (r: set<string>)
    ensures r == files - Locators(item)
  {
    var afterImage := if IsTruthy(item.imagePath) && item.imagePath.value in files then files - {item.imagePath.value} else files;
    if IsTruthy(item.soundFile) && item.soundFile.value in afterImage then afterImage - {item.soundFile.value} else afterImage
  }

  /** The files an item's truthy locators name. */
  function Locators(item: StoreItem): set<string> {
    (if IsTruthy(item.imagePath) then {item.imagePath.value} else {})
      + (if IsTruthy(item.soundFile) then {item.soundFile.value} else {})
  }

  // ----------------------------------------------------------------------
  // Handlers
  // ----------------------------------------------------------------------

  /** What GET / answers for a table: 200 with every row once, newest first. */
  ghost predicate ListAnswered(rows: map<int, StoreItem>, resp: Response) {
    resp.status == 200 && resp.body.ItemsBody? && ListsTable(resp.body.items, rows) && NewestFirst(resp.body.items)
  }

  /** GET /: the whole table, newest first. */
  method ListItems(db: ItemTable) returns (resp: Response)
    requires db.Valid()
    ensures ListAnswered(db.rows, resp)
  {
    var items := db.GetAll();
    resp := Response(200, ItemsBody(items));
  }

  /** What GET /:id answers: 400 when the id does not parse, 404 when no row has it, else the row. */
  predicate GetAnswered(rows: map<int, StoreItem>, idText: string, resp: Response) {
    && (ParseInt(idText).None? ==> resp == Response(400, ErrorBody(InvalidItemId)))
    && (ParseInt(idText).Some? && ParseInt(idText).value !in rows ==> resp == Response(404, ErrorBody(ItemNotFound)))
    && (ParseInt(idText).Some? && ParseInt(idText).value in rows ==> resp == Response(200, ItemBody(rows[ParseInt(idText).value])))
  }

  /** GET /:id: 400 when the id does not parse, 404 when no row has it, else the row. */
  method GetItem(db: ItemTable, idText: string) returns (resp: Response)
    requires db.Valid()
    ensures GetAnswered(db.rows, idText, resp)
  {
    var id := ParseInt(idText);
    if id.None? {
      return Response(400, ErrorBody(InvalidItemId));
    }
    var item := db.GetById(id.value);
    if item.None? {
      return Response(404, ErrorBody(ItemNotFound));
    }
    resp := Response(200, ItemBody(item.value));
  }

  /**
   * POST / behind upload.fields(...). A failed intake goes to the error
   * middleware with nothing stored. Otherwise the files are on disk before
   * the name and price are checked, so a refused request leaves them there.
   * A valid request processes the image, stores the trimmed name and answers
   * 201 with the new row.
   */
  method CreateItem(db: ItemTable, files: set<string>, body: RequestBody, env: Env)
    returns (out: Outcome, files': set<string>)
    requires db.Valid()
    modifies db
    ensures db.Valid()
    ensures ReceiveFiles(body.parts, NoFiles).Err? ==> unchanged(db)
    ensures PostAnswered(old(db.rows), old(db.nextId), old(db.issued), db.rows, db.nextId, files, body, env, out, files')
  {
    var received := ReceiveFiles(body.parts, NoFiles);
    if received.Err? {
      return Next(received.error), files;
    }
    out, files' := CreateFromUpload(db, files + StoredPaths(received.value), body, received.value, env);
  }

  /**
   * What POST / answers: a failed intake goes to the error middleware with
   * nothing stored and nothing written; otherwise the answer once the files
   * are stored.
   */
  ghost predicate PostAnswered(
    rows: map<int, StoreItem>, nextId: int, issued: set<int>, rows': map<int, StoreItem>, nextId': int,
    files: set<string>, body: RequestBody, env: Env, out: Outcome, files': set<string>)
  {
    var received := ReceiveFiles(body.parts, NoFiles);
    && (received.Err? ==> out == Next(received.error) && files' == files && rows' == rows && nextId' == nextId)
    && (received.Ok? ==>
          CreateAnswered(rows, nextId, issued, rows', nextId', files + StoredPaths(received.value), body, received.value, env, out, files'))
  }

  /**
   * What POST / answers once the files are stored: 400 for a missing name or
   * price, with nothing else changed; else the new row under the next id,
   * answered with 201, after the image steps.
   */
  ghost predicate CreateAnswered(
    rows: map<int, StoreItem>, nextId: int, issued: set<int>, rows': map<int, StoreItem>, nextId': int,
    files: set<string>, body: RequestBody, rec: Received, env: Env, out: Outcome, files': set<string>)
  {
    && (!NameGiven(body.name) ==>
          out == Respond(Response(400, ErrorBody(NameRequired))) && files' == files && rows' == rows && nextId' == nextId)
    && (NameGiven(body.name) && !PriceAccepted(ParsePrice(body.price)) ==>
          out == Respond(Response(400, ErrorBody(PriceRequired))) && files' == files && rows' == rows && nextId' == nextId)
    && (NameGiven(body.name) && PriceAccepted(ParsePrice(body.price)) ==>
          var item := StoreItem(nextId, Trim(body.name.value), ToCents(ParsePrice(body.price).value), rec.image, rec.sound, env.now);
          && out == Respond(Response(201, ItemBody(item)))
          && item.id !in issued
          && rows' == rows[item.id := item] && nextId' == nextId + 1
          && files' == AfterImageSteps(files, rec.image, env))
  }

  /** The part of POST / after the intake: validation, the image steps and the insertion. */
  method CreateFromUpload(db: ItemTable, files: set<string>, body: RequestBody, rec: Received, env: Env)
    returns (out: Outcome, files': set<string>)
    requires db.Valid()
    modifies db
    ensures db.Valid()
    ensures CreateAnswered(old(db.rows), old(db.nextId), old(db.issued), db.rows, db.nextId, files, body, rec, env, out, files')
    ensures !(NameGiven(body.name) && PriceAccepted(ParsePrice(body.price))) ==> unchanged(db)
  {
    files' := files;
    if !NameGiven(body.name) {
      return Respond(Response(400, ErrorBody(NameRequired))), files';
    }
    var priceNum := ParsePrice(body.price);
    if !PriceAccepted(priceNum) {
      return Respond(Response(400, ErrorBody(PriceRequired))), files';
    }
    var imagePath := rec.image;
    files' := AfterImageSteps(files', imagePath, env);
    var id := db.Create(Trim(body.name.value), ToCents(priceNum.value), imagePath, rec.sound, env.now);
    var newItem := db.GetById(id);
    out := Respond(Response(201, ItemBody(newItem.value)));
  }

  /**
   * What PUT /:id answers, and the rows and files it leaves: a failed intake
   * goes to the error middleware; an id that does not parse is 400 and a
   * missing row 404, both with the files stored; for an existing row the
   * image steps run and the patch decides between 400, 500 and 200.
   */
  predicate PutAnswered(
    rows: map<int, StoreItem>, rows': map<int, StoreItem>, files: set<string>, files': set<string>,
    idText: string, body: RequestBody, env: Env, out: Outcome)
  {
    var received := ReceiveFiles(body.parts, NoFiles);
    && (received.Err? ==> out == Next(received.error) && files' == files && rows' == rows)
    && (received.Ok? && ParseInt(idText).None? ==>
          out == Respond(Response(400, ErrorBody(InvalidItemId))) && files' == files + StoredPaths(received.value) && rows' == rows)
    && (received.Ok? && ParseInt(idText).Some? && ParseInt(idText).value !in rows ==>
          out == Respond(Response(404, ErrorBody(ItemNotFound))) && files' == files + StoredPaths(received.value) && rows' == rows)
    && (received.Ok? && ParseInt(idText).Some? && ParseInt(idText).value in rows ==>
          var rec := received.value;
          var id := ParseInt(idText).value;
          var p := PutPatch(body, rec);
          && files' == AfterImageSteps(files + StoredPaths(rec), rec.image, env)
          && (SuppliesNothing(p) ==> out == Respond(Response(400, ErrorBody(UpdateFailed))) && rows' == rows)
          && (!SuppliesNothing(p) && p.price == Some(NotANumber) ==>
                out == Respond(Response(500, ErrorBody(UpdateFailed))) && rows' == rows)
          && (!SuppliesNothing(p) && p.price != Some(NotANumber) ==>
                rows' == rows[id := Patched(rows[id], p)] && out == Respond(Response(200, ItemBody(Patched(rows[id], p))))))
  }

  /**
   * PUT /:id behind upload.fields(...): 400 for an id that does not parse,
   * 404 for a missing row (after the files were stored), then a partial
   * update with the supplied fields. Supplying nothing is 400; a price that
   * is not a number makes the table raise, which the handler answers with 500.
   */
  method UpdateItem(db: ItemTable, files: set<string>, idText: string, body: RequestBody, env: Env)
    returns (out: Outcome, files': set<string>)
    requires db.Valid()
    modifies db
    ensures db.Valid() && db.nextId == old(db.nextId) && db.issued == old(db.issued)
    ensures PutAnswered(old(db.rows), db.rows, files, files', idText, body, env, out)
  {
    var received := ReceiveFiles(body.parts, NoFiles);
    if received.Err? {
      return Next(received.error), files;
    }
    var rec := received.value;
    files' := files + StoredPaths(rec);
    var id := ParseInt(idText);
    if id.None? {
      return Respond(Response(400, ErrorBody(InvalidItemId))), files';
    }
    var existing := db.GetById(id.value);
    if existing.None? {
      return Respond(Response(404, ErrorBody(ItemNotFound))), files';
    }
    out, files' := UpdateFoundItem(db, files', id.value, PutPatch(body, rec), rec.image, env);
  }

  /**
   * The rest of PUT /:id once the row is known to exist: the image steps,
   * then the partial update and the answer it decides.
   */
  method UpdateFoundItem(db: ItemTable, files: set<string>, id: int, p: ItemPatch, image: Option<string>, env: Env)
    returns (out: Outcome, files': set<string>)
    requires db.Valid() && id in db.rows
    modifies db
    ensures db.Valid() && db.nextId == old(db.nextId) && db.issued == old(db.issued)
    ensures files' == AfterImageSteps(files, image, env)
    ensures SuppliesNothing(p) ==> out == Respond(Response(400, ErrorBody(UpdateFailed))) && db.rows == old(db.rows)
    ensures !SuppliesNothing(p) && p.price == Some(NotANumber) ==>
      out == Respond(Response(500, ErrorBody(UpdateFailed))) && db.rows == old(db.rows)
    ensures !SuppliesNothing(p) && p.price != Some(NotANumber) ==>
      db.rows == old(db.rows)[id := Patched(old(db.rows)[id], p)]
      && out == Respond(Response(200, ItemBody(Patched(old(db.rows)[id], p))))
  {
    files' := AfterImageSteps(files, image, env);
    var success := db.Update(id, p);
    if success.Err? {
      return Respond(Response(500, ErrorBody(UpdateFailed))), files';
    }
    if !success.value {
      return Respond(Response(400, ErrorBody(UpdateFailed))), files';
    }
    var updated := db.GetById(id);
    out := Respond(Response(200, ItemBody(updated.value)));
  }

  /**
   * What DELETE /:id answers, and the rows and files it leaves: 400 for an id
   * that does not parse and 404 for a missing row, with nothing changed;
   * otherwise 200, the row gone and its truthy locators' files unlinked.
   */
  predicate DeleteAnswered(
    rows: map<int, StoreItem>, rows': map<int, StoreItem>, files: set<string>, files': set<string>, idText: string, resp: Response)
  {
    && (ParseInt(idText).None? ==> resp == Response(400, ErrorBody(InvalidItemId)) && files' == files && rows' == rows)
    && (ParseInt(idText).Some? && ParseInt(idText).value !in rows ==>
          resp == Response(404, ErrorBody(ItemNotFound)) && files' == files && rows' == rows)
    && (ParseInt(idText).Some? && ParseInt(idText).value in rows ==>
          var id := ParseInt(idText).value;
          resp == Response(200, MessageBody(ItemDeleted)) && rows' == rows - {id} && files' == files - Locators(rows[id]))
  }

  /**
   * DELETE /:id: 400 for an id that does not parse, 404 for a missing row;
   * otherwise the row's image and sound files are unlinked where they exist,
   * the row is removed and the answer is 200.
   */
  method DeleteItem(db: ItemTable, files: set<string>, idText: string) returns (resp: Response, files': set<string>)
    requires db.Valid()
    modifies db
    ensures db.Valid() && db.nextId == old(db.nextId) && db.issued == old(db.issued)
    ensures DeleteAnswered(old(db.rows), db.rows, files, files', idText, resp)
  {
    var id := ParseInt(idText);
    if id.None? {
      return Response(400, ErrorBody(InvalidItemId)), files;
    }
    var existing := db.GetById(id.value);
    if existing.None? {
      return Response(404, ErrorBody(ItemNotFound)), files;
    }
    files' := UnlinkLocators(files, existing.value);
    var success := db.Delete(id.value);
    resp := Response(200, MessageBody(ItemDeleted));
  }

  /**
   * The decision GET /:id/image and GET /:id/sound share, given the row's
   * locator: 404 with the first message when there is no truthy locator,
   * 404 with the second when the file is gone, else the file.
   */
  function ServeLocator(locator: Option<string>, files: set<string>, missing: string, fileMissing: string): (resp: Response)
    ensures resp.status == 200 <==> IsTruthy(locator) && locator.value in files
    ensures resp.status == 200 ==> resp.body == FileBody(locator.value)
    ensures !IsTruthy(locator) ==> resp == Response(404, ErrorBody(missing))
    ensures IsTruthy(locator) && locator.value !in files ==> resp == Response(404, ErrorBody(fileMissing))
  {
    if !IsTruthy(locator) then Response(404, ErrorBody(missing))
    else if locator.value !in files then Response(404, ErrorBody(fileMissing))
    else Response(200, FileBody(locator.value))
  }

  /** What GET /:id/image answers: 400 for an id that does not parse, 404 for a missing row, else the locator decision. */
  predicate ImageAnswered(rows: map<int, StoreItem>, files: set<string>, idText: string, resp: Response) {
    && (ParseInt(idText).None? ==> resp == Response(400, ErrorBody(InvalidItemId)))
    && (ParseInt(idText).Some? && ParseInt(idText).value !in rows ==> resp == Response(404, ErrorBody(ImageNotFound)))
    && (ParseInt(idText).Some? && ParseInt(idText).value in rows ==>
          resp == ServeLocator(rows[ParseInt(idText).value].imagePath, files, ImageNotFound, ImageFileNotFound))
  }

  /** GET /:id/image: 400 for an id that does not parse, else the locator decision on the row's image path. */
  method ItemImage(db: ItemTable, files: set<string>, idText: string) returns (resp: Response)
    requires db.Valid()
    ensures ImageAnswered(db.rows, files, idText, resp)
  {
    var id := ParseInt(idText);
    if id.None? {
      return Response(400, ErrorBody(InvalidItemId));
    }
    var item := db.GetById(id.value);
    if item.None? {
      return Response(404, ErrorBody(ImageNotFound));
    }
    resp := ServeLocator(item.value.imagePath, files, ImageNotFound, ImageFileNotFound);
  }

  /** What GET /:id/sound answers: 400 for an id that does not parse, 404 for a missing row, else the locator decision. */
  predicate SoundAnswered(rows: map<int, StoreItem>, files: set<string>, idText: string, resp: Response) {
    && (ParseInt(idText).None? ==> resp == Response(400, ErrorBody(InvalidItemId)))
    && (ParseInt(idText).Some? && ParseInt(idText).value !in rows ==> resp == Response(404, ErrorBody(SoundNotFound)))
    && (ParseInt(idText).Some? && ParseInt(idText).value in rows ==>
          resp == ServeLocator(rows[ParseInt(idText).value].soundFile, files, SoundNotFound, SoundFileNotFound))
  }

  /** GET /:id/sound: 400 for an id that does not parse, else the locator decision on the row's sound file. */
  method ItemSound(db: ItemTable, files: set<string>, idText: string) returns (resp: Response)
    requires db.Valid()
    ensures SoundAnswered(db.rows, files, idText, resp)
  {
    var id := ParseInt(idText);
    if id.None? {
      return Response(400, ErrorBody(InvalidItemId));
    }
    var item := db.GetById(id.value);
    if item.None? {
      return Response(404, ErrorBody(SoundNotFound));
    }
    resp := ServeLocator(item.value.soundFile, files, SoundNotFound, SoundFileNotFound);
  }
}
