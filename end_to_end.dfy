/**
 * How the client and the server fit together: the multipart form the API
 * service builds as the server's multer reads it, the client's validator
 * against the server's, the edit form's round trip through PUT, the URLs
 * the client builds against the server's routes, and the server's errors
 * as the client raises them.
 */
module EndToEnd {
  import opened Wrappers
  import opened JsText
  import opened StoreTypes
  import opened ItemsDb
  import opened FileUpload
  import opened ItemRoutes
  import opened Server
  import opened ApiClient
  import opened ItemEditor

  /** The file parts of a form, in order, each with the clock and random readings its name takes. */
  function PartsOf(entries: seq<FormEntry>, time: nat, rand: nat): (r: seq<FilePart>)
    ensures |r| <= |entries|
  {
    if |entries| == 0 then []
    else
      var e := entries[0];
      (if e.value.FileValue? then [FilePart(e.key, e.value.file, time, rand)] else []) + PartsOf(entries[1..], time, rand)
  }

  /**
   * The body the handlers read from a multipart form: the first text value
   * of name and of price (none when absent, `undefined` in JavaScript) and
   * the file parts.
   */
  function ServerBody(data: seq<FormEntry>, time: nat, rand: nat): RequestBody {
    var names, prices := TextValues(data, "name"), TextValues(data, "price");
    RequestBody(
      if |names| == 0 then None else Some(names[0]),
      if |prices| == 0 then None else Some(prices[0]),
      PartsOf(FileEntries(data), time, rand))
  }

  /** What a server response makes the client raise: the body's error for a status outside 2xx. */
  function ClientError(resp: Response, fallback: string): Option<string> {
    RaisedError(200 <= resp.status < 300, if resp.body.ErrorBody? then Some(resp.body.error) else None, fallback)
  }

  // ----------------------------------------------------------------------
  // Create
  // ----------------------------------------------------------------------

  /**
   * The form createItem sends reaches the server with the same name and
   * price text, and the client's validator accepts the form exactly when
   * POST's validation accepts the body.
   */
  lemma ValidationAgrees(form: ItemForm, data: seq<FormEntry>, time: nat, rand: nat)
    requires Sends(data, Some(form.name), Some(form.price), form.image, form.sound)
    ensures ServerBody(data, time, rand).name == Some(form.name)
    ensures ServerBody(data, time, rand).price == Some(form.price)
    ensures FormValid(form) <==>
      NameGiven(ServerBody(data, time, rand).name) && PriceAccepted(ParsePrice(ServerBody(data, time, rand).price))
  {
  }

  /**
   * The files a form attaches pass the server's intake exactly when each
   * passes its field's filter and the router's size limit; the handler then
   * sees an image path exactly when an image was attached, and likewise for
   * the sound.
   */
  lemma AttachmentsReceived(image: Option<UploadFile>, sound: Option<UploadFile>, time: nat, rand: nat)
    ensures var got := ReceiveFiles(PartsOf(Attachments(image, sound), time, rand), NoFiles);
      && (got.Ok? <==>
            (image.Some? ==> ImageFilter(image.value).Accept? && WithinLimit(image.value, RouterSizeLimit)) &&
            (sound.Some? ==> AudioFilter(sound.value).Accept? && WithinLimit(sound.value, RouterSizeLimit)))
      && (got.Ok? ==> (got.value.image.Some? <==> image.Some?) && (got.value.sound.Some? <==> sound.Some?))
  {
    var imageParts := if image.Some? then [FilePart("image", image.value, time, rand)] else [];
    var soundParts := if sound.Some? then [FilePart("sound", sound.value, time, rand)] else [];
    var imageEntries := if image.Some? then [FormEntry("image", FileValue(image.value))] else [];
    var soundEntries := if sound.Some? then [FormEntry("sound", FileValue(sound.value))] else [];
    assert PartsOf(soundEntries, time, rand) == soundParts;
    assert PartsOf(imageEntries + soundEntries, time, rand) == imageParts + soundParts by {
      if image.Some? {
        assert (imageEntries + soundEntries)[1..] == soundEntries;
      } else {
        assert imageEntries + soundEntries == soundEntries;
      }
    }
    SoundAfter(NoFiles, sound, time, rand);
    if image.Some? {
      var p := FilePart("image", image.value, time, rand);
      if ReceivePart(p).Ok? {
        var got' := Take(NoFiles, "image", ReceivePart(p).value);
        assert ([p] + soundParts)[1..] == soundParts;
        assert ReceiveFiles([p] + soundParts, NoFiles) == ReceiveFiles(soundParts, got');
        SoundAfter(got', sound, time, rand);
      }
    } else {
      assert imageParts + soundParts == soundParts;
    }
  }

  /** A sound part alone, after whatever image the intake already holds. */
  lemma SoundAfter(got: Received, sound: Option<UploadFile>, time: nat, rand: nat)
    requires got.sound.None?
    ensures var soundParts := if sound.Some? then [FilePart("sound", sound.value, time, rand)] else [];
      var r := ReceiveFiles(soundParts, got);
      && (r.Ok? <==> (sound.Some? ==> AudioFilter(sound.value).Accept? && WithinLimit(sound.value, RouterSizeLimit)))
      && (r.Ok? ==> r.value.image == got.image && (r.value.sound.Some? <==> sound.Some?))
  {
    if sound.Some? {
      var p := FilePart("sound", sound.value, time, rand);
      assert [p][1..] == [];
    }
  }

  /**
   * An image of a type the filter refuses fails the intake with a plain
   * Error, which the server answers with 500; in production the client then
   * raises "Internal server error", not the filter's explanation.
   */
  lemma RefusedImageType(f: UploadFile, time: nat, rand: nat)
    requires ImageFilter(f).Reject?
    ensures ReceiveFiles([FilePart("image", f, time, rand)], NoFiles) == Err(PlainError(ImageTypeError))
    ensures ErrorResponse(PlainError(ImageTypeError), true) == Response(500, ErrorBody(InternalError))
    ensures ClientError(ErrorResponse(PlainError(ImageTypeError), true), CreateFailedFallback) == Some(InternalError)
    ensures ClientError(ErrorResponse(PlainError(ImageTypeError), false), CreateFailedFallback) == Some(ImageTypeError)
  {
  }

  /** An image of an allowed type over the limit is the client's fault: 400 with the size advice. */
  lemma OversizedImage(f: UploadFile, time: nat, rand: nat)
    requires ImageFilter(f).Accept? && !WithinLimit(f, RouterSizeLimit)
    ensures ReceiveFiles([FilePart("image", f, time, rand)], NoFiles) == Err(MulterError(LimitFileSize, FileTooLarge))
    ensures ClientError(ErrorResponse(MulterError(LimitFileSize, FileTooLarge), true), CreateFailedFallback) == Some(FileTooLargeAdvice)
  {
  }

  // ----------------------------------------------------------------------
  // Edit
  // ----------------------------------------------------------------------

  lemma EmptyIsNotANumber()
    ensures ParseFloat("").None?
  {
    assert TrimStart("") == "";
    assert StripSign("") == "";
  }

  /**
   * Saving the prefilled edit form of an item untouched sends its name, when
   * it has one, and its price text, no files; PUT then writes the same price
   * back, so the row is the same except that its name is trimmed.
   */
  lemma UntouchedEditKeepsItem(item: StoreItem, data: seq<FormEntry>, time: nat, rand: nat)
    requires var f := Prefill(Some(item));
      Sends(data, WhenTruthy(Some(f.name)), WhenTruthy(Some(f.price)), f.image, f.sound)
    ensures ServerBody(data, time, rand).parts == []
    ensures ReceiveFiles(ServerBody(data, time, rand).parts, NoFiles) == Ok(NoFiles)
    ensures PutPatch(ServerBody(data, time, rand), NoFiles).price == Some(Cents(item.price))
    ensures Patched(item, PutPatch(ServerBody(data, time, rand), NoFiles)) == item.(name := Trim(item.name))
  {
    UntouchedEditBody(item, data, time, rand);
    var price := Prefill(Some(item)).price;
    PatchOfUntouchedEdit(item, price);
  }

  /** The body an untouched edit form arrives as. */
  lemma UntouchedEditBody(item: StoreItem, data: seq<FormEntry>, time: nat, rand: nat)
    requires var f := Prefill(Some(item));
      Sends(data, WhenTruthy(Some(f.name)), WhenTruthy(Some(f.price)), f.image, f.sound)
    ensures ServerBody(data, time, rand) == RequestBody(WhenTruthy(Some(item.name)), Some(Prefill(Some(item)).price), [])
  {
    var f := Prefill(Some(item));
    EmptyIsNotANumber();
    assert f.price != "";
    assert Attachments(None, None) == [];
  }

  /** PUT on that body: the price text parses back to the stored price and the name is the trimmed name. */
  lemma PatchOfUntouchedEdit(item: StoreItem, price: string)
    requires ParseFloat(price).Some? && ToCents(ParseFloat(price).value) == item.price && price != ""
    ensures PutPatch(RequestBody(WhenTruthy(Some(item.name)), Some(price), []), NoFiles) ==
      ItemPatch(if item.name == "" then None else Some(Trim(item.name)), Some(Cents(item.price)), None, None)
    ensures Patched(item, PutPatch(RequestBody(WhenTruthy(Some(item.name)), Some(price), []), NoFiles)) == item.(name := Trim(item.name))
  {
    var p := PutPatch(RequestBody(WhenTruthy(Some(item.name)), Some(price), []), NoFiles);
    assert p.price == Some(Cents(item.price));
    assert p.name == if item.name == "" then None else Some(Trim(item.name));
    assert p.imagePath.None? && p.soundFile.None?;
    PatchedWithOwnPrice(item);
  }

  /** Writing back an item's own price and its trimmed name changes only the name. */
  lemma PatchedWithOwnPrice(item: StoreItem)
    ensures Patched(item, ItemPatch(if item.name == "" then None else Some(Trim(item.name)), Some(Cents(item.price)), None, None))
      == item.(name := Trim(item.name))
  {
    TrimEmptyIffBlank("");
  }

  // ----------------------------------------------------------------------
  // URLs
  // ----------------------------------------------------------------------

  lemma DecimalLacksSlash(i: int)
    ensures Lacks(IntToDecimal(i), '/') && IntToDecimal(i) != ""
  {
    var s := IntToDecimal(i);
    if i < 0 {
      var m := NatToDecimal(-i);
      forall k | 0 <= k < |s| ensures s[k] != '/' {
        if k > 0 {
          assert s[k] == m[k - 1];
        }
      }
    }
  }

  /** A path of four plain segments is read back as those segments. */
  lemma SegmentsOfFour(a: string, b: string, c: string, d: string)
    requires Lacks(a, '/') && Lacks(b, '/') && Lacks(c, '/') && Lacks(d, '/') && d != ""
    ensures Segments("/" + (a + "/" + (b + "/" + (c + "/" + d)))) == Some([a, b, c, d])
  {
    var t2 := c + "/" + d;
    var t1 := b + "/" + t2;
    var t0 := a + "/" + t1;
    SplitJoin(d, "");
    SplitCons(c, d, [d]);
    SplitCons(b, t2, [c] + [d]);
    SplitCons(a, t1, [b] + ([c] + [d]));
    FourPieces(a, b, c, d);
    SegmentsOfSlashed(t0, [a, b, c, d]);
  }

  /** Splitting a slash-free piece, a slash and some text gives the piece and then the split of the text. */
  lemma SplitCons(a: string, b: string, rest: seq<string>)
    requires Lacks(a, '/') && Split(b) == rest
    ensures Split(a + "/" + b) == [a] + rest
  {
    SplitJoin(a, b);
  }

  lemma FourPieces(a: string, b: string, c: string, d: string)
    ensures [a] + ([b] + ([c] + [d])) == [a, b, c, d]
  {
  }

  /** A path is its slash and the text behind it; the split of that text is the path's segments when its last piece is not empty. */
  lemma SegmentsOfSlashed(t: string, pieces: seq<string>)
    requires Split(t) == pieces && pieces[|pieces| - 1] != ""
    ensures Segments("/" + t) == Some(pieces)
  {
    assert ("/" + t)[1..] == t;
  }

  lemma Assoc(a: string, b: string, c: string)
    ensures a + b + c == a + (b + c)
  {
  }

  /** The client's item-file URL, regrouped segment by segment. */
  lemma UrlShape(d: string, w: string)
    ensures ApiBase + "/items/" + d + "/" + w == "/" + ("api" + "/" + ("items" + "/" + (d + "/" + w)))
  {
    var tail := d + "/" + w;
    assert ApiBase + "/items/" == "/" + "api" + "/" + "items" + "/";
    Assoc(ApiBase + "/items/" + d, "/", w);
    Assoc(ApiBase + "/items/", d, "/" + w);
    assert "/" + ("api" + "/" + ("items" + "/" + tail)) == "/api/items/" + tail;
  }

  lemma ItemFileUrl(id: int, word: string)
    requires Lacks(word, '/') && word != ""
    ensures Segments(ApiBase + "/items/" + IntToDecimal(id) + "/" + word) == Some(["api", "items", IntToDecimal(id), word])
  {
    var d := IntToDecimal(id);
    DecimalLacksSlash(id);
    SegmentsOfFour("api", "items", d, word);
    UrlShape(d, word);
  }

  lemma LastSegment(prefix: string)
    ensures prefix + "/image" == prefix + "/" + "image"
    ensures prefix + "/sound" == prefix + "/" + "sound"
  {
    assert "/image" == "/" + "image";
    assert "/sound" == "/" + "sound";
  }

  /** The route a GET for an item's file reaches. */
  lemma ItemFileRoute(id: int, word: string)
    requires word == "image" || word == "sound"
    ensures var d := IntToDecimal(id);
      RouteOfPath(GET, ApiBase + "/items/" + d + "/" + word) == (if word == "image" then ImageRoute(d) else SoundRoute(d))
  {
    ItemFileUrl(id, word);
    DecimalLacksSlash(id);
  }

  /** The image and sound URLs the client builds reach the routes for that item, whose id parses back to it. */
  lemma UrlsReachItem(id: int)
    ensures RouteOfPath(GET, ImageUrl(id)) == ImageRoute(IntToDecimal(id))
    ensures RouteOfPath(GET, SoundUrl(id)) == SoundRoute(IntToDecimal(id))
    ensures ParseInt(IntToDecimal(id)) == Some(id)
  {
    ItemFileRoute(id, "image");
    ItemFileRoute(id, "sound");
    LastSegment(ApiBase + "/items/" + IntToDecimal(id));
    ParseIntOfDecimal(id);
  }
}
