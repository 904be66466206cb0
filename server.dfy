/**
 * The Express application around the items router: which handler a request
 * reaches, the default-sound and health endpoints, the error middleware that
 * turns a failure into a response, and the catch-all 404.
 */
module Server {
  import opened Wrappers
  import opened JsText
  import opened StoreTypes
  import opened ItemsDb
  import opened FileUpload
  import opened ItemRoutes

  const FileTooLargeAdvice := "File too large. Images: 5MB max, Audio: 2MB max"
  const UnexpectedFileAdvice := "Unexpected file field. Only \"image\" and \"sound\" fields are allowed."
  const InternalError := "Internal server error"
  const RouteNotFound := "Route not found"
  const DefaultSoundMissing := "Default sound file not found"
  const DefaultSoundPath := "uploads/sounds/default-sound.mp3"

  // ----------------------------------------------------------------------
  // Error middleware
  // ----------------------------------------------------------------------

  /**
   * The error-handling middleware: a MulterError is the client's fault (400)
   * with a fixed message for the two upload codes the store names and the
   * error's own message otherwise; anything else is 500, whose message is
   * hidden in production.
   */
  function ErrorResponse(err: Failure, production: bool): (resp: Response)
    ensures resp.body.ErrorBody?
    ensures resp.status == 400 <==> err.MulterError?
    ensures resp.status == 500 <==> err.PlainError?
    ensures err.MulterError? && err.code == LimitFileSize ==> resp.body.error == FileTooLargeAdvice
    ensures err.MulterError? && err.code == LimitUnexpectedFile ==> resp.body.error == UnexpectedFileAdvice
    ensures err.MulterError? && err.code != LimitFileSize && err.code != LimitUnexpectedFile ==> resp.body.error == err.message
    ensures err.PlainError? ==> resp.body.error == if production then InternalError else err.message
  {
    match err
    case MulterError(code, message) =>
      if code == LimitFileSize then Response(400, ErrorBody(FileTooLargeAdvice))
      else if code == LimitUnexpectedFile then Response(400, ErrorBody(UnexpectedFileAdvice))
      else Response(400, ErrorBody(message))
    case PlainError(message) =>
      Response(500, ErrorBody(if production then InternalError else message))
  }

  /** In production no message of a plain Error reaches the client. */
  lemma ProductionHidesMessages(message: string)
    ensures ErrorResponse(PlainError(message), true) == Response(500, ErrorBody(InternalError))
    ensures ErrorResponse(PlainError(message), false) == Response(500, ErrorBody(message))
  {
  }

  /** The catch-all handler app.use('*'). */
  const NotFoundResponse := Response(404, ErrorBody(RouteNotFound))

  // ----------------------------------------------------------------------
  // Paths and routes
  // ----------------------------------------------------------------------

  /** String.prototype.split('/'). */
  function Split(s: string): (r: seq<string>)
    ensures |r| >= 1
    ensures forall i :: 0 <= i < |r| ==> Lacks(r[i], '/')
    decreases |s|
  {
    var i := IndexOf(s, '/');
    if i < 0 then [s]
    else
      var tail := Split(s[i + 1..]);
      PrefixLacks(s, '/', i);
      var r := [s[..i]] + tail;
      assert forall j :: 0 < j < |r| ==> r[j] == tail[j - 1];
      r
  }

  /** The part before the first occurrence of c does not contain c. */
  lemma PrefixLacks(s: string, c: char, i: int)
    requires 0 <= i <= |s| && forall k :: 0 <= k < i ==> s[k] != c
    ensures Lacks(s[..i], c)
  {
    assert forall k :: 0 <= k < i ==> s[..i][k] == s[k];
  }

  /** A piece without a slash splits into itself, and joining with a slash is undone by the split. */
  lemma SplitJoin(a: string, b: string)
    requires Lacks(a, '/')
    ensures Split(a) == [a]
    ensures Split(a + "/" + b) == [a] + Split(b)
  {
    LacksIndexOf(a, '/');
    var s := a + "/" + b;
    forall k | 0 <= k < |a| ensures s[k] != '/' {
      assert s[k] == a[k];
    }
    FirstIndexOfIs(s, '/', |a|);
    assert s[..|a|] == a;
    assert s[|a| + 1..] == b;
  }

  lemma LacksIndexOf(s: string, c: char)
    requires Lacks(s, c)
    ensures IndexOf(s, c) == -1
  {
  }

  lemma {:induction false} FirstIndexOfIs(s: string, c: char, i: int)
    requires 0 <= i < |s| && s[i] == c
    requires forall k :: 0 <= k < i ==> s[k] != c
    ensures IndexOf(s, c) == i
  {
    if i > 0 {
      assert s[0] != c;
      FirstIndexOfIs(s[1..], c, i - 1);
    }
  }

  /**
   * The segments Express matches a path against: the path must start with
   * '/', and routing is not strict, so one trailing slash is ignored.
   */
  function Segments(path: string): (r: Option<seq<string>>)
    ensures r.Some? ==> forall i :: 0 <= i < |r.value| ==> Lacks(r.value[i], '/')
  {
    if |path| == 0 || path[0] != '/' then None
    else
      var pieces := Split(path[1..]);
      if pieces[|pieces| - 1] == "" then Some(pieces[..|pieces| - 1]) else Some(pieces)
  }

  datatype Verb = GET | POST | PUT | DELETE | OtherVerb

  /** The endpoint a request reaches; the router's routes carry the raw :id parameter. */
  datatype Route =
    | ListRoute
    | GetRoute(id: string)
    | CreateRoute
    | UpdateRoute(id: string)
    | DeleteRoute(id: string)
    | ImageRoute(id: string)
    | SoundRoute(id: string)
    | DefaultSoundRoute
    | HealthRoute
    | NoRoute

  /**
   * Route matching in registration order: the router mounted at /api/items
   * (GET /, GET /:id, POST /, PUT /:id, DELETE /:id, GET /:id/image,
   * GET /:id/sound), then GET /api/default-sound and GET /health. A
   * parameter matches one non-empty segment.
   */
  function RouteOf(verb: Verb, segs: seq<string>): (r: Route)
    ensures r.GetRoute? || r.UpdateRoute? || r.DeleteRoute? || r.ImageRoute? || r.SoundRoute? ==>
      |segs| >= 3 && segs[..2] == ["api", "items"] && r.id == segs[2] && r.id != ""
  {
    if |segs| >= 2 && segs[0] == "api" && segs[1] == "items" then
      if |segs| == 2 then
        if verb == GET then ListRoute else if verb == POST then CreateRoute else NoRoute
      else if segs[2] == "" then NoRoute
      else if |segs| == 3 then
        if verb == GET then GetRoute(segs[2])
        else if verb == PUT then UpdateRoute(segs[2])
        else if verb == DELETE then DeleteRoute(segs[2])
        else NoRoute
      else if |segs| == 4 && verb == GET && segs[3] == "image" then ImageRoute(segs[2])
      else if |segs| == 4 && verb == GET && segs[3] == "sound" then SoundRoute(segs[2])
      else NoRoute
    else if segs == ["api", "default-sound"] && verb == GET then DefaultSoundRoute
    else if segs == ["health"] && verb == GET then HealthRoute
    else NoRoute
  }

  /** The route a raw request path reaches; a path Express cannot parse reaches none. */
  function RouteOfPath(verb: Verb, path: string): Route {
    match Segments(path)
    case None => NoRoute
    case Some(segs) => RouteOf(verb, segs)
  }

  /** A path of three plain segments is read back as those segments. */
  lemma SegmentsOfThree(a: string, b: string, c: string)
    requires Lacks(a, '/') && Lacks(b, '/') && Lacks(c, '/') && c != ""
    ensures Segments("/" + (a + "/" + (b + "/" + c))) == Some([a, b, c])
  {
    var path := "/" + (a + "/" + (b + "/" + c));
    assert path[1..] == a + "/" + (b + "/" + c);
    SplitJoin(a, b + "/" + c);
    SplitJoin(b, c);
    SplitJoin(c, "");
    assert Split(path[1..]) == [a, b, c];
  }

  /** Any one-segment path under /api/items reaches GET /:id for a GET. */
  lemma ItemPathRoutes(word: string)
    requires Lacks(word, '/') && word != ""
    ensures RouteOfPath(GET, "/api/items/" + word) == GetRoute(word)
  {
    SegmentsOfThree("api", "items", word);
    ItemsPath(word);
  }

  lemma ItemsPath(word: string)
    ensures "/api/items/" + word == "/" + ("api" + "/" + ("items" + "/" + word))
  {
    assert "/api/items/" == "/" + "api" + "/" + "items" + "/";
  }

  /** The router's own GET /default-sound is unreachable: GET /:id, registered first, takes the request and answers 400. */
  lemma RouterDefaultSoundShadowed()
    ensures RouteOfPath(GET, "/api/items/" + "default-sound") == GetRoute("default-sound")
    ensures ParseInt("default-sound").None?
  {
    ItemPathRoutes("default-sound");
    WordIsNotAnInteger();
  }

  lemma WordIsNotAnInteger()
    ensures ParseInt("default-sound").None?
  {
    var word := "default-sound";
    assert !IsJsSpace(word[0]);
    assert TrimStart(word) == word;
    assert StripSign(word) == word;
    assert DigitRun(word, 10) == 0;
    assert ParseMagnitude(word).None?;
  }

  /** GET /api/default-sound: the bundled sound, or 404 when it is missing. */
  function DefaultSound(files: set<string>): (resp: Response)
    ensures resp.status == 200 <==> DefaultSoundPath in files
    ensures resp.status != 200 ==> resp == Response(404, ErrorBody(DefaultSoundMissing))
  {
    if DefaultSoundPath !in files then Response(404, ErrorBody(DefaultSoundMissing))
    else Response(200, FileBody(DefaultSoundPath))
  }

  /** The routes whose handlers neither write the table nor touch a file. */
  predicate ReadOnly(r: Route) {
    r.ListRoute? || r.GetRoute? || r.ImageRoute? || r.SoundRoute? || r.DefaultSoundRoute? || r.HealthRoute? || r.NoRoute?
  }

  /** A request as the application sees it. */
  datatype Request = Request(verb: Verb, path: string, body: RequestBody)

  /** The response to an Outcome once the error middleware has seen it. */
  function Finish(out: Outcome, production: bool): (resp: Response)
    ensures out.Respond? ==> resp == out.response
    ensures out.Next? ==> resp == ErrorResponse(out.failure, production)
  {
    match out
    case Respond(r) => r
    case Next(err) => ErrorResponse(err, production)
  }

  /**
   * One request through the application: route it, run the handler, pass a
   * failure through the error middleware, and answer 404 when nothing matched.
   */
  method Handle(db: ItemTable, files: set<string>, req: Request, env: Env, production: bool)
    returns (resp: Response, files': set<string>)
    requires db.Valid()
    modifies db
    ensures db.Valid()
    ensures ReadOnly(RouteOfPath(req.verb, req.path)) ==> unchanged(db) && files' == files
    ensures ReadOnly(RouteOfPath(req.verb, req.path)) ==> Served(db.rows, files, RouteOfPath(req.verb, req.path), resp)
    ensures !ReadOnly(RouteOfPath(req.verb, req.path)) ==>
      Changed(old(db.rows), old(db.nextId), old(db.issued), db.rows, db.nextId, files, files',
        RouteOfPath(req.verb, req.path), req.body, env, production, resp)
  {
    var route := RouteOfPath(req.verb, req.path);
    if ReadOnly(route) {
      resp := Serve(db, files, route);
      files' := files;
    } else {
      resp, files' := Change(db, files, route, req.body, env, production);
    }
  }

  /** The answer of each read-only route: the handler it reaches decides it from the rows and files as they are. */
  ghost predicate Served(rows: map<int, StoreItem>, files: set<string>, route: Route, resp: Response) {
    && (route == ListRoute ==> ListAnswered(rows, resp))
    && (route.GetRoute? ==> GetAnswered(rows, route.id, resp))
    && (route.ImageRoute? ==> ImageAnswered(rows, files, route.id, resp))
    && (route.SoundRoute? ==> SoundAnswered(rows, files, route.id, resp))
    && (route == DefaultSoundRoute ==> resp == DefaultSound(files))
    && (route == HealthRoute ==> resp == Response(200, StatusBody("OK")))
    && (route == NoRoute ==> resp == NotFoundResponse)
  }

  /**
   * The answer of each writing route, and the rows and files it leaves: the
   * handler it reaches decides its outcome, and a failure is answered by the
   * error middleware.
   */
  ghost predicate Changed(
    rows: map<int, StoreItem>, nextId: int, issued: set<int>, rows': map<int, StoreItem>, nextId': int,
    files: set<string>, files': set<string>, route: Route, body: RequestBody, env: Env, production: bool, resp: Response)
  {
    && (route == CreateRoute ==>
          exists out :: resp == Finish(out, production) && PostAnswered(rows, nextId, issued, rows', nextId', files, body, env, out, files'))
    && (route.UpdateRoute? ==>
          nextId' == nextId
          && exists out :: resp == Finish(out, production) && PutAnswered(rows, rows', files, files', route.id, body, env, out))
    && (route.DeleteRoute? ==> nextId' == nextId && DeleteAnswered(rows, rows', files, files', route.id, resp))
  }

  /** The read-only routes: they answer from the table and the files as they are. */
  method Serve(db: ItemTable, files: set<string>, route: Route) returns (resp: Response)
    requires db.Valid() && ReadOnly(route)
    ensures Served(db.rows, files, route, resp)
  {
    match route {
      case ListRoute =>
        resp := ListItems(db);
      case GetRoute(id) =>
        resp := GetItem(db, id);
      case ImageRoute(id) =>
        resp := ItemImage(db, files, id);
      case SoundRoute(id) =>
        resp := ItemSound(db, files, id);
      case DefaultSoundRoute =>
        resp := DefaultSound(files);
      case HealthRoute =>
        resp := Response(200, StatusBody("OK"));
      case NoRoute =>
        resp := NotFoundResponse;
    }
  }

  /** The routes that write: POST, PUT and DELETE, with failures passed to the error middleware. */
  method Change(db: ItemTable, files: set<string>, route: Route, body: RequestBody, env: Env, production: bool)
    returns (resp: Response, files': set<string>)
    requires db.Valid() && (route.CreateRoute? || route.UpdateRoute? || route.DeleteRoute?)
    modifies db
    ensures db.Valid()
    ensures Changed(old(db.rows), old(db.nextId), old(db.issued), db.rows, db.nextId, files, files', route, body, env, production, resp)
  {
    match route {
      case CreateRoute =>
        var out;
        out, files' := CreateItem(db, files, body, env);
        resp := Finish(out, production);
        assert resp == Finish(out, production);
      case UpdateRoute(id) =>
        var out;
        out, files' := UpdateItem(db, files, id, body, env);
        resp := Finish(out, production);
        assert resp == Finish(out, production);
      case DeleteRoute(id) =>
        resp, files' := DeleteItem(db, files, id);
    }
  }
}
