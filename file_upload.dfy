/**
 * The upload policy of the backend: which MIME types each kind of file may
 * have, how large it may be, the name it is stored under, and the path
 * rewriting that places the processed image and its thumbnail beside the
 * upload. The file system is a set of existing paths; the image library is a
 * success flag per call. Directories are relative to the backend folder.
 */
module FileUpload {
  import opened Wrappers
  import opened JsText
  import opened StoreTypes

  const MiB: nat := 1024 * 1024
  const ImageSizeLimit: nat := 5 * MiB
  const SoundSizeLimit: nat := 2 * MiB

  const ImagesDir := "uploads/images"
  const SoundsDir := "uploads/sounds"

  const ImageTypes: seq<string> := ["image/jpeg", "image/png", "image/webp"]
  const AudioTypes: seq<string> := ["audio/mpeg", "audio/wav", "audio/ogg", "audio/mp3"]
  const ImageTypeError := "Only JPEG, PNG, and WebP images are allowed"
  const AudioTypeError := "Only MP3, WAV, and OGG audio files are allowed"

  /** The multer error codes and the messages multer gives them. */
  const LimitFileSize := "LIMIT_FILE_SIZE"
  const LimitUnexpectedFile := "LIMIT_UNEXPECTED_FILE"
  const FileTooLarge := "File too large"
  const UnexpectedField := "Unexpected field"

  /** What an upload middleware hands to the next error handler: a MulterError, or a plain Error from user code. */
  datatype Failure = MulterError(code: string, message: string) | PlainError(message: string)

  /** A file filter's answer: accept the file, or fail the request with a plain Error. */
  datatype Verdict = Accept | Reject(message: string)

  // ----------------------------------------------------------------------
  // Type filters and size limits
  // ----------------------------------------------------------------------

  /** imageFilter: JPEG, PNG and WebP pass; anything else is refused with the image message. */
  function ImageFilter(f: UploadFile): (v: Verdict)
    ensures v.Accept? <==> f.mimeType == "image/jpeg" || f.mimeType == "image/png" || f.mimeType == "image/webp"
    ensures v.Reject? ==> v.message == ImageTypeError
  {
    if f.mimeType in ImageTypes then Accept else Reject(ImageTypeError)
  }

  /** audioFilter: audio/mpeg, audio/wav, audio/ogg and audio/mp3 pass; anything else is refused with the audio message. */
  function AudioFilter(f: UploadFile): (v: Verdict)
    ensures v.Accept? <==> f.mimeType == "audio/mpeg" || f.mimeType == "audio/wav" || f.mimeType == "audio/ogg" || f.mimeType == "audio/mp3"
    ensures v.Reject? ==> v.message == AudioTypeError
  {
    if f.mimeType in AudioTypes then Accept else Reject(AudioTypeError)
  }

  /** No MIME type passes both filters, so an image upload is never accepted as a sound or the other way round. */
  lemma FiltersDisjoint(f: UploadFile)
    ensures ImageFilter(f).Accept? ==> AudioFilter(f).Reject?
    ensures AudioFilter(f).Accept? ==> ImageFilter(f).Reject?
  {
  }

  /** multer's fileSize limit: a file larger than the limit aborts the upload; one of exactly the limit is stored. */
  predicate WithinLimit(f: UploadFile, limit: nat) {
    f.size <= limit
  }

  // ----------------------------------------------------------------------
  // Stored file names
  // ----------------------------------------------------------------------

  /** The path with its trailing slashes removed. */
  function StripTrailingSlashes(s: string): (r: string)
    ensures |r| <= |s| && r == s[..|r|]
    ensures r == [] || r[|r| - 1] != '/'
  {
    if |s| > 0 && s[|s| - 1] == '/' then StripTrailingSlashes(s[..|s| - 1]) else s
  }

  /** The last component of a slash-separated path. */
  function Basename(s: string): (r: string)
    ensures Lacks(r, '/')
  {
    var t := StripTrailingSlashes(s);
    var k := LastIndexOf(t, '/');
    t[k + 1..]
  }

  /**
   * Node's path.extname: from the last '.' of the base name to its end; empty
   * when the base name has no '.', when its last '.' is its first character,
   * or when it is "..".
   */
  function Extname(name: string): (e: string)
    ensures e == [] || (e[0] == '.' && Lacks(e[1..], '.'))
    ensures Lacks(e, '/')
  {
    var b := Basename(name);
    var d := LastIndexOf(b, '.');
    if d <= 0 || b == ".." then "" else b[d..]
  }

  /** A plain file name "stem.ext" has the extension ".ext". */
  lemma ExtnameOfPlainName(stem: string, ext: string)
    requires stem != [] && Lacks(stem, '/')
    requires ext != [] && Lacks(ext, '.') && Lacks(ext, '/')
    ensures Extname(stem + "." + ext) == "." + ext
  {
    var name := stem + "." + ext;
    assert name[|name| - 1] == ext[|ext| - 1];
    assert StripTrailingSlashes(name) == name;
    forall k | 0 <= k < |name| ensures name[k] != '/' {
      if k < |stem| {
        assert name[k] == stem[k];
      } else if k > |stem| {
        assert name[k] == ext[k - |stem| - 1];
      }
    }
    LastIndexOfIs(name, '/', -1);
    assert Basename(name) == name;
    forall k | |stem| < k < |name| ensures name[k] != '.' {
      assert name[k] == ext[k - |stem| - 1];
    }
    LastIndexOfIs(name, '.', |stem|);
    assert name[|stem|..] == "." + ext;
  }

  /** A name with no '.' at all has no extension. */
  lemma ExtnameWithoutDot(name: string)
    requires Lacks(name, '.')
    ensures Extname(name) == ""
  {
    var t := StripTrailingSlashes(name);
    var k := LastIndexOf(t, '/');
    var b := t[k + 1..];
    forall i | 0 <= i < |b| ensures b[i] != '.' {
      assert b[i] == t[k + 1 + i] == name[k + 1 + i];
    }
    LastIndexOfIs(b, '.', -1);
  }

  /** Date.now() + '-' + Math.round(Math.random() * 1E9), with both readings passed in. */
  function UniqueSuffix(time: nat, rand: nat): string {
    NatToDecimal(time) + "-" + NatToDecimal(rand)
  }

  /** The storage filename callback: prefix, unique suffix, then the extension of the browser's file name. */
  function StoredName(prefix: string, time: nat, rand: nat, originalName: string): string {
    prefix + UniqueSuffix(time, rand) + Extname(originalName)
  }

  /** path.join of a destination directory and a stored file name. */
  function StoredPath(dir: string, name: string): string {
    dir + "/" + name
  }

  const ImagePrefix := "item-"
  const SoundPrefix := "sound-"

  /** A digit string followed by something that does not start with a digit is recovered from the concatenation. */
  lemma DigitsPrefixDetermined(a1: string, b1: string, a2: string, b2: string)
    requires AllRadixDigits(a1, 10) && (b1 == [] || !IsDigit(b1[0]))
    requires AllRadixDigits(a2, 10) && (b2 == [] || !IsDigit(b2[0]))
    requires a1 + b1 == a2 + b2
    ensures a1 == a2 && b1 == b2
  {
    DigitRunOfDigits(a1, b1, 10);
    DigitRunOfDigits(a2, b2, 10);
    assert a1 == (a1 + b1)[..|a1|];
    assert a2 == (a2 + b2)[..|a2|];
    assert b1 == (a1 + b1)[|a1|..];
    assert b2 == (a2 + b2)[|a2|..];
  }

  /** A decimal rendering determines the number it renders. */
  lemma NatToDecimalInjective(m: nat, n: nat)
    requires NatToDecimal(m) == NatToDecimal(n)
    ensures m == n
  {
    assert RadixValue(NatToDecimal(m), 10) == m;
  }

  /**
   * Two stored names with the same prefix are equal only when both clock
   * readings, both random readings and both extensions are: the name scheme
   * never maps two different uploads to one file unless the readings repeat.
   */
  lemma StoredNameInjective(prefix: string, t1: nat, r1: nat, o1: string, t2: nat, r2: nat, o2: string)
    requires StoredName(prefix, t1, r1, o1) == StoredName(prefix, t2, r2, o2)
    ensures t1 == t2 && r1 == r2 && Extname(o1) == Extname(o2)
  {
    var x1 := StoredNameTail(prefix, t1, r1, o1);
    var x2 := StoredNameTail(prefix, t2, r2, o2);
    assert x1 == x2;
    SuffixDetermined(t1, r1, Extname(o1), t2, r2, Extname(o2));
  }

  /** What follows the prefix in a stored name. */
  lemma StoredNameTail(prefix: string, t: nat, r: nat, o: string) returns (x: string)
    ensures x == NatToDecimal(t) + ("-" + (NatToDecimal(r) + Extname(o)))
    ensures x == StoredName(prefix, t, r, o)[|prefix|..]
  {
    x := NatToDecimal(t) + ("-" + (NatToDecimal(r) + Extname(o)));
    Regroup(prefix, NatToDecimal(t), "-", NatToDecimal(r), Extname(o));
  }

  /** Concatenation regrouped to the right. */
  lemma Regroup(p: string, a: string, b: string, c: string, d: string)
    ensures p + (a + b + c) + d == p + (a + (b + (c + d)))
    ensures (p + (a + (b + (c + d))))[|p|..] == a + (b + (c + d))
  {
  }

  /** The unique suffix followed by an extension determines both readings and the extension. */
  lemma SuffixDetermined(t1: nat, r1: nat, e1: string, t2: nat, r2: nat, e2: string)
    requires e1 == [] || e1[0] == '.'
    requires e2 == [] || e2[0] == '.'
    requires NatToDecimal(t1) + ("-" + (NatToDecimal(r1) + e1)) == NatToDecimal(t2) + ("-" + (NatToDecimal(r2) + e2))
    ensures t1 == t2 && r1 == r2 && e1 == e2
  {
    var b1, b2 := NatToDecimal(r1), NatToDecimal(r2);
    DigitsPrefixDetermined(NatToDecimal(t1), "-" + (b1 + e1), NatToDecimal(t2), "-" + (b2 + e2));
    NatToDecimalInjective(t1, t2);
    assert b1 + e1 == ("-" + (b1 + e1))[1..];
    assert b2 + e2 == ("-" + (b2 + e2))[1..];
    DigitsPrefixDetermined(b1, e1, b2, e2);
    NatToDecimalInjective(r1, r2);
  }

  /** An image's stored name and a sound's stored name never coincide. */
  lemma ImageAndSoundNamesDiffer(t1: nat, r1: nat, o1: string, t2: nat, r2: nat, o2: string)
    ensures StoredName(ImagePrefix, t1, r1, o1) != StoredName(SoundPrefix, t2, r2, o2)
  {
    assert StoredName(ImagePrefix, t1, r1, o1)[0] == 'i';
    assert StoredName(SoundPrefix, t2, r2, o2)[0] == 's';
  }

  // ----------------------------------------------------------------------
  // The two single-kind uploaders
  // ----------------------------------------------------------------------

  datatype Kind = ImageKind | SoundKind

  /** One multer instance: where it stores, the name prefix, which filter it runs, and its fileSize limit. */
  datatype Uploader = Uploader(dir: string, prefix: string, kind: Kind, limit: nat)

  const UploadImage := Uploader(ImagesDir, ImagePrefix, ImageKind, ImageSizeLimit)
  const UploadSound := Uploader(SoundsDir, SoundPrefix, SoundKind, SoundSizeLimit)

  function KindFilter(kind: Kind, f: UploadFile): Verdict {
    match kind
    case ImageKind => ImageFilter(f)
    case SoundKind => AudioFilter(f)
  }

  /**
   * One file through an uploader: the filter runs first and its refusal is a
   * plain Error; an accepted file over the limit is a LIMIT_FILE_SIZE
   * MulterError; otherwise the file is stored and its path returned.
   */
  function Receive(u: Uploader, f: UploadFile, time: nat, rand: nat): (r: Result<string, Failure>)
    ensures r.Ok? <==> KindFilter(u.kind, f).Accept? && WithinLimit(f, u.limit)
    ensures r.Ok? ==> r.value == StoredPath(u.dir, StoredName(u.prefix, time, rand, f.originalName))
    ensures KindFilter(u.kind, f).Reject? ==> r == Err(PlainError(KindFilter(u.kind, f).message))
    ensures KindFilter(u.kind, f).Accept? && !WithinLimit(f, u.limit) ==> r == Err(MulterError(LimitFileSize, FileTooLarge))
  {
    match KindFilter(u.kind, f)
    case Reject(message) => Err(PlainError(message))
    case Accept =>
      if !WithinLimit(f, u.limit) then Err(MulterError(LimitFileSize, FileTooLarge))
      else Ok(StoredPath(u.dir, StoredName(u.prefix, time, rand, f.originalName)))
  }

  /** The image uploader takes files up to 5 MiB and the sound uploader up to 2 MiB; a size between the two separates them. */
  lemma UploaderLimits(f: UploadFile, time: nat, rand: nat)
    requires f.mimeType == "audio/mpeg" && SoundSizeLimit < f.size
    ensures Receive(UploadSound, f, time, rand) == Err(MulterError(LimitFileSize, FileTooLarge))
    ensures UploadImage.limit == 5 * 1024 * 1024 && UploadSound.limit == 2 * 1024 * 1024
  {
  }

  // ----------------------------------------------------------------------
  // Processed image and thumbnail paths
  // ----------------------------------------------------------------------

  const ProcessedSuffix := "_processed.jpg"
  const ThumbSuffix := "_thumb.jpg"

  /**
   * Where the regular expression /\.[^/.]+$/ matches p: a '.' followed by at
   * least one character, none of them '/' or '.', up to the end.
   */
  ghost predicate ExtensionAt(p: string, i: int) {
    && 0 <= i < |p| - 1
    && p[i] == '.'
    && (forall k :: i < k < |p| ==> p[k] != '/' && p[k] != '.')
  }

  /** The regular expression matches at most once. */
  lemma ExtensionAtUnique(p: string, i: int, j: int)
    requires ExtensionAt(p, i) && ExtensionAt(p, j)
    ensures i == j
  {
  }

  /** p.replace(/\.[^/.]+$/, rep): the matched extension is replaced by rep; a path it does not match comes back unchanged. */
  function ReplaceExtension(p: string, rep: string): (r: string)
    ensures forall i :: ExtensionAt(p, i) ==> r == p[..i] + rep
    ensures (forall i :: !ExtensionAt(p, i)) ==> r == p
  {
    var d := LastIndexOf(p, '.');
    if 0 <= d < |p| - 1 && Lacks(p[d + 1..], '/') then
      assert ExtensionAt(p, d) by {
        forall k | d < k < |p| ensures p[k] != '/' {
          assert p[k] == p[d + 1..][k - d - 1];
        }
      }
      assert forall i :: ExtensionAt(p, i) ==> i == d by {
        forall i | ExtensionAt(p, i) ensures i == d {
          ExtensionAtUnique(p, i, d);
        }
      }
      p[..d] + rep
    else
      assert forall i :: !ExtensionAt(p, i) by {
        forall i | 0 <= i < |p| - 1 && p[i] == '.' ensures !ExtensionAt(p, i) {
          if d == i {
            assert !Lacks(p[d + 1..], '/');
            var k :| 0 <= k < |p[d + 1..]| && p[d + 1..][k] == '/';
            assert p[d + 1 + k] == '/';
          } else {
            assert i < d;
          }
        }
      }
      p
  }

  /** Nothing before the extension of a freshly stored image contains a '.'. */
  lemma StoredStemLacksDot(prefix: string, time: nat, rand: nat)
    requires Lacks(prefix, '.')
    ensures Lacks(prefix + UniqueSuffix(time, rand), '.')
  {
    var a, b := NatToDecimal(time), NatToDecimal(rand);
    var s := prefix + UniqueSuffix(time, rand);
    forall k | 0 <= k < |s| ensures s[k] != '.' {
      if k < |prefix| {
        assert s[k] == prefix[k];
      } else if k < |prefix| + |a| {
        assert s[k] == a[k - |prefix|];
      } else if k > |prefix| + |a| {
        assert s[k] == b[k - |prefix| - |a| - 1];
      }
    }
  }

  /**
   * The thumbnail of a freshly stored image sits in the images directory
   * under the same stem with "_thumb.jpg" in place of the extension; when the
   * original name gave no extension (or only a bare '.'), the rewrite leaves
   * the path as it is.
   */
  lemma ThumbnailOfStoredImage(time: nat, rand: nat, originalName: string, rep: string)
    ensures var e := Extname(originalName);
      var stem := ImagesDir + "/" + ImagePrefix + UniqueSuffix(time, rand);
      var p := StoredPath(ImagesDir, StoredName(ImagePrefix, time, rand, originalName));
      && (|e| >= 2 ==> ReplaceExtension(p, rep) == stem + rep)
      && (|e| < 2 ==> ReplaceExtension(p, rep) == p)
  {
    var e := Extname(originalName);
    var stem := ImagesDir + "/" + ImagePrefix + UniqueSuffix(time, rand);
    JoinRegroup(ImagesDir, "/", ImagePrefix, UniqueSuffix(time, rand), e);
    StoredStemLacksDot(ImagesDir + "/" + ImagePrefix, time, rand);
    ReplaceAfterStem(stem, e, rep);
  }

  /** A directory, a separator and a three-part name, regrouped to the left. */
  lemma JoinRegroup(a: string, b: string, c: string, d: string, e: string)
    ensures a + b + (c + d + e) == a + b + c + d + e
  {
  }

  /** A stem without '.' followed by an extension as extname gives it: the rewrite replaces exactly that extension. */
  lemma ReplaceAfterStem(stem: string, e: string, rep: string)
    requires Lacks(stem, '.')
    requires e == [] || (e[0] == '.' && Lacks(e[1..], '.'))
    requires Lacks(e, '/')
    ensures |e| >= 2 ==> ReplaceExtension(stem + e, rep) == stem + rep
    ensures |e| < 2 ==> ReplaceExtension(stem + e, rep) == stem + e
  {
    var p := stem + e;
    if |e| >= 2 {
      var i := |stem|;
      assert p[i] == e[0] == '.';
      forall k | i < k < |p| ensures p[k] != '/' && p[k] != '.' {
        assert p[k] == e[k - i];
        assert e[k - i] == e[1..][k - i - 1];
      }
      assert ExtensionAt(p, i);
      assert p[..i] == stem;
    } else {
      forall i | 0 <= i < |p| - 1 ensures !ExtensionAt(p, i) {
        assert i < |stem|;
        assert p[i] == stem[i];
      }
    }
  }

  // ----------------------------------------------------------------------
  // Processing an image and generating its thumbnail
  // ----------------------------------------------------------------------

  /** The outcome of a processing step: the files on disk afterwards and the path the step returns. */
  datatype Processing = Processing(files: set<string>, path: string)

  /**
   * processImage: the image library writes a resized JPEG at the
   * "_processed.jpg" path, the original is unlinked and the copy renamed onto
   * it. The library fails (and the process is skipped) when the input is
   * missing, when it cannot decode the file, or when the output path is the
   * input path. Either way the input path is returned.
   */
  function ProcessImage(files: set<string>, imagePath: string, decodes: bool): (r: Processing)
    ensures r.path == imagePath
    ensures imagePath in files ==> imagePath in r.files
    ensures r.files <= files && files - r.files <= {ReplaceExtension(imagePath, ProcessedSuffix)}
  {
    var processed := ReplaceExtension(imagePath, ProcessedSuffix);
    if decodes && imagePath in files && processed != imagePath then
      Processing(((files + {processed}) - {imagePath} - {processed}) + {imagePath}, imagePath)
    else
      Processing(files, imagePath)
  }

  /**
   * generateThumbnail: the library writes a 200x150 JPEG at the "_thumb.jpg"
   * path and that path is returned; on failure the original path is
   * returned and no file is written.
   */
  function GenerateThumbnail(files: set<string>, imagePath: string, decodes: bool): (r: Processing)
    ensures r.path == imagePath || r.path == ReplaceExtension(imagePath, ThumbSuffix)
    ensures r.path != imagePath <==> decodes && imagePath in files && ReplaceExtension(imagePath, ThumbSuffix) != imagePath
    ensures files <= r.files && r.files <= files + {r.path}
    ensures imagePath in files ==> r.path in r.files
  {
    var thumbnail := ReplaceExtension(imagePath, ThumbSuffix);
    if decodes && imagePath in files && thumbnail != imagePath then
      Processing(files + {thumbnail}, thumbnail)
    else
      Processing(files, imagePath)
  }

  /** The thumbnail rewrite changes a path exactly when the pattern matches it. */
  lemma RewriteChangesOnlyMatchedPaths(p: string)
    ensures ReplaceExtension(p, ThumbSuffix) != p <==> exists i :: ExtensionAt(p, i)
  {
    if i :| ExtensionAt(p, i) {
      var r := ReplaceExtension(p, ThumbSuffix);
      assert r == p[..i] + ThumbSuffix;
      assert r[i] == '_' && p[i] == '.';
    }
  }
}
