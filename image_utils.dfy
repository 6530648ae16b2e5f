/**
 * The image helpers: the directory scanner, the Unsplash parameter
 * validator, the paginated search client and the batch downloader.
 * HTTP, the clock and the filesystem are parameters: a page of the search
 * is `respond(page)`, the download of item `i` is `net(i)`, and whether
 * writing item `i` raises an I/O error is `ioFails(i)`.
 */
module ImageUtils {
  import opened Wrappers
  import opened Text
  import opened AppState

  // ---------------------------------------------------------------------
  // Directory scanner (get_image_files)
  // ---------------------------------------------------------------------

  /** One name of an `os.listdir` result and whether it is a regular file. */
  datatype DirEntry = DirEntry(name: string, isFile: bool)

  /** `any(s.endswith(ext) for ext in suffixes)`. */
  predicate EndsWithAny(s: string, suffixes: seq<string>) {
    suffixes != [] && (EndsWith(s, suffixes[0]) || EndsWithAny(s, suffixes[1..]))
  }

  predicate IsImageFile(e: DirEntry) {
    e.isFile && EndsWithAny(Lower(e.name), SUPPORTED_IMAGE_EXTENSIONS)
  }

  /** `any(...)` over the suffixes: some suffix of the list ends `s`. */
  lemma {:induction false} EndsWithAnySpec(s: string, suffixes: seq<string>)
    ensures EndsWithAny(s, suffixes) <==> exists ext :: ext in suffixes && EndsWith(s, ext)
  {
    if suffixes != [] {
      EndsWithAnySpec(s, suffixes[1..]);
      assert forall ext :: ext in suffixes <==> ext == suffixes[0] || ext in suffixes[1..];
    }
  }

  /**
   * An entry is kept exactly when it is a regular file and its lower-cased
   * name ends with one of the supported extensions.
   */
  lemma IsImageFileSpec(e: DirEntry)
    ensures IsImageFile(e) <==>
              e.isFile && exists ext :: ext in SUPPORTED_IMAGE_EXTENSIONS && EndsWith(Lower(e.name), ext)
  {
    EndsWithAnySpec(Lower(e.name), SUPPORTED_IMAGE_EXTENSIONS);
  }

  /** The match ignores case: a name and its lower-cased form are classified alike. */
  lemma IsImageFileIgnoresCase(name: string, isFile: bool)
    ensures IsImageFile(DirEntry(name, isFile)) <==> IsImageFile(DirEntry(Lower(name), isFile))
  {
    assert Lower(Lower(name)) == Lower(name);
  }

  /** The bare names of the image files of a listing, in listing order. */
  function GetImageFiles(listing: seq<DirEntry>): (names: seq<string>)
    ensures |names| <= |listing|
  {
    if listing == [] then []
    else (if IsImageFile(listing[0]) then [listing[0].name] else []) + GetImageFiles(listing[1..])
  }

  /** A name is returned exactly when some entry of that name is an image file. */
  lemma {:induction false} GetImageFilesMembers(listing: seq<DirEntry>, n: string)
    ensures n in GetImageFiles(listing) <==>
            exists i :: 0 <= i < |listing| && listing[i].name == n && IsImageFile(listing[i])
  {
    if listing != [] {
      GetImageFilesMembers(listing[1..], n);
      if n in GetImageFiles(listing[1..]) {
        var i :| 0 <= i < |listing[1..]| && listing[1..][i].name == n && IsImageFile(listing[1..][i]);
        assert listing[i + 1] == listing[1..][i];
      }
      if exists i :: 0 <= i < |listing| && listing[i].name == n && IsImageFile(listing[i]) {
        var i :| 0 <= i < |listing| && listing[i].name == n && IsImageFile(listing[i]);
        if i > 0 {
          assert listing[1..][i - 1] == listing[i];
        }
      }
    }
  }

  /** The scan keeps listing order: scanning a concatenation concatenates the scans. */
  lemma {:induction false} GetImageFilesAppend(a: seq<DirEntry>, b: seq<DirEntry>)
    ensures GetImageFiles(a + b) == GetImageFiles(a) + GetImageFiles(b)
  {
    if a == [] {
      assert a + b == b;
    } else {
      assert (a + b)[0] == a[0];
      assert (a + b)[1..] == a[1..] + b;
      GetImageFilesAppend(a[1..], b);
      var head := if IsImageFile(a[0]) then [a[0].name] else [];
      assert GetImageFiles(a + b) == head + GetImageFiles(a[1..] + b);
      assert head + (GetImageFiles(a[1..]) + GetImageFiles(b)) == (head + GetImageFiles(a[1..])) + GetImageFiles(b);
    }
  }

  /** A `.txt` file is not an image file. */
  lemma TextFileRejected()
    ensures !IsImageFile(DirEntry("b.txt", true))
  {
    assert Lower("b.txt") == "b.txt";
    assert "b.txt"[1..] == ".txt";
  }

  /** Lower-case image extensions match. */
  lemma ExampleEntriesClassified()
    ensures IsImageFile(DirEntry("a.jpg", true)) && IsImageFile(DirEntry("d.bmp", true))
  {
    assert IsImageFile(DirEntry("a.jpg", true)) by {
      assert Lower("a.jpg") == "a.jpg";
      assert "a.jpg"[1..] == ".jpg";
    }
    assert IsImageFile(DirEntry("d.bmp", true)) by {
      assert Lower("d.bmp") == "d.bmp";
      assert "d.bmp"[1..] == ".bmp";
    }
  }

  /** The extension match ignores case: `C.PNG` is an image file. */
  lemma UpperCaseExtensionMatches()
    ensures IsImageFile(DirEntry("C.PNG", true))
  {
    assert LowerChar('C') == 'c' && LowerChar('P') == 'p';
    assert LowerChar('N') == 'n' && LowerChar('G') == 'g';
    assert Lower("C.PNG") == "c.png";
    assert "c.png"[1..] == ".png";
  }

  /** The match is case-insensitive and drops non-images: `a.jpg, b.txt, C.PNG, d.bmp`. */
  lemma GetImageFilesExample()
    ensures GetImageFiles([DirEntry("a.jpg", true), DirEntry("b.txt", true),
                           DirEntry("C.PNG", true), DirEntry("d.bmp", true)]) == ["a.jpg", "C.PNG", "d.bmp"]
  {
    var listing := [DirEntry("a.jpg", true), DirEntry("b.txt", true),
                    DirEntry("C.PNG", true), DirEntry("d.bmp", true)];
    ExampleEntriesClassified();
    TextFileRejected();
    UpperCaseExtensionMatches();
    assert GetImageFiles(listing[3..]) == ["d.bmp"];
    assert GetImageFiles(listing[2..]) == ["C.PNG", "d.bmp"] by {
      assert listing[2..][1..] == listing[3..];
    }
    assert GetImageFiles(listing[1..]) == ["C.PNG", "d.bmp"] by {
      assert listing[1..][1..] == listing[2..];
    }
  }

  // ---------------------------------------------------------------------
  // Parameter validator (validate_unsplash_params)
  // ---------------------------------------------------------------------

  datatype ValidationError =
    | MissingApiKey
    | CannotCreateDir(dir: Path, reason: string)

  datatype Validation = Ready(dir: Path) | Rejected(error: ValidationError)

  /** The validator's answer and the directory it created, if any. */
  datatype Validated = Validated(outcome: Validation, created: Option<Path>)

  /**
   * `existing` is what `os.path.exists` sees, `cwd` is `os.getcwd()`, and
   * `mkdirError` is the error `os.makedirs(save_dir)` would raise, if any.
   */
  function ValidateUnsplashParams(accessKey: string, saveDir: Option<Path>, cwd: Path,
                                  existing: set<Path>, mkdirError: Option<string>): (v: Validated)
    // an empty key is refused whatever the directory, and nothing is created
    ensures accessKey == "" ==> v == Validated(Rejected(MissingApiKey), None)
    ensures v.outcome.Ready? <==>
            accessKey != "" && (saveDir.None? || saveDir.value in existing || mkdirError.None?)
    // the answer is the working directory or the given directory, unchanged
    ensures v.outcome.Ready? ==> v.outcome.dir == if saveDir.None? then cwd else saveDir.value
    // a given directory exists once the validator accepts it
    ensures v.outcome.Ready? && saveDir.Some? ==>
            saveDir.value in existing || v.created == saveDir
    // only a missing directory is created, and only on acceptance
    ensures v.created.Some? ==> v.outcome.Ready? && v.created == saveDir && saveDir.value !in existing
    ensures v.outcome.Rejected? && accessKey != "" ==>
            saveDir.Some? && saveDir.value !in existing && mkdirError.Some? &&
            v == Validated(Rejected(CannotCreateDir(saveDir.value, mkdirError.value)), None)
  {
    if accessKey == "" then Validated(Rejected(MissingApiKey), None)
    else if saveDir.None? then Validated(Ready(cwd), None)
    else if saveDir.value !in existing then
      match mkdirError
      case None => Validated(Ready(saveDir.value), Some(saveDir.value))
      case Some(e) => Validated(Rejected(CannotCreateDir(saveDir.value, e)), None)
    else Validated(Ready(saveDir.value), None)
  }

  // ---------------------------------------------------------------------
  // Paginated search client (search_unsplash_images)
  // ---------------------------------------------------------------------

  /** A search record: its `id` and its `urls.regular`, either of which may be missing. */
  datatype Photo = Photo(id: Option<string>, regularUrl: Option<string>)

  /** The exception classes the search and the download distinguish. */
  datatype Exception =
    | RequestException(detail: string)
    | JsonDecodeError
    | OtherException(detail: string)

  /**
   * What asking for one page produced: a response with its status and, when
   * the JSON body has a `"results"` key, its records; or an exception from
   * the request or from decoding a 200 response's body.
   */
  datatype PageOutcome =
    | Answered(status: int, results: Option<seq<Photo>>)
    | Raised(exception: Exception)

  datatype SearchError =
    | ApiStatus(code: int)
    | UnexpectedFormat
    | NetworkError(detail: string)
    | ParseFailed
    | UnexpectedError(detail: string)
    | NoResults(query: string)

  datatype SearchResult = Found(photos: seq<Photo>) | Failed(error: SearchError)

  /** What the search does observably: requests a page, or pauses for some seconds. */
  datatype Event = Get(page: int) | Sleep(seconds: real)

  /** `math.ceil(n / 30)`: the smallest page count whose pages can hold `n` records. */
  function PagesNeeded(n: int): (pages: int)
    ensures n > 0 ==> pages > 0 && (pages - 1) * MAX_IMAGES_PER_PAGE < n <= pages * MAX_IMAGES_PER_PAGE
    ensures n <= 0 ==> pages <= 0
  {
    -((-n) / MAX_IMAGES_PER_PAGE)
  }

  /** The error a page ends the search with, if it is a bad page. */
  function PageError(o: PageOutcome): Option<SearchError> {
    match o
    case Answered(status, results) =>
      if status != HTTP_OK then Some(ApiStatus(status))
      else if results.None? then Some(UnexpectedFormat)
      else None
    case Raised(RequestException(d)) => Some(NetworkError(d))
    case Raised(JsonDecodeError) => Some(ParseFailed)
    case Raised(OtherException(d)) => Some(UnexpectedError(d))
  }

  /** The records a page contributes (none for a bad page). */
  function PageResults(o: PageOutcome): seq<Photo> {
    if o.Answered? && o.results.Some? then o.results.value else []
  }

  /** The records of pages `1..k`, concatenated in page order. */
  function Collected(respond: int -> PageOutcome, k: int): seq<Photo>
    decreases k
  {
    if k <= 0 then [] else Collected(respond, k - 1) + PageResults(respond(k))
  }

  /** The search goes on past page `p`: a good, full page that leaves it short of `maxImages`. */
  predicate Continues(respond: int -> PageOutcome, maxImages: int, p: int) {
    PageError(respond(p)).None? && |PageResults(respond(p))| >= MAX_IMAGES_PER_PAGE
    && |Collected(respond, p)| < maxImages
  }

  /** The first page from `page` on where the search stops, or `needed`. */
  function StopPage(respond: int -> PageOutcome, maxImages: int, page: int, needed: int): int
    decreases needed - page
  {
    if page >= needed || !Continues(respond, maxImages, page) then page
    else StopPage(respond, maxImages, page + 1, needed)
  }

  /** The number of pages the search requests. */
  function PagesRequested(respond: int -> PageOutcome, maxImages: int): int {
    var needed := PagesNeeded(maxImages);
    if needed <= 0 then 0 else StopPage(respond, maxImages, 1, needed)
  }

  /** `all_results[:n]` with Python's slice rules. */
  function SliceTo<T>(s: seq<T>, n: int): (r: seq<T>)
    ensures n >= 0 ==> r == if n < |s| then s[..n] else s
  {
    if n >= |s| then s
    else if n >= 0 then s[..n]
    else if |s| + n <= 0 then []
    else s[..|s| + n]
  }

  /** The answer once the pages are collected: the truncated records, or "no images". */
  function Outcome(query: string, photos: seq<Photo>): SearchResult {
    if photos == [] then Failed(NoResults(query)) else Found(photos)
  }

  /** What the search answers, given the pages the server would send. */
  function Search(query: string, maxImages: int, respond: int -> PageOutcome): (r: SearchResult)
    ensures r.Found? ==> 0 < |r.photos| <= maxImages
    ensures r.Failed? && !r.error.NoResults? ==>
              && PagesRequested(respond, maxImages) > 0
              && PageError(respond(PagesRequested(respond, maxImages))) == Some(r.error)
  {
    var k := PagesRequested(respond, maxImages);
    assert maxImages <= 0 ==> k == 0;
    if k > 0 && PageError(respond(k)).Some? then Failed(PageError(respond(k)).value)
    else Outcome(query, SliceTo(Collected(respond, k), maxImages))
  }

  /** The requests and pauses of a search that requested `k` pages: pauses only between pages. */
  function Schedule(k: int): seq<Event>
    decreases k
  {
    if k <= 0 then []
    else if k == 1 then [Get(1)]
    else Schedule(k - 1) + [Sleep(MAX_WAIT_TIME), Get(k)]
  }

  lemma {:induction false} StopPageBounds(respond: int -> PageOutcome, maxImages: int, page: int, needed: int)
    requires page <= needed
    ensures page <= StopPage(respond, maxImages, page, needed) <= needed
    ensures forall p :: page <= p < StopPage(respond, maxImages, page, needed) ==> Continues(respond, maxImages, p)
    ensures StopPage(respond, maxImages, page, needed) < needed ==>
            !Continues(respond, maxImages, StopPage(respond, maxImages, page, needed))
    decreases needed - page
  {
    if page < needed && Continues(respond, maxImages, page) {
      StopPageBounds(respond, maxImages, page + 1, needed);
    }
  }

  /**
   * Which pages are requested: pages `1..k` in order for some `k` no larger
   * than `ceil(maxImages/30)`; every page before the last was good and full
   * and left the search short of `maxImages`; and when fewer than
   * `ceil(maxImages/30)` pages were requested, the last one was bad, short,
   * or reached `maxImages`.
   */
  lemma PagesRequestedSpec(respond: int -> PageOutcome, maxImages: int)
    ensures var k := PagesRequested(respond, maxImages);
            && (k == 0 <==> maxImages <= 0)
            && 0 <= k <= (if maxImages <= 0 then 0 else PagesNeeded(maxImages))
            && (forall p :: 1 <= p < k ==> Continues(respond, maxImages, p))
            && (0 < k < PagesNeeded(maxImages) ==> !Continues(respond, maxImages, k))
  {
    if PagesNeeded(maxImages) > 0 {
      StopPageBounds(respond, maxImages, 1, PagesNeeded(maxImages));
    }
  }

  /**
   * The first bad page ends the search with its error, and no later page is
   * requested.
   */
  lemma SearchFailsOnFirstBadPage(query: string, maxImages: int, respond: int -> PageOutcome, p: int)
    requires 1 <= p <= PagesNeeded(maxImages)
    requires PageError(respond(p)).Some?
    requires forall q :: 1 <= q < p ==> Continues(respond, maxImages, q)
    ensures PagesRequested(respond, maxImages) == p
    ensures Search(query, maxImages, respond) == Failed(PageError(respond(p)).value)
  {
    var needed := PagesNeeded(maxImages);
    StopPageBounds(respond, maxImages, 1, needed);
    var k := StopPage(respond, maxImages, 1, needed);
    assert !Continues(respond, maxImages, p);
    assert k < p ==> Continues(respond, maxImages, k);
  }

  /**
   * A success is the first `maxImages` records of the requested pages in
   * page order: never empty and never more than `maxImages`.
   */
  lemma SearchFoundSpec(query: string, maxImages: int, respond: int -> PageOutcome)
    ensures var r := Search(query, maxImages, respond);
            r.Found? ==>
              && 0 < |r.photos| <= maxImages
              && r.photos == Collected(respond, PagesRequested(respond, maxImages))[..|r.photos|]
  {
    var k := PagesRequested(respond, maxImages);
    if maxImages <= 0 {
      assert k == 0;
    }
  }

  /** Full good pages hold thirty records each. */
  lemma {:induction false} CollectedFullPages(respond: int -> PageOutcome, n: int)
    requires forall p :: 1 <= p <= n ==>
               PageError(respond(p)).None? && |PageResults(respond(p))| == MAX_IMAGES_PER_PAGE
    ensures n >= 0 ==> |Collected(respond, n)| == MAX_IMAGES_PER_PAGE * n
    decreases n
  {
    if n > 0 {
      CollectedFullPages(respond, n - 1);
    }
  }

  /**
   * When the server has full pages of records, the search returns exactly
   * `maxImages` of them.
   */
  lemma SearchFullPagesYieldMax(query: string, maxImages: int, respond: int -> PageOutcome)
    requires maxImages > 0
    requires forall p :: 1 <= p <= PagesNeeded(maxImages) ==>
               PageError(respond(p)).None? && |PageResults(respond(p))| == MAX_IMAGES_PER_PAGE
    ensures Search(query, maxImages, respond).Found?
    ensures |Search(query, maxImages, respond).photos| == maxImages
  {
    var needed := PagesNeeded(maxImages);
    StopPageBounds(respond, maxImages, 1, needed);
    var k := PagesRequested(respond, maxImages);
    CollectedFullPages(respond, k);
    assert |Collected(respond, k)| >= maxImages;
  }

  /**
   * The search loop. It returns the answer and the trace of requests and
   * pauses, and both agree with the specification above.
   */
  method SearchUnsplashImages(query: string, maxImages: int, respond: int -> PageOutcome)
    returns (r: SearchResult, trace: seq<Event>)
    ensures r == Search(query, maxImages, respond)
    ensures trace == Schedule(PagesRequested(respond, maxImages))
  {
    var perPage := MAX_IMAGES_PER_PAGE;
    var pagesNeeded := PagesNeeded(maxImages);
    var allResults: seq<Photo> := [];
    trace := [];
    var page := 1;
    ghost var k := PagesRequested(respond, maxImages);
    while page <= pagesNeeded
      invariant 1 <= page && (page == 1 || page <= pagesNeeded + 1)
      invariant page <= pagesNeeded ==> k == StopPage(respond, maxImages, page, pagesNeeded)
      invariant page > pagesNeeded ==> k == page - 1
      invariant allResults == Collected(respond, page - 1)
      invariant page > 1 ==> PageError(respond(page - 1)).None?
      invariant trace == if page == 1 then []
                         else if page <= pagesNeeded then Schedule(page - 1) + [Sleep(MAX_WAIT_TIME)]
                         else Schedule(page - 1)
    {
      trace := trace + [Get(page)];
      assert trace == Schedule(page);
      var response := respond(page);
      match response {
        case Raised(RequestException(d)) =>
          r := Failed(NetworkError(d));
          return;
        case Raised(JsonDecodeError) =>
          r := Failed(ParseFailed);
          return;
        case Raised(OtherException(d)) =>
          r := Failed(UnexpectedError(d));
          return;
        case Answered(status, body) =>
          if status != HTTP_OK {
            r := Failed(ApiStatus(status));
            return;
          }
          if body.None? {
            r := Failed(UnexpectedFormat);
            return;
          }
          var currentResults := body.value;
          allResults := allResults + currentResults;
          if |currentResults| < perPage || |allResults| >= maxImages {
            break;
          }
          if page < pagesNeeded {
            trace := trace + [Sleep(MAX_WAIT_TIME)];
          }
      }
      page := page + 1;
    }
    var photos := SliceTo(allResults, maxImages);
    if photos == [] {
      r := Failed(NoResults(query));
    } else {
      r := Found(photos);
    }
  }

  // ---------------------------------------------------------------------
  // Batch downloader (download_images)
  // ---------------------------------------------------------------------

  /** What the GET of one image produced: a response, or a raised exception. */
  datatype Fetch = Responded(status: int, content: Bytes) | FetchRaised(exception: Exception)

  /** A file the downloader wrote: its path and its bytes. */
  datatype Write = Write(path: Path, content: Bytes)

  /** The file one image is saved to: `<fullPath>/<id>.jpg`. */
  function ImagePath(fullPath: Path, id: string): Path {
    PathJoin(fullPath, id + ".jpg")
  }

  /**
   * The write one item results in, or `None` when the item is skipped: no
   * URL, a raised GET, a non-200 status, no id, or an I/O error on writing.
   */
  function ItemWrite(photo: Photo, fullPath: Path, fetched: Fetch, ioFails: bool): Option<Write> {
    if photo.regularUrl.None? then None
    else if fetched.FetchRaised? || fetched.status != HTTP_OK then None
    else if photo.id.None? || ioFails then None
    else Some(Write(ImagePath(fullPath, photo.id.value), fetched.content))
  }

  /**
   * An item is written exactly when it has a URL, its GET returned 200, it
   * has an id and the write did not fail; the file is `<fullPath>/<id>.jpg`
   * and holds the response body.
   */
  lemma ItemWriteSpec(photo: Photo, fullPath: Path, fetched: Fetch, ioFails: bool)
    ensures var w := ItemWrite(photo, fullPath, fetched, ioFails);
            && (w.Some? <==> && photo.regularUrl.Some? && fetched.Responded?
                             && fetched.status == HTTP_OK && photo.id.Some? && !ioFails)
            && (w.Some? ==> w.value == Write(ImagePath(fullPath, photo.id.value), fetched.content))
  {
  }

  /** The write of one item as a list of zero or one writes. */
  function WriteList(w: Option<Write>): seq<Write> {
    if w.Some? then [w.value] else []
  }

  /** The writes of the first `k` items, in item order. */
  function WritesUpTo(photos: seq<Photo>, k: nat, fullPath: Path, net: nat -> Fetch, ioFails: nat -> bool)
    : (ws: seq<Write>)
    requires k <= |photos|
    ensures |ws| <= k
  {
    if k == 0 then []
    else WritesUpTo(photos, k - 1, fullPath, net, ioFails)
         + WriteList(ItemWrite(photos[k - 1], fullPath, net(k - 1), ioFails(k - 1)))
  }

  /** The writes of the whole batch, in item order. */
  function SavedWrites(photos: seq<Photo>, fullPath: Path, net: nat -> Fetch, ioFails: nat -> bool): (ws: seq<Write>)
    ensures |ws| <= |photos|
  {
    WritesUpTo(photos, |photos|, fullPath, net, ioFails)
  }

  /** The files after performing `writes` in order over `files`. */
  function ApplyWrites(files: map<Path, Bytes>, writes: seq<Write>): map<Path, Bytes>
    decreases |writes|
  {
    if writes == [] then files
    else
      var last := writes[|writes| - 1];
      ApplyWrites(files, writes[..|writes| - 1])[last.path := last.content]
  }

  /** Performing zero or one more write. */
  lemma ApplyWritesStep(files: map<Path, Bytes>, before: seq<Write>, item: Option<Write>)
    ensures |before + WriteList(item)| == |before| + (if item.Some? then 1 else 0)
    ensures ApplyWrites(files, before + WriteList(item))
            == if item.Some? then ApplyWrites(files, before)[item.value.path := item.value.content]
               else ApplyWrites(files, before)
  {
    if item.Some? {
      assert (before + [item.value])[..|before|] == before;
    } else {
      assert before + [] == before;
    }
  }

  /**
   * One item of the download loop: fetch the image, check the status, and
   * write `<id>.jpg`; any failure skips the item and leaves the files alone.
   */
  method DownloadOne(photo: Photo, fullPath: Path, fetched: Fetch, ioFails: bool, files: map<Path, Bytes>)
    returns (saved: bool, files': map<Path, Bytes>)
    ensures var w := ItemWrite(photo, fullPath, fetched, ioFails);
            && (saved <==> w.Some?)
            && files' == if w.Some? then files[w.value.path := w.value.content] else files
  {
    saved, files' := false, files;
    if photo.regularUrl.Some? {
      var imageResponse := fetched;
      if imageResponse.Responded? && imageResponse.status == HTTP_OK && photo.id.Some? {
        var imagePath := ImagePath(fullPath, photo.id.value);
        if !ioFails {
          files' := files'[imagePath := imageResponse.content];
          saved := true;
        }
      }
    }
  }

  /**
   * The download loop: every item is tried, one failure never stops the
   * rest, and the count is the number of files written.
   */
  method DownloadImages(photos: seq<Photo>, fullPath: Path, net: nat -> Fetch,
                        ioFails: nat -> bool, files: map<Path, Bytes>)
    returns (downloadedCount: nat, files': map<Path, Bytes>)
    ensures downloadedCount == |SavedWrites(photos, fullPath, net, ioFails)| <= |photos|
    ensures files' == ApplyWrites(files, SavedWrites(photos, fullPath, net, ioFails))
  {
    downloadedCount := 0;
    files' := files;
    var i := 0;
    while i < |photos|
      invariant 0 <= i <= |photos|
      invariant downloadedCount == |WritesUpTo(photos, i, fullPath, net, ioFails)|
      invariant files' == ApplyWrites(files, WritesUpTo(photos, i, fullPath, net, ioFails))
    {
      ApplyWritesStep(files, WritesUpTo(photos, i, fullPath, net, ioFails),
                      ItemWrite(photos[i], fullPath, net(i), ioFails(i)));
      var saved;
      saved, files' := DownloadOne(photos[i], fullPath, net(i), ioFails(i), files');
      if saved {
        downloadedCount := downloadedCount + 1;
      }
      i := i + 1;
    }
  }

  /** Every write of the first `k` items is `<fullPath>/<id>.jpg` of an item whose GET returned 200. */
  lemma {:induction false} WritesUpToNamed(photos: seq<Photo>, k: nat, fullPath: Path, net: nat -> Fetch,
                                           ioFails: nat -> bool, j: int)
    requires k <= |photos|
    requires 0 <= j < |WritesUpTo(photos, k, fullPath, net, ioFails)|
    ensures exists i :: 0 <= i < k && photos[i].id.Some? && net(i).Responded?
              && net(i).status == HTTP_OK
              && WritesUpTo(photos, k, fullPath, net, ioFails)[j]
                 == Write(ImagePath(fullPath, photos[i].id.value), net(i).content)
  {
    var prefix := WritesUpTo(photos, k - 1, fullPath, net, ioFails);
    if j < |prefix| {
      WritesUpToNamed(photos, k - 1, fullPath, net, ioFails, j);
    } else {
      assert ItemWrite(photos[k - 1], fullPath, net(k - 1), ioFails(k - 1)).Some?;
    }
  }

  /** Every written file is `<fullPath>/<id>.jpg` of an item whose GET returned 200. */
  lemma SavedWritesNamed(photos: seq<Photo>, fullPath: Path, net: nat -> Fetch, ioFails: nat -> bool, j: int)
    requires 0 <= j < |SavedWrites(photos, fullPath, net, ioFails)|
    ensures exists i :: 0 <= i < |photos| && photos[i].id.Some? && net(i).Responded?
              && net(i).status == HTTP_OK
              && SavedWrites(photos, fullPath, net, ioFails)[j]
                 == Write(ImagePath(fullPath, photos[i].id.value), net(i).content)
  {
    WritesUpToNamed(photos, |photos|, fullPath, net, ioFails, j);
  }

  /** Among the first `k` items, the count is zero exactly when every item is skipped. */
  lemma {:induction false} WritesUpToNone(photos: seq<Photo>, k: nat, fullPath: Path, net: nat -> Fetch,
                                          ioFails: nat -> bool)
    requires k <= |photos|
    ensures |WritesUpTo(photos, k, fullPath, net, ioFails)| == 0 <==>
            forall i :: 0 <= i < k ==> ItemWrite(photos[i], fullPath, net(i), ioFails(i)).None?
  {
    if k > 0 {
      WritesUpToNone(photos, k - 1, fullPath, net, ioFails);
      var item := ItemWrite(photos[k - 1], fullPath, net(k - 1), ioFails(k - 1));
      assert |WritesUpTo(photos, k, fullPath, net, ioFails)|
             == |WritesUpTo(photos, k - 1, fullPath, net, ioFails)| + |WriteList(item)|;
    }
  }

  /** Among the first `k` items, the count is `k` exactly when no item is skipped. */
  lemma {:induction false} WritesUpToAll(photos: seq<Photo>, k: nat, fullPath: Path, net: nat -> Fetch,
                                         ioFails: nat -> bool)
    requires k <= |photos|
    ensures |WritesUpTo(photos, k, fullPath, net, ioFails)| == k <==>
            forall i :: 0 <= i < k ==> ItemWrite(photos[i], fullPath, net(i), ioFails(i)).Some?
  {
    if k > 0 {
      WritesUpToAll(photos, k - 1, fullPath, net, ioFails);
      var item := ItemWrite(photos[k - 1], fullPath, net(k - 1), ioFails(k - 1));
      assert |WritesUpTo(photos, k, fullPath, net, ioFails)|
             == |WritesUpTo(photos, k - 1, fullPath, net, ioFails)| + |WriteList(item)|;
    }
  }

  /** The indices among the first `k` items that produce a write. */
  function WrittenIndices(photos: seq<Photo>, k: nat, fullPath: Path, net: nat -> Fetch, ioFails: nat -> bool)
    : set<nat>
    requires k <= |photos|
  {
    set i: nat | i < k && ItemWrite(photos[i], fullPath, net(i), ioFails(i)).Some?
  }

  /** Every item among the first `k` that is not skipped has its write in the list. */
  lemma {:induction false} WritesUpToComplete(photos: seq<Photo>, k: nat, fullPath: Path, net: nat -> Fetch,
                                              ioFails: nat -> bool, i: nat)
    requires k <= |photos| && i < k
    requires ItemWrite(photos[i], fullPath, net(i), ioFails(i)).Some?
    ensures ItemWrite(photos[i], fullPath, net(i), ioFails(i)).value in WritesUpTo(photos, k, fullPath, net, ioFails)
  {
    var item := ItemWrite(photos[k - 1], fullPath, net(k - 1), ioFails(k - 1));
    if i == k - 1 {
      assert WriteList(item) == [item.value];
    } else {
      WritesUpToComplete(photos, k - 1, fullPath, net, ioFails, i);
    }
  }

  /** Among the first `k` items, the count is the number of items not skipped. */
  lemma {:induction false} WritesUpToCount(photos: seq<Photo>, k: nat, fullPath: Path, net: nat -> Fetch,
                                           ioFails: nat -> bool)
    requires k <= |photos|
    ensures |WritesUpTo(photos, k, fullPath, net, ioFails)| == |WrittenIndices(photos, k, fullPath, net, ioFails)|
  {
    if k > 0 {
      WritesUpToCount(photos, k - 1, fullPath, net, ioFails);
      var item := ItemWrite(photos[k - 1], fullPath, net(k - 1), ioFails(k - 1));
      var before := WrittenIndices(photos, k - 1, fullPath, net, ioFails);
      assert |WritesUpTo(photos, k, fullPath, net, ioFails)|
             == |WritesUpTo(photos, k - 1, fullPath, net, ioFails)| + |WriteList(item)|;
      if item.Some? {
        assert WrittenIndices(photos, k, fullPath, net, ioFails) == before + {k - 1};
        assert k - 1 !in before;
      } else {
        assert WrittenIndices(photos, k, fullPath, net, ioFails) == before;
      }
    }
  }

  /** Every item of the batch that is not skipped is saved; a skipped item does not stop the rest. */
  lemma SavedWritesComplete(photos: seq<Photo>, fullPath: Path, net: nat -> Fetch, ioFails: nat -> bool, i: nat)
    requires i < |photos| && ItemWrite(photos[i], fullPath, net(i), ioFails(i)).Some?
    ensures ItemWrite(photos[i], fullPath, net(i), ioFails(i)).value in SavedWrites(photos, fullPath, net, ioFails)
  {
    WritesUpToComplete(photos, |photos|, fullPath, net, ioFails, i);
  }

  /** The reported count is the number of items of the batch that are not skipped. */
  lemma SavedWritesCount(photos: seq<Photo>, fullPath: Path, net: nat -> Fetch, ioFails: nat -> bool)
    ensures |SavedWrites(photos, fullPath, net, ioFails)|
            == |WrittenIndices(photos, |photos|, fullPath, net, ioFails)|
  {
    WritesUpToCount(photos, |photos|, fullPath, net, ioFails);
  }

  /**
   * The count is zero exactly when every item is skipped, and the batch size
   * exactly when none is.
   */
  lemma DownloadCountExtremes(photos: seq<Photo>, fullPath: Path, net: nat -> Fetch, ioFails: nat -> bool)
    ensures |SavedWrites(photos, fullPath, net, ioFails)| == 0 <==>
            forall i :: 0 <= i < |photos| ==> ItemWrite(photos[i], fullPath, net(i), ioFails(i)).None?
    ensures |SavedWrites(photos, fullPath, net, ioFails)| == |photos| <==>
            forall i :: 0 <= i < |photos| ==> ItemWrite(photos[i], fullPath, net(i), ioFails(i)).Some?
  {
    WritesUpToNone(photos, |photos|, fullPath, net, ioFails);
    WritesUpToAll(photos, |photos|, fullPath, net, ioFails);
  }

  /** Performing writes overlays the files they leave behind. */
  lemma {:induction false} ApplyWritesOverlay(files: map<Path, Bytes>, writes: seq<Write>)
    ensures ApplyWrites(files, writes) == files + ApplyWrites(map[], writes)
    decreases |writes|
  {
    if writes != [] {
      ApplyWritesOverlay(files, writes[..|writes| - 1]);
    }
  }

  /** The last write to a path decides its content: later writes overwrite earlier ones. */
  lemma {:induction false} ApplyWritesLastWins(files: map<Path, Bytes>, writes: seq<Write>, j: int)
    requires 0 <= j < |writes|
    requires forall k :: j < k < |writes| ==> writes[k].path != writes[j].path
    ensures writes[j].path in ApplyWrites(files, writes)
    ensures ApplyWrites(files, writes)[writes[j].path] == writes[j].content
    decreases |writes|
  {
    if j < |writes| - 1 {
      ApplyWritesLastWins(files, writes[..|writes| - 1], j);
    }
  }

  /** A path no write names keeps its content, or stays absent. */
  lemma {:induction false} ApplyWritesUntouched(files: map<Path, Bytes>, writes: seq<Write>, path: Path)
    requires forall k :: 0 <= k < |writes| ==> writes[k].path != path
    ensures path in ApplyWrites(files, writes) <==> path in files
    ensures path in files ==> ApplyWrites(files, writes)[path] == files[path]
    decreases |writes|
  {
    if writes != [] {
      ApplyWritesUntouched(files, writes[..|writes| - 1], path);
    }
  }

  /**
   * Re-running the download with the same records and the same responses
   * over its own result reports the same count and leaves the same files.
   */
  lemma DownloadIdempotent(photos: seq<Photo>, fullPath: Path, net: nat -> Fetch,
                           ioFails: nat -> bool, files: map<Path, Bytes>)
    ensures var ws := SavedWrites(photos, fullPath, net, ioFails);
            ApplyWrites(ApplyWrites(files, ws), ws) == ApplyWrites(files, ws)
  {
    var ws := SavedWrites(photos, fullPath, net, ioFails);
    var m := ApplyWrites(map[], ws);
    ApplyWritesOverlay(files, ws);
    ApplyWritesOverlay(files + m, ws);
    assert (files + m) + m == files + m;
  }
}
