/**
 * The image gallery: resolves an image id and an optional size to a URL,
 * producing the resized copy ("derivative") of the original the first time
 * that size is asked for and serving the stored copy afterwards.
 *
 * The filesystem service is a map from path to file content, the object
 * cache a map from key to value, and the image library's
 * make/resize/resizeCanvas pipeline an arbitrary function `derive` of the
 * original's content, the target width and height, and the canvas colour.
 */
module ImageGallery {
  import opened Wrappers
  import opened Decimal
  import Indexing

  type Blob = seq<bv8>

  /** One row of the file repository. */
  datatype ImageRecord = ImageRecord(id: int, extension: string)

  datatype GalleryError =
    | MissingPath(key: string)           // setPaths: a required key of `paths` is absent
    | OriginalNotReadable(path: string)  // the image library cannot open the original

  /** The four base locations that setPaths derives. */
  datatype Locations = Locations(cachePath: string, originalPath: string, cacheUrl: string, originalUrl: string)

  /** The URL (or error) a getImageUrl call yields, and the file store after it. */
  datatype Resolution = Resolution(url: Result<string, GalleryError>, store: map<string, Blob>)

  /** The resize pipeline: original content, width, height, canvas colour. */
  type Resizer = (Blob, int, int, string) -> Blob

  const CanvasBackgroundColour := "ffffff"

  /** The object-cache key under which the id-to-record map is kept. */
  const FilesKey := "files"

  /** `r` reads as `base`, one slash, then `name`. */
  ghost predicate IsLocation(r: string, base: string, name: string) {
    && |r| == |base| + 1 + |name|
    && r[..|base|] == base && r[|base|] == '/' && r[|base| + 1..] == name
  }

  /** `r` reads as `base/{width}_{height}/name`. */
  ghost predicate IsSizedLocation(r: string, base: string, width: int, height: int, name: string) {
    var dir := SizeDirectory(width, height);
    var d := |base| + 1 + |dir|;
    && |r| == d + 1 + |name|
    && IsLocation(r[..d], base, dir)
    && r[d] == '/' && r[d + 1..] == name
  }

  /** `sprintf('%s/%s', base, name)`. */
  function Join(base: string, name: string): (r: string)
    ensures IsLocation(r, base, name)
  {
    base + "/" + name
  }

  /** `{id}.{extension}`: the printed id up to the first dot, the extension after it. */
  function ImageFileName(file: ImageRecord): (r: string)
    ensures var n := IntToString(file.id);
            && |r| == |n| + 1 + |file.extension|
            && r[..|n|] == n && r[|n|] == '.' && r[|n| + 1..] == file.extension
            && forall k :: 0 <= k < |n| ==> r[k] != '.'
  {
    IntToString(file.id) + "." + file.extension
  }

  function ImageOriginalPath(loc: Locations, fileName: string): (r: string)
    ensures IsLocation(r, loc.originalPath, fileName)
  {
    Join(loc.originalPath, fileName)
  }

  function ImageOriginalUrl(loc: Locations, fileName: string): (r: string)
    ensures IsLocation(r, loc.originalUrl, fileName)
  {
    Join(loc.originalUrl, fileName)
  }

  /** The per-size directory name, literally `{width}_{height}`, with one underscore and no slash. */
  function SizeDirectory(width: int, height: int): (r: string)
    ensures var w := IntToString(width);
            && |r| == |w| + 1 + |IntToString(height)|
            && r[..|w|] == w && r[|w|] == '_' && r[|w| + 1..] == IntToString(height)
            && forall k :: 0 <= k < |r| && r[k] == '_' ==> k == |w|
    ensures '/' !in r
  {
    IntToString(width) + "_" + IntToString(height)
  }

  function ImageCachePath(loc: Locations, fileName: string, width: int, height: int): (r: string)
    ensures IsSizedLocation(r, loc.cachePath, width, height, fileName)
  {
    Join(Join(loc.cachePath, SizeDirectory(width, height)), fileName)
  }

  function ImageCacheUrl(loc: Locations, fileName: string, width: int, height: int): (r: string)
    ensures IsSizedLocation(r, loc.cacheUrl, width, height, fileName)
  {
    Join(Join(loc.cacheUrl, SizeDirectory(width, height)), fileName)
  }

  /**
   * One getImageUrl call: id 0 yields the empty URL; a zero width or height
   * yields the original's URL; otherwise the derivative is written if its
   * path is absent, and its URL is returned.
   */
  function Resolve(loc: Locations, files: map<int, ImageRecord>, store: map<string, Blob>,
                   derive: Resizer, colour: string, id: int, width: int, height: int): (r: Resolution)
    requires id == 0 || id in files
    ensures forall p :: p in store ==> p in r.store && r.store[p] == store[p]
    ensures id == 0 ==> r.store == store
    ensures id != 0 ==> r.store.Keys <= store.Keys + {ImageCachePath(loc, ImageFileName(files[id]), width, height)}
  {
    if id == 0 then Resolution(Success(""), store)
    else
      var fileName := ImageFileName(files[id]);
      var originalPath := ImageOriginalPath(loc, fileName);
      var cachePath := ImageCachePath(loc, fileName, width, height);
      if width == 0 || height == 0 then
        Resolution(Success(ImageOriginalUrl(loc, fileName)), store)
      else if cachePath !in store && originalPath !in store then
        Resolution(Failure(OriginalNotReadable(originalPath)), store)
      else
        var store' := if cachePath in store then store
                      else store[cachePath := derive(store[originalPath], width, height, colour)];
        Resolution(Success(ImageCacheUrl(loc, fileName, width, height)), store')
  }

  /** The zero id is the "no image" sentinel: empty URL, nothing written. */
  lemma ZeroIdIsBlank(loc: Locations, files: map<int, ImageRecord>, store: map<string, Blob>,
                      derive: Resizer, colour: string, width: int, height: int)
    ensures Resolve(loc, files, store, derive, colour, 0, width, height) == Resolution(Success(""), store)
  {
  }

  /** A zero (or absent) width or height yields the original's URL and writes nothing. */
  lemma UnsizedIsOriginal(loc: Locations, files: map<int, ImageRecord>, store: map<string, Blob>,
                          derive: Resizer, colour: string, id: int, width: int, height: int)
    requires id != 0 && id in files && (width == 0 || height == 0)
    ensures Resolve(loc, files, store, derive, colour, id, width, height)
         == Resolution(Success(loc.originalUrl + "/" + IntToString(files[id].id) + "." + files[id].extension), store)
  {
    var fileName := ImageFileName(files[id]);
    assert loc.originalUrl + "/" + fileName
        == loc.originalUrl + "/" + IntToString(files[id].id) + "." + files[id].extension;
  }

  /**
   * With both sizes non-zero the URL is the derivative's, whether or not it
   * existed before; the only failure is an unreadable original when the
   * derivative is missing, and then nothing is written.
   */
  lemma SizedIsCacheUrl(loc: Locations, files: map<int, ImageRecord>, store: map<string, Blob>,
                        derive: Resizer, colour: string, id: int, width: int, height: int)
    requires id != 0 && id in files && width != 0 && height != 0
    ensures var r := Resolve(loc, files, store, derive, colour, id, width, height);
            var fileName := ImageFileName(files[id]);
            && (r.url.Failure? <==> ImageCachePath(loc, ImageFileName(files[id]), width, height) !in store
                                    && ImageOriginalPath(loc, fileName) !in store)
            && (r.url.Success? ==> r.url.value == ImageCacheUrl(loc, fileName, width, height))
            && (r.url.Failure? ==> r.store == store)
  {
  }

  /**
   * A missing derivative is created from the original's content; it is the
   * only path written.
   */
  lemma MissingDerivativeIsWritten(loc: Locations, files: map<int, ImageRecord>, store: map<string, Blob>,
                                   derive: Resizer, colour: string, id: int, width: int, height: int)
    requires id != 0 && id in files && width != 0 && height != 0
    requires ImageCachePath(loc, ImageFileName(files[id]), width, height) !in store
    requires ImageOriginalPath(loc, ImageFileName(files[id])) in store
    ensures var cachePath := ImageCachePath(loc, ImageFileName(files[id]), width, height);
            var original := store[ImageOriginalPath(loc, ImageFileName(files[id]))];
            Resolve(loc, files, store, derive, colour, id, width, height).store
              == store[cachePath := derive(original, width, height, colour)]
  {
  }

  /** An existing derivative is served as it is: the store does not change. */
  lemma ExistingDerivativeUntouched(loc: Locations, files: map<int, ImageRecord>, store: map<string, Blob>,
                                    derive: Resizer, colour: string, id: int, width: int, height: int)
    requires id != 0 && id in files && width != 0 && height != 0
    requires ImageCachePath(loc, ImageFileName(files[id]), width, height) in store
    ensures Resolve(loc, files, store, derive, colour, id, width, height)
         == Resolution(Success(ImageCacheUrl(loc, ImageFileName(files[id]), width, height)), store)
  {
  }

  /** Repeating a call gives the same URL and writes nothing the second time. */
  lemma SecondCallIsCacheHit(loc: Locations, files: map<int, ImageRecord>, store: map<string, Blob>,
                             derive: Resizer, colour: string, id: int, width: int, height: int)
    requires id == 0 || id in files
    ensures var first := Resolve(loc, files, store, derive, colour, id, width, height);
            Resolve(loc, files, first.store, derive, colour, id, width, height) == first
  {
    if id != 0 && width != 0 && height != 0 {
      var first := Resolve(loc, files, store, derive, colour, id, width, height);
      var cachePath := ImageCachePath(loc, ImageFileName(files[id]), width, height);
      if first.url.Success? {
        assert cachePath in first.store;
      }
    }
  }

  lemma SeparatorAt(a: string, sep: char, b: string)
    ensures (a + [sep] + b)[|a|] == sep
  {
  }

  /** `a + [sep] + b` determines `a` and `b` when `a` contains no `sep`. */
  lemma SeparatorSplit(a: string, b: string, a': string, b': string, sep: char)
    requires sep !in a && sep !in a'
    requires a + [sep] + b == a' + [sep] + b'
    ensures a == a' && b == b'
  {
    var s := a + [sep] + b;
    // The first `sep` of s sits at |a| and at |a'|.
    if |a| < |a'| {
      SeparatorAt(a, sep, b);
      assert false;
    } else if |a'| < |a| {
      SeparatorAt(a', sep, b');
      assert false;
    }
    assert a == s[..|a|] == a';
    assert b == s[|a| + 1..] == b';
  }

  lemma FileNameInjective(f: ImageRecord, f': ImageRecord)
    ensures ImageFileName(f) == ImageFileName(f') <==> f == f'
  {
    if ImageFileName(f) == ImageFileName(f') {
      SeparatorSplit(IntToString(f.id), f.extension, IntToString(f'.id), f'.extension, '.');
      IntToStringInjective(f.id, f'.id);
    }
  }

  /** `p + x == p + y` only when `x == y`. */
  lemma StripPrefix(p: string, x: string, y: string)
    requires p + x == p + y
    ensures x == y
  {
    assert x == (p + x)[|p|..];
    assert y == (p + y)[|p|..];
  }

  lemma SizeDirectoryInjective(width: int, height: int, width': int, height': int)
    ensures '/' !in SizeDirectory(width, height)
    ensures SizeDirectory(width, height) == SizeDirectory(width', height') <==> width == width' && height == height'
  {
    if SizeDirectory(width, height) == SizeDirectory(width', height') {
      SeparatorSplit(IntToString(width), IntToString(height), IntToString(width'), IntToString(height'), '_');
      IntToStringInjective(width, width');
      IntToStringInjective(height, height');
    }
  }

  /** `base/dir/name` determines `dir` and `name` when `dir` has no slash. */
  lemma NestedJoinSplit(base: string, dir: string, name: string, dir': string, name': string)
    requires '/' !in dir && '/' !in dir'
    requires Join(Join(base, dir), name) == Join(Join(base, dir'), name')
    ensures dir == dir' && name == name'
  {
    var prefix := base + "/";
    assert Join(Join(base, dir), name) == prefix + (dir + "/" + name);
    assert Join(Join(base, dir'), name') == prefix + (dir' + "/" + name');
    StripPrefix(prefix, dir + "/" + name, dir' + "/" + name');
    SeparatorSplit(dir, name, dir', name', '/');
  }

  lemma SizedNameInjective(base: string, fileName: string, width: int, height: int,
                           fileName': string, width': int, height': int)
    ensures Join(Join(base, SizeDirectory(width, height)), fileName)
         == Join(Join(base, SizeDirectory(width', height')), fileName')
        <==> fileName == fileName' && width == width' && height == height'
  {
    var dir, dir' := SizeDirectory(width, height), SizeDirectory(width', height');
    if Join(Join(base, dir), fileName) == Join(Join(base, dir'), fileName') {
      SizeDirectoryInjective(width', height', width, height);
      SizeDirectoryInjective(width, height, width', height');
      NestedJoinSplit(base, dir, fileName, dir', fileName');
    }
  }

  /**
   * Each derivative key (image, width, height) has its own path: two keys
   * share a derivative file only if they are the same key.
   */
  lemma DerivativePathInjective(loc: Locations, f: ImageRecord, width: int, height: int,
                                f': ImageRecord, width': int, height': int)
    ensures ImageCachePath(loc, ImageFileName(f), width, height)
         == ImageCachePath(loc, ImageFileName(f'), width', height')
        <==> f == f' && width == width' && height == height'
  {
    SizedNameInjective(loc.cachePath, ImageFileName(f), width, height, ImageFileName(f'), width', height');
    FileNameInjective(f, f');
  }

  /** Image 7 with extension jpg at 100 x 50 lives at `{cache}/100_50/7.jpg`. */
  lemma ExampleLayout(loc: Locations)
    ensures ImageCachePath(loc, ImageFileName(ImageRecord(7, "jpg")), 100, 50) == loc.cachePath + "/100_50/7.jpg"
    ensures ImageCacheUrl(loc, ImageFileName(ImageRecord(7, "jpg")), 100, 50) == loc.cacheUrl + "/100_50/7.jpg"
  {
    assert IntToString(7) == "7";
    assert IntToString(50) == "50";
    assert IntToString(100) == "100";
    assert ImageFileName(ImageRecord(7, "jpg")) == "7.jpg";
    assert SizeDirectory(100, 50) == "100_50";
  }

  /** The arguments of one getImageUrl call (distinct from the HTTP request). */
  datatype ImageQuery = ImageQuery(id: int, width: int, height: int)

  ghost predicate Resolvable(files: map<int, ImageRecord>, queries: seq<ImageQuery>) {
    forall i :: 0 <= i < |queries| ==> queries[i].id == 0 || queries[i].id in files
  }

  /**
   * The file store after serving `queries` one after another. A file that is
   * present is never rewritten, so each path is written at most once.
   */
  function StoreAfter(loc: Locations, files: map<int, ImageRecord>, store: map<string, Blob>,
                      derive: Resizer, colour: string, queries: seq<ImageQuery>): (final: map<string, Blob>)
    requires Resolvable(files, queries)
    ensures forall p :: p in store ==> p in final && final[p] == store[p]
    decreases |queries|
  {
    if queries == [] then store
    else
      var q := queries[0];
      StoreAfter(loc, files, Resolve(loc, files, store, derive, colour, q.id, q.width, q.height).store,
                 derive, colour, queries[1..])
  }

  /** The derivative paths a sequence of calls may write. */
  ghost function DerivativePaths(loc: Locations, files: map<int, ImageRecord>, queries: seq<ImageQuery>): set<string>
    requires Resolvable(files, queries)
  {
    set i | 0 <= i < |queries| && queries[i].id != 0 :: ImageCachePath(loc, ImageFileName(files[queries[i].id]), queries[i].width, queries[i].height)
  }

  /** The only files a sequence of calls creates are derivatives of those calls. */
  lemma {:induction false} OnlyDerivativesWritten(loc: Locations, files: map<int, ImageRecord>, store: map<string, Blob>,
                                                  derive: Resizer, colour: string, queries: seq<ImageQuery>)
    requires Resolvable(files, queries)
    ensures StoreAfter(loc, files, store, derive, colour, queries).Keys <= store.Keys + DerivativePaths(loc, files, queries)
    decreases |queries|
  {
    if queries != [] {
      var q := queries[0];
      var next := Resolve(loc, files, store, derive, colour, q.id, q.width, q.height).store;
      assert Resolvable(files, queries[1..]) by {
        forall i | 0 <= i < |queries[1..]| ensures queries[1..][i].id == 0 || queries[1..][i].id in files {
          assert queries[1..][i] == queries[i + 1];
        }
      }
      OnlyDerivativesWritten(loc, files, next, derive, colour, queries[1..]);
      forall i | 0 <= i < |queries[1..]| && queries[1..][i].id != 0
        ensures ImageCachePath(loc, ImageFileName(files[queries[1..][i].id]), queries[1..][i].width, queries[1..][i].height)
                in DerivativePaths(loc, files, queries)
      {
        assert queries[1..][i] == queries[i + 1];
      }
      if q.id != 0 {
        assert ImageCachePath(loc, ImageFileName(files[q.id]), q.width, q.height) in DerivativePaths(loc, files, queries);
      }
    }
  }

  /**
   * The gallery component. Its fields are those of the class; `store` is the
   * filesystem service and `cache` the object cache it talks to.
   */
  class Gallery {
    var files: map<int, ImageRecord>
    const canvasBackgroundColour: string
    var cachePath: string
    var originalPath: string
    var host: string
    var cacheUrl: string
    var originalUrl: string
    var rootpath: string
    var store: map<string, Blob>
    var cache: map<string, map<int, ImageRecord>>
    const derive: Resizer
    /** How many times the file repository has been asked for all rows. */
    ghost var repositoryFetches: nat

    constructor (store: map<string, Blob>, cache: map<string, map<int, ImageRecord>>, derive: Resizer)
      ensures this.store == store && this.cache == cache && this.derive == derive
      ensures files == map[] && canvasBackgroundColour == CanvasBackgroundColour
      ensures cachePath == "" && originalPath == "" && host == ""
      ensures cacheUrl == "" && originalUrl == "" && rootpath == ""
      ensures repositoryFetches == 0
    {
      this.store, this.cache, this.derive := store, cache, derive;
      files, canvasBackgroundColour := map[], CanvasBackgroundColour;
      cachePath, originalPath, host, cacheUrl, originalUrl, rootpath := "", "", "", "", "", "";
      repositoryFetches := 0;
    }

    function CurrentLocations(): Locations
      reads this
    {
      Locations(cachePath, originalPath, cacheUrl, originalUrl)
    }

    /**
     * Sets the base paths from `paths` (keys "original" and "cache"), the
     * application root path and the request's scheme and host.
     */
    method SetPaths(paths: map<string, string>, rootPath: string, schemeAndHost: string)
      returns (r: Outcome<GalleryError>)
      modifies this`rootpath, this`cachePath, this`originalPath, this`host, this`cacheUrl, this`originalUrl
      ensures "original" !in paths ==> r == Fail(MissingPath("original"))
      ensures "original" in paths && "cache" !in paths ==> r == Fail(MissingPath("cache"))
      ensures r.Fail? ==> unchanged(this)
      ensures "original" in paths && "cache" in paths ==>
        && r == Pass
        && rootpath == rootPath
        && cachePath == rootPath + "/" + paths["cache"]
        && originalPath == rootPath + "/" + paths["original"]
        && host == schemeAndHost
        && cacheUrl == schemeAndHost + "/" + paths["cache"]
        && originalUrl == schemeAndHost + "/" + paths["original"]
    {
      if "original" !in paths {
        return Fail(MissingPath("original"));
      }
      if "cache" !in paths {
        return Fail(MissingPath("cache"));
      }
      rootpath := rootPath;
      cachePath := Join(rootpath, paths["cache"]);
      originalPath := Join(rootpath, paths["original"]);
      host := schemeAndHost;
      cacheUrl := Join(host, paths["cache"]);
      originalUrl := Join(host, paths["original"]);
      r := Pass;
    }

    /**
     * Loads the id-to-record map: from the object cache when it holds one,
     * otherwise from `records` (the repository's rows), storing the result
     * in the cache.
     */
    method SetFiles(records: seq<ImageRecord>)
      modifies this`files, this`cache, this`repositoryFetches
      ensures FilesKey in old(cache) ==>
        && files == old(cache)[FilesKey]
        && cache == old(cache)
        && repositoryFetches == old(repositoryFetches)
      ensures FilesKey !in old(cache) ==>
        && files == Indexing.IndexBy(old(files), records, RecordId, RecordItself)
        && cache == old(cache)[FilesKey := files]
        && repositoryFetches == old(repositoryFetches) + 1
    {
      if FilesKey in cache {
        files := cache[FilesKey];
      } else {
        repositoryFetches := repositoryFetches + 1;
        for i := 0 to |records|
          invariant cache == old(cache) && repositoryFetches == old(repositoryFetches) + 1
          invariant Indexing.IndexBy(files, records[i..], RecordId, RecordItself)
                 == Indexing.IndexBy(old(files), records, RecordId, RecordItself)
        {
          Indexing.IndexByStep(files, records, RecordId, RecordItself, i);
          files := files[records[i].id := records[i]];
        }
        cache := cache[FilesKey := files];
      }
    }

    /**
     * The URL of image `id` at `width` x `height` (0 meaning "not given"),
     * writing the derivative to the store when it is missing.
     */
    method GetImageUrl(id: int, width: int := 0, height: int := 0) returns (url: Result<string, GalleryError>)
      requires id == 0 || id in files
      modifies this`store
      ensures Resolution(url, store)
           == Resolve(CurrentLocations(), files, old(store), derive, canvasBackgroundColour, id, width, height)
    {
      if id == 0 {
        return Success("");
      }
      var file := files[id];
      var fileName := ImageFileName(file);
      var sourcePath := ImageOriginalPath(CurrentLocations(), fileName);
      var targetPath := ImageCachePath(CurrentLocations(), fileName, width, height);
      if width == 0 || height == 0 {
        return Success(ImageOriginalUrl(CurrentLocations(), fileName));
      }
      if targetPath !in store {
        if sourcePath !in store {
          return Failure(OriginalNotReadable(sourcePath));
        }
        var img := derive(store[sourcePath], width, height, canvasBackgroundColour);
        store := store[targetPath := img];
      }
      return Success(ImageCacheUrl(CurrentLocations(), fileName, width, height));
    }
  }

  /** Every entry of `files` is stored under its own record's id. */
  ghost predicate KeyedById(files: map<int, ImageRecord>) {
    forall k :: k in files ==> files[k].id == k
  }

  /** Loading rows from the repository keeps every entry under its own id. */
  lemma {:induction false} LoadedFilesKeyedById(files: map<int, ImageRecord>, records: seq<ImageRecord>)
    requires KeyedById(files)
    ensures KeyedById(Indexing.IndexBy(files, records, RecordId, RecordItself))
    decreases |records|
  {
    if records != [] {
      LoadedFilesKeyedById(files[records[0].id := records[0]], records[1..]);
    }
  }

  function RecordId(f: ImageRecord): int {
    f.id
  }

  function RecordItself(f: ImageRecord): ImageRecord {
    f
  }
}
