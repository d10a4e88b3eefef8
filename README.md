# WellCommerce image gallery and entity repository, modelled in Dafny

This project models two small pieces of the WellCommerce e-commerce platform.

**The image gallery** (`ImageGallery`) turns an image id and an optional
width and height into a URL. Id 0 means "no image" and gives the empty
string. A zero or absent width or height gives the original's URL. Any other
size gives the URL of a resized copy, a *derivative*, stored at
`{cache}/{width}_{height}/{id}.{extension}`. The derivative is written the
first time that size is requested and served as it is afterwards. The
gallery also keeps an id-to-record map of all images, which it takes from
the object cache under the key `files` when the cache holds it, and loads
from the file repository otherwise. The base paths come from a `paths`
configuration that must name both `original` and `cache`.

**The abstract entity repository** (`AbstractEntityRepository`) holds a
current locale. It derives its query alias from the entity's class name
without the namespace. It builds the criteria for `findResource` from the
request attributes (`slug` wins over `id`) and merges the caller's criteria
over them. It throws `EntityNotFoundException` when nothing matches. It
also builds the id-to-label map used by select lists.

Files:

- `Wrappers.dfy`: `Option` (PHP `null`), `Result` and `Outcome` (thrown exceptions).
- `Decimal.dfy`: how PHP prints an int with `%s`, and its inverse parser.
- `Indexing.dfy`: a map built by assigning `m[key(x)] = val(x)` for each
  element in order. Both `setFiles` and `getCollectionToSelect` build maps
  this way.
- `ImageGallery.dfy`: the path and URL helpers, `Resolve` (one
  `getImageUrl` call as a function of the state), lemmas about it, and the
  class `Gallery`, whose methods are proved against `Resolve` and
  `Indexing.IndexBy`.
- `EntityRepository.dfy`: `LastSegment`, `Criteria`, and the class
  `AbstractEntityRepository`.

Modelling choices:

- Image ids, widths and heights are integers. An absent (PHP `null`) width or
  height is passed as 0, which is what `(int)null` gives. The only other
  effect of `null` is on a cache path that the zero-size branch never uses.
- The filesystem service is the field `store`, a map from path to content.
  `exists` is `in store` and `dumpFile` is a map update.
- The object cache is the field `cache`, a map from key to value. Only the
  key `files` is used.
- The resize pipeline (`Image::make`, `resize`, `resizeCanvas` with the
  canvas colour `ffffff`) is `derive`, a function of the original's content,
  the width, the height and the colour. Nothing else is assumed about it.
- `Image::make` fails when the original cannot be opened. This is modelled
  as the error `OriginalNotReadable`, and nothing is written in that case.
- The repository's `all()`, the application root path (`application.root_path`)
  and the request's scheme and host are arguments of `SetFiles` and
  `SetPaths`.
- A ghost counter `repositoryFetches` counts the calls to the repository's
  `all()`.
- `findOneBy`, the property accessor's `getValue` and `Helper::snake` are
  function-typed arguments. `findAll()` and the class metadata are a
  sequence and a `ClassMetadata` value.

Behaviour of the code that the model keeps as it is:

- The code indexes `$this->files[$id]` directly, so a missing id has no
  defined behaviour. `GetImageUrl` therefore requires `id == 0 || id in files`.
- Widths and heights are only compared with 0, so negative sizes take the
  resize branch and print with a minus sign (`-5_10`).
- The file name uses the record's own `id` field, not the requested key.
  `LoadedFilesKeyedById` shows that the two agree for a map that
  `setFiles` built from the repository.

## Model

| member | source | states |
|---|---|---|
| Decimal.NatToString | application/WellCommerce/FileManager/Uploader/ImageGallery.php:117 | a natural number prints as a non-empty string of digits that starts with `0` only for 0, and is then just `0` |
| Decimal.IntToString | application/WellCommerce/FileManager/Uploader/ImageGallery.php:117 | an int prints as a canonical numeral: a minus sign exactly when negative, no leading zeros, no `-0`, and no `/`, `_` or `.` |
| Decimal.CanonicalNumeralUnique | application/WellCommerce/FileManager/Uploader/ImageGallery.php:117 | the printed form is the only canonical numeral that denotes the int |
| Decimal.ParseIntToString | application/WellCommerce/FileManager/Uploader/ImageGallery.php:117 | parsing the printed numeral gives back the int |
| Decimal.IntToStringInjective | application/WellCommerce/FileManager/Uploader/ImageGallery.php:117 | two ints print the same exactly when they are equal |
| Indexing.IndexBy | application/WellCommerce/FileManager/Uploader/ImageGallery.php:75-77 | every key of the starting map and the key of every element are in the built map |
| Indexing.IndexByKeys | application/WellCommerce/FileManager/Uploader/ImageGallery.php:75-77 | the built map's keys are the starting map's keys plus the key of every element |
| Indexing.IndexByLastWins | application/WellCommerce/FileManager/Uploader/ImageGallery.php:75-77 | the value under a key is the value of the last element with that key |
| Indexing.IndexByUntouched | application/WellCommerce/FileManager/Uploader/ImageGallery.php:75-77 | a key that no element has keeps its starting value |
| ImageGallery.Join | application/WellCommerce/FileManager/Uploader/ImageGallery.php:91 | `sprintf('%s/%s')` reads back as the base, one slash, then the name |
| ImageGallery.ImageFileName | application/WellCommerce/FileManager/Uploader/ImageGallery.php:139-142 | the file name is the printed id, a dot, then the extension; the first dot follows the id |
| ImageGallery.ImageOriginalPath | application/WellCommerce/FileManager/Uploader/ImageGallery.php:89-92 | the original's path is the original base, a slash, then the file name |
| ImageGallery.ImageOriginalUrl | application/WellCommerce/FileManager/Uploader/ImageGallery.php:101-104 | the original's URL is the original base URL, a slash, then the file name |
| ImageGallery.SizeDirectory | application/WellCommerce/FileManager/Uploader/ImageGallery.php:117 | the size directory is the printed width, an underscore, then the printed height; it has no slash and its only underscore follows the width |
| ImageGallery.ImageCachePath | application/WellCommerce/FileManager/Uploader/ImageGallery.php:115-118 | the derivative's path is the cache base, a slash, the `{w}_{h}` directory, a slash, then the file name |
| ImageGallery.ImageCacheUrl | application/WellCommerce/FileManager/Uploader/ImageGallery.php:127-130 | the derivative's URL is the cache base URL, a slash, the `{w}_{h}` directory, a slash, then the file name |
| ImageGallery.Resolve | application/WellCommerce/FileManager/Uploader/ImageGallery.php:153-179 | one call never changes or removes an existing file; with id 0 it writes nothing; otherwise at most the derivative's path is added |
| ImageGallery.ZeroIdIsBlank | application/WellCommerce/FileManager/Uploader/ImageGallery.php:155-157 | id 0 gives the empty URL and the same store, whatever the files and sizes |
| ImageGallery.UnsizedIsOriginal | application/WellCommerce/FileManager/Uploader/ImageGallery.php:164-165 | a zero width or height gives `originalUrl/{id}.{extension}` and leaves the store unchanged |
| ImageGallery.SizedIsCacheUrl | application/WellCommerce/FileManager/Uploader/ImageGallery.php:166-177 | with both sizes non-zero, a successful call returns the derivative's URL whether or not it existed; it fails exactly when the derivative and the original are both absent, and then nothing is written |
| ImageGallery.MissingDerivativeIsWritten | application/WellCommerce/FileManager/Uploader/ImageGallery.php:169-174 | a missing derivative is added at `cachePath/{w}_{h}/{fileName}` with content `derive(original, w, h, colour)`, and it is the only path written |
| ImageGallery.ExistingDerivativeUntouched | application/WellCommerce/FileManager/Uploader/ImageGallery.php:169-177 | an existing derivative leaves the store unchanged and its URL is returned |
| ImageGallery.SecondCallIsCacheHit | application/WellCommerce/FileManager/Uploader/ImageGallery.php:169-177 | repeating a call on the store the first call left gives the same URL and the same store |
| ImageGallery.FileNameInjective | application/WellCommerce/FileManager/Uploader/ImageGallery.php:139-142 | two records have the same `{id}.{extension}` file name exactly when they are equal |
| ImageGallery.DerivativePathInjective | application/WellCommerce/FileManager/Uploader/ImageGallery.php:115-118 | two (record, width, height) keys share a derivative path exactly when they are the same key |
| ImageGallery.ExampleLayout | application/WellCommerce/FileManager/Uploader/ImageGallery.php:115-130 | image 7 with extension `jpg` at 100 x 50 has path `{cachePath}/100_50/7.jpg` and URL `{cacheUrl}/100_50/7.jpg` |
| ImageGallery.StoreAfter | application/WellCommerce/FileManager/Uploader/ImageGallery.php:169-174 | over any sequence of calls, a file that exists is never rewritten, so each path is written at most once |
| ImageGallery.OnlyDerivativesWritten | application/WellCommerce/FileManager/Uploader/ImageGallery.php:160-174 | over any sequence of calls, every new file is the derivative path of one of the calls |
| ImageGallery.LoadedFilesKeyedById | application/WellCommerce/FileManager/Uploader/ImageGallery.php:75-77 | loading repository rows keeps every entry stored under its own record's id |
| ImageGallery.Gallery.constructor | application/WellCommerce/FileManager/Uploader/ImageGallery.php:25-39 | a new gallery has no files, empty paths, canvas colour `ffffff` and the given store, cache and resize function |
| ImageGallery.Gallery.SetPaths | application/WellCommerce/FileManager/Uploader/ImageGallery.php:48-63 | it fails on a missing `original` key, checked first, and then on a missing `cache` key, changing nothing; otherwise it sets `rootpath`, `cachePath = root/cache`, `originalPath = root/original`, `host`, `cacheUrl = host/cache` and `originalUrl = host/original` |
| ImageGallery.Gallery.SetFiles | application/WellCommerce/FileManager/Uploader/ImageGallery.php:69-80 | on a cache hit it loads the cached map and makes no repository fetch; otherwise it makes one fetch, puts each row under its id with later rows winning, and stores the result under `files` |
| ImageGallery.Gallery.GetImageUrl | application/WellCommerce/FileManager/Uploader/ImageGallery.php:153-179 | the URL returned and the new store are those that `Resolve` gives for the gallery's locations, files and old store |
| EntityRepository.LastSegment | src/WellCommerce/Bundle/CoreBundle/Repository/AbstractEntityRepository.php:83-84 | the result is a suffix of the name with no backslash, and it is preceded by a backslash unless it is the whole name |
| EntityRepository.LastSegmentAfterLastBackslash | src/WellCommerce/Bundle/CoreBundle/Repository/AbstractEntityRepository.php:83-84 | the result is the text after the last backslash, or the whole name when it has none |
| EntityRepository.Criteria | src/WellCommerce/Bundle/CoreBundle/Repository/AbstractEntityRepository.php:102-114 | the keys are the caller's keys plus `slug` if the request has one, else `id` if it has one; caller values win; request values fill the rest |
| EntityRepository.AbstractEntityRepository.constructor | src/WellCommerce/Bundle/CoreBundle/Repository/AbstractEntityRepository.php:31 | the current locale starts as null |
| EntityRepository.AbstractEntityRepository.SetCurrentLocale | src/WellCommerce/Bundle/CoreBundle/Repository/AbstractEntityRepository.php:38-41 | the current locale becomes the value passed |
| EntityRepository.AbstractEntityRepository.GetCurrentLocale | src/WellCommerce/Bundle/CoreBundle/Repository/AbstractEntityRepository.php:48-51 | it returns the current locale: null before any set, else the last value set |
| EntityRepository.AbstractEntityRepository.GetAlias | src/WellCommerce/Bundle/CoreBundle/Repository/AbstractEntityRepository.php:81-87 | the alias is `snake` of the text after the last backslash of the entity name, or of the whole name when it has no backslash |
| EntityRepository.AbstractEntityRepository.FindResource | src/WellCommerce/Bundle/CoreBundle/Repository/AbstractEntityRepository.php:100-121 | it fails with EntityNotFound(entity name) exactly when the lookup on the merged criteria finds nothing; otherwise it returns the entity found |
| EntityRepository.AbstractEntityRepository.GetCollectionToSelect | src/WellCommerce/Bundle/CoreBundle/Repository/AbstractEntityRepository.php:134-150 | the keys are exactly the items' ids; under each id is the label of the last item with that id, read from the requested label field if the metadata maps it and from `""` otherwise |

## Left out

- Resizing itself (`Image::make`, `resize`, `resizeCanvas`): aspect ratio, centring and pixel content belong to the image library. `derive` stands for the whole pipeline.
- `Gallery.GetImageUrl`: the filesystem's `exists` and `dumpFile` (lines 169 and 173) can throw an I/O error when a directory cannot be created or a write fails. Here a write is a map update that cannot fail, so "a failed write leaves no file" is not modelled.
- Undecodable image bytes: the model's `derive` is total, so a decode failure is not modelled.
- Under concurrent requests, two callers can both find a derivative missing and both write it. The model has one caller at a time, so this race and any locking scheme are not modelled.
- PHP's `(int)` coercion of arbitrary strings and values: ids and sizes are integers from the start, and `null` is 0.
- `Gallery.SetPaths`: PHP's `isset` is also false for a key whose value is `null`. In the model, a key is either absent or holds a string.
- `Gallery.SetFiles`: `$this->files` starts as `null` in PHP. The model starts it as the empty map, which behaves the same for every later read and write.
- `Gallery.SetFiles`: a repository failure during `all()` is not modelled.
- Object-cache and file-store expiry or eviction: those belong to the external services.
- `EntityRepository.Criteria`: `array_merge` renumbers integer keys. Criteria keys are field names, so they are modelled as strings.
- `AbstractEntityRepository.GetCollectionToSelect`: `$select` is an ordered PHP array, with ids in order of first occurrence and a repeated id keeping its first position. A `map` has no order, so that order is not modelled.
- `AbstractEntityRepository.GetCollectionToSelect`: PHP coerces array keys (`"1"` and `1` collide, `null` becomes `""`, floats are truncated). The model keys by the value the accessor returns, so those collisions are not modelled.
- `Gallery.SetFiles`: the same PHP key coercion applies to `$file['id']`. Ids are integers from the start, so it does not arise.
- `AbstractEntityRepository.GetCollectionToSelect`: `getSingleIdentifierFieldName()` throws for a composite identifier. `ClassMetadata` always has a single identifier, so that error is not modelled.
- `AbstractEntityRepository.GetCollectionToSelect`: what the property accessor does with the empty path `""` is up to the accessor, which is the `getValue` argument.
- `createNew`, `getQueryBuilder`, `deleteRow`, `getName`, `getMetadata`, `getPropertyAccessor`: these are thin ORM wrappers with no logic of their own.
- `Helper::snake`: its source is not part of this model, so it is an argument.
- `application/WellCommerce/Layout/Form/LayoutBoxForm.php`: it only makes form-builder and translation calls into the framework.
