# recipewriterq recipe assembly, in Dafny

recipewriterq builds the "recipe" of a digitised book. A recipe is a JSON
document that lists the book's page images in order, together with their
checksums, name-based uuids and optional companion files. It also carries a
small header: import, update, uuid, label, optional MARC metadata, and the
pages. This project models the two places where the repository assembles a
recipe and proves what they produce:

- `recipewriterq/tasks/tasks.py`, in `tasks.dfy` (module `Tasks`):
  - `process_manifest` turns a bag's payload map (file name to checksum
    algorithm to digest) into one page per file, in sorted file-name order.
  - `generate_recipe` wraps those pages in the header. `metadata` is present
    only when the MARC record was persisted, and the title falls back to the
    bibliographic title.
  - The pure rules of `process_derivative`: normalising `s3_bags`, the guard,
    the S3 upload keys and the returned recipe URLs.
- `write_recipe.py`, in `write_recipe.dfy` (module `WriteRecipe`):
  - `process_manifest` parses the text of a BagIt `manifest-md5.txt`, keeps
    the TIFF files, sorts them by path and makes one page per file.
  - `process_bag` fills the recipe header around those pages.
  - `update_tag_manifest` appends the recipe's checksum line to the tag
    manifest, unless the recipe is already listed there.

Supporting modules:

- `wrappers.dfy`: `Option` and `Result`.
- `strings.dfy`: the Python `str` operations the code uses. These are
  ordering, `split`/`join`, substring search, `lower()` and `str(int)`.
- `ordered_dicts.dfy`: Python's insertion-ordered `dict`/`OrderedDict`. It is
  a sequence of key/value pairs with distinct keys. Assigning to a present
  key replaces the value where it stands; assigning a new key appends it.
- `sequences.dfy`: three list idioms.
  - `Filter` models a comprehension with `if`.
  - `SortBy` models a stable `sorted(key=...)`.
  - `Collect` models the `for index, item in enumerate(...): append(...)`
    loop that stops at the first exception.
- `recipes.dfy`: the value, document and error types both writers share,
  Python truthiness, the "Image N" label, `path.split("/")[1]`, and the
  first four header assignments.

The code that changes state step by step is modelled as methods, each proved
equal to a specification function. These are the page loops, the per-key
page and recipe filling, the checksum-copy loop and the tag-manifest update.
The properties are proved as lemmas about those functions. `uuid5(repoUUID,
.)` and `md5(.).hexdigest()` are function parameters, so every property
holds for any such functions. Where a property needs distinct uuids, it
requires `uuid` to be injective.

The model follows the code in these places:

- An empty or missing manifest makes `write_recipe.process_manifest` return
  None, not an empty list.
- A TIFF file is any path whose lower-cased text contains "tif" anywhere.
- A line that does not unpack into exactly two fields raises ValueError,
  including a line with three fields.
- `write_recipe.py` names the exif companion `<segment>.exit.txt`;
  `tasks.py` names it `<segment>.exif.txt`.
- Paths may repeat in a manifest. Sorting is then stable rather than
  strictly ascending.

## Model

| member | source | states |
|---|---|---|
| Tasks.CopyHashes | recipewriterq/tasks/tasks.py:44-45 | the checksum loop leaves the page equal to the page with every algorithm of `hashes` assigned in order |
| Tasks.BuildPage | recipewriterq/tasks/tasks.py:36-48 | one loop iteration makes exactly `PageFor`: label, file, the checksums, uuid, then exif or the IndexError of a name without "/" |
| Tasks.TailRun | recipewriterq/tasks/tasks.py:46-48 | setting uuid and then, optionally, exif is the run of the tail assignments |
| Tasks.ProcessManifest | recipewriterq/tasks/tasks.py:31-52 | the loop over the sorted names returns exactly `ManifestPages`: the pages, or the first error |
| Tasks.ManifestLoopStep | recipewriterq/tasks/tasks.py:35-50 | `payload[item]` exists for every sorted name, and each turn either ends with that page's error or appends its page |
| Tasks.SortedNamesOrder | recipewriterq/tasks/tasks.py:35 | the names are visited as a permutation of the payload keys, each once, in strictly ascending order |
| Tasks.PageForOk | recipewriterq/tasks/tasks.py:47-48 | a page exists iff exif is not requested or the name holds "/"; otherwise the error is IndexError of the name |
| Tasks.HeadLookup | recipewriterq/tasks/tasks.py:38-42 | the first two keys are label and file, with "Image i+1" and the file URL |
| Tasks.TailLookup | recipewriterq/tasks/tasks.py:46-48 | the tail keys are uuid, then exif only when an exif segment is given, with their values |
| Tasks.PageValue | recipewriterq/tasks/tasks.py:38-48 | the value of a page under any key: uuid of the bag path, exif name if requested, each checksum unchanged, otherwise label and file |
| Tasks.PageContent | recipewriterq/tasks/tasks.py:38-48 | the same statement for all keys at once, with nothing else in the page |
| Tasks.FilledKeys | recipewriterq/tasks/tasks.py:38-45 | without algorithm names that collide with page keys, the checksums follow label and file in their own order |
| Tasks.PageKeyOrder | recipewriterq/tasks/tasks.py:37-48 | without colliding algorithm names, the keys are label, file, the checksums, uuid, then exif exactly when it is requested |
| Tasks.BuilderAt | recipewriterq/tasks/tasks.py:36-48 | the loop body for a payload name makes that file's page and fails iff exif is needed and the name has no "/" |
| Tasks.NamesLoopShape | recipewriterq/tasks/tasks.py:35-50 | the loop over any list of payload names succeeds iff every needed exif segment exists; page i is then built from name i with index i |
| Tasks.ManifestPagesShape | recipewriterq/tasks/tasks.py:31-52 | `process_manifest` succeeds iff exif is off or every name holds "/"; it then returns one page per payload entry, page i made from the i-th sorted name |
| Tasks.ManifestPagesError | recipewriterq/tasks/tasks.py:35-48 | a failure only happens with exif on, is IndexError of the first sorted name without "/", and is never KeyError |
| Tasks.ManifestPageAt | recipewriterq/tasks/tasks.py:38-46 | page i carries the uuid of its bag path and, unless a checksum is named label, the label "Image i+1" |
| Tasks.ManifestUuids | recipewriterq/tasks/tasks.py:46 | every page carries uuid(bagname + "/" + its name) |
| Tasks.ManifestLabels | recipewriterq/tasks/tasks.py:38 | when no checksum is named label, the labels are "Image 1", "Image 2", ... in page order, whatever the listing order |
| Tasks.ManifestLabelsDistinct | recipewriterq/tasks/tasks.py:38 | when no checksum is named label, no two pages share a label |
| Tasks.BagPathInjective | recipewriterq/tasks/tasks.py:46 | two names of one bag give the same uuid key iff they are equal |
| Tasks.BagUuidsDiffer | recipewriterq/tasks/tasks.py:46 | with an injective `uuid`, different names of one bag get different uuids |
| Tasks.ManifestUuidsDistinct | recipewriterq/tasks/tasks.py:46 | with an injective `uuid`, no two pages share a uuid |
| Tasks.SortedNamesAgree | recipewriterq/tasks/tasks.py:35 | payloads with the same mapping have the same sorted names |
| Tasks.ManifestPagesIgnoreListingOrder | recipewriterq/tasks/tasks.py:35-36 | `process_manifest` depends on the payload only as a mapping, not on its listing order |
| Tasks.GenerateRecipe | recipewriterq/tasks/tasks.py:60-81 | given what `get_marc_xml` and `get_title_from_bib` returned, the field-by-field recipe build returns exactly `RecipeFor`: the recipe around the pages, or the error of `process_manifest` |
| Tasks.HeaderStartLookup | recipewriterq/tasks/tasks.py:62-65 | the first four keys are import, update, uuid, label, with "book", "false", uuid(bagname) and the title |
| Tasks.RecipeKeys | recipewriterq/tasks/tasks.py:62-81 | the recipe keys are import, update, uuid, label, then metadata only when the MARC record was persisted, then pages |
| Tasks.RecipeLookup | recipewriterq/tasks/tasks.py:62-81 | the value under any key: pages, the bibliographic title as label when the title is falsy, metadata when persisted, else the header value |
| Tasks.RecipeValues | recipewriterq/tasks/tasks.py:62-81 | import "book", update "false", uuid(bagname), label the truthy title else the bibliographic title (possibly null), metadata present iff persisted, and the pages |
| Tasks.NormalizeBagsShape | recipewriterq/tasks/tasks.py:219-225 | a string becomes a one-element list, a list or None is unchanged, a single name is processed iff a task id is given, an empty list never is |
| Tasks.Basename | recipewriterq/tasks/tasks.py:234 | the file name is the text after the last "/" of the path (the whole path when it has none) and holds no "/" |
| Tasks.UploadKeySegments | recipewriterq/tasks/tasks.py:234-240 | for "/"-free bag and format parameters, an upload key splits into destination, bag, format parameters, "data" for payload files, and the lower-cased file name |
| Tasks.RecipeUrlSegments | recipewriterq/tasks/tasks.py:247 | for "/"-free bag and format parameters, a recipe URL splits into the base segments, the bag, the format parameters and the lower-cased bag name + ".json" |
| Tasks.ProcessDerivative | recipewriterq/tasks/tasks.py:219-247 | with the loop iterating over the bag list, the result is present iff task id and bags are truthy, with one URL per bag |
| Tasks.ProcessDerivativeUrls | recipewriterq/tasks/tasks.py:247 | for any bag names and format parameters, URL i starts with the derivative base URL and bag i, ends in bag i's lower-cased name + ".json", and different bags get different URLs; when neither bag i nor the format parameters contain "/", URL i splits into exactly seven segments: the four of the base URL, the bag, the format parameters and the file name |
| Tasks.RecipeUrlInjective | recipewriterq/tasks/tasks.py:247 | two bag names with the same recipe URL are the same name |
| Tasks.AsWrittenFailsWhereUrlsAreDue | recipewriterq/tasks/tasks.py:225-229 | as written, `process_derivative` raises AttributeError exactly where the URLs are due, and agrees elsewhere |
| Tasks.AsWrittenCounterexample | recipewriterq/tasks/tasks.py:219-229 | `s3_bags = "Book_1"` with a task id raises as written, where the intended result is one URL ending in "book_1.json" |
| Recipes.ImageLabelInjective | recipewriterq/tasks/tasks.py:38 | two positions get the same label iff they are equal |
| Recipes.SecondSegmentExists | recipewriterq/tasks/tasks.py:48 | `split("/")[1]` exists iff the path holds "/", holds no "/" itself, and otherwise raises IndexError of the path |
| Recipes.SecondSegmentOf | recipewriterq/tasks/tasks.py:48 | for a path joined from "/"-free segments, the second segment is the second of them |
| OrderedDicts.AssignLookup | recipewriterq/tasks/tasks.py:45 | after `d[k] = v`, k maps to v and every other key keeps its value |
| OrderedDicts.RunKeysFresh | recipewriterq/tasks/tasks.py:44-45 | assigning new, distinct keys appends them in order |
| OrderedDicts.AssignAllLookup | recipewriterq/tasks/tasks.py:44-45 | after a run of assignments, a key holds the last value assigned to it, or its old value |
| Sequences.SortBySorted | recipewriterq/tasks/tasks.py:35 | `sorted` returns its input in ascending key order |
| Sequences.SortByStable | write_recipe.py:65 | `sorted` is stable: the entries of any one key keep their input order |
| Sequences.SortedStringsUnique | recipewriterq/tasks/tasks.py:35 | two sorted permutations of the same strings are equal |
| Sequences.CollectOk | recipewriterq/tasks/tasks.py:35-50 | the append loop completes iff no item fails, and output i is what item i made with index i |
| Sequences.CollectErr | write_recipe.py:70-80 | a failing append loop raises the error of the first failing item |
| WriteRecipe.NonEmptyLinesExact | write_recipe.py:63 | the lines read are exactly the non-empty `"\n"`-pieces of the content, and those pieces join back to the content |
| WriteRecipe.NonEmptyLinesConcat | write_recipe.py:63 | the lines are read in content order, each as often as it occurs: the lines of the text before a line break, then those after it |
| WriteRecipe.ParseLinesOk | write_recipe.py:63-64 | parsing succeeds iff every line splits on two spaces into exactly two fields; entry i is then the two fields of line i |
| WriteRecipe.ParseLinesErr | write_recipe.py:63-64 | a failing parse raises ValueError for the first line that does not split into two fields |
| WriteRecipe.EntryLineRoundTrip | write_recipe.py:63-64 | a line `<digest>  <path>`, with no space in the digest and no double space in the path, unpacks into that digest and path |
| WriteRecipe.TifEntriesExact | write_recipe.py:64 | the TIFF entries are exactly those whose lower-cased path contains "tif", in manifest order |
| WriteRecipe.SortedTifsOrder | write_recipe.py:64-65 | the sorted TIFF list is a permutation of the TIFF entries, ascending by path, and keeps manifest order among equal paths |
| WriteRecipe.PageOfOk | write_recipe.py:77 | a page exists iff the path holds "/"; otherwise the error is IndexError of the path |
| WriteRecipe.PageOfValues | write_recipe.py:72-77 | a page has keys label, file, md5, uuid, exif in order, with "Image i+1", bagpath/path, the digest, the uuid of the bag path and the second segment + ".exit.txt" |
| WriteRecipe.BuildPage | write_recipe.py:72-77 | one loop iteration makes exactly `PageOf`, including the IndexError raised at the exif line |
| WriteRecipe.ProcessManifest | write_recipe.py:60-82 | parsing, filtering, sorting and the page loop return exactly `ManifestPages`: None, the pages, or the first error |
| WriteRecipe.ManifestPagesNone | write_recipe.py:60-82 | the result is None iff the content is missing or empty; content with only empty lines gives an empty list |
| WriteRecipe.PageLoopShape | write_recipe.py:70-80 | the page loop succeeds iff every path holds "/", and page i is then built from entry i with index i |
| WriteRecipe.ManifestPagesShape | write_recipe.py:62-82 | with parsable content, the pages are one per TIFF entry in path order, and exist iff every TIFF path holds "/" |
| WriteRecipe.ManifestPagesError | write_recipe.py:62-77 | a failure is ValueError of a non-empty line that does not unpack, or IndexError of the first sorted TIFF path without "/" |
| WriteRecipe.ManifestLabels | write_recipe.py:70-73 | the labels are "Image 1", "Image 2", ... in page order, pairwise distinct |
| WriteRecipe.FillHeader | write_recipe.py:86-94 | the header build gives import, update, uuid, label and the filled metadata dict, in that order |
| WriteRecipe.HeaderMetadata | write_recipe.py:92-94 | metadata is appended empty, then filled where it stands |
| WriteRecipe.ProcessBag | write_recipe.py:85-97 | `process_bag` returns exactly `BagRecipe`: the header around the pages of the manifest, or the error of `process_manifest` |
| WriteRecipe.BagRecipeValues | write_recipe.py:85-97 | the keys are import, update, uuid, label, metadata, pages with "book", "false", uuid(filename), the title, marcxml filename + ".xml", and pages null iff the manifest is missing or empty |
| WriteRecipe.TagManifest.constructor | write_recipe.py:104 | the manifest holds the contents read |
| WriteRecipe.TagManifest.Update | write_recipe.py:103-110 | the new contents are `WithEntry` of the old: unchanged if the target occurs, else the old contents + "\n" + md5 + "  " + target |
| WriteRecipe.WithEntryRecords | write_recipe.py:105-108 | recording only appends, and afterwards the target occurs in the contents |
| WriteRecipe.WithEntryIdempotent | write_recipe.py:105-110 | recording the same target twice is recording it once, whatever digest the second call computes |
| WriteRecipe.WithEntryReadBack | write_recipe.py:105-108 | for an unlisted target (one line, no double space) and a space-free digest, the old lines are kept and the new last line is `<digest>  <target>`, which parses back as that entry |

## Left out

- I/O is not modelled. This covers `get_bag_manifest`, `get_bib_record` and
  its API key file, reading and writing recipe and tag-manifest files, boto3
  uploads, `rmtree`, and `iglob`. Their results are parameters: the manifest
  text, the bytes of the target file, and the bag and file names.
- `get_marc_xml` and `get_title_from_bib` parse and write XML. They are
  represented by their results: the `persisted` flag and the `bibTitle`
  option.
- Tasks.GenerateRecipe: models only the runs in which `get_marc_xml` and
  `get_title_from_bib` return; its error is only that of `process_manifest`.
  As written, `generate_recipe` can also raise before that:
  - `get_bib_record` returns None when the API key cannot be read or the
    request fails (lines 92-104). `ET.fromstring(None)` at line 119 then
    raises.
  - A bib record without a `<record>` element raises at `.attrib` (line
    120).
  - `get_marc_xml` returns False only when writing `marc.xml` raises
    IOError (lines 126-131). `persisted` stands for its returned value.
  - `get_title_from_bib` catches only IndexError (line 111). A bib record
    without `<title>` raises AttributeError at line 110.
- The Celery tasks `derivative_recipe` and `bag_derivatives` are not
  modelled. They walk directories and call bagit.
- `process_csv` and the `__main__` driver of write_recipe.py are not
  modelled. They read a CSV through pandas and loop over its rows.
- The SHA-1/UUIDv5 and MD5 internals are not modelled, and neither are the
  fixture asserts on `repoUUID` and `repoSHA`. uuid5 and md5 are arbitrary
  function parameters.
- JSON serialisation (`dumps(indent=4, ensure_ascii=False)` and the UTF-8
  encoding) is not modelled. The model stops at the ordered document.
- Some parameters are not modelled, because nothing the model covers reads
  them:
  - `taskid` of `tasks.process_manifest` (tasks.py:31) is read by nothing.
  - `taskid` of `generate_recipe` (tasks.py:55) is only passed on to that
    `process_manifest`.
  - `mmsid` of `generate_recipe` is read only by logging and by the I/O
    calls `get_bib_record` and `get_marc_xml` (tasks.py:58, 67-68).
  - `mmsid` of `process_derivative` (tasks.py:201) is passed only to the
    Celery task `derivative_recipe` at line 228.
  - `rmlocal` of `process_derivative` only controls `rmtree` (lines
    244-245).
  - `mmsid` of `write_recipe.process_bag` (write_recipe.py:85) is read by
    nothing.
- `write_recipe.process_manifest` (write_recipe.py:60) has no `taskid` or
  `mmsid`.
- The `taskid` of `process_derivative` is modelled, because its guard at
  line 225 reads it (`Tasks.ShouldProcess`).
- Strings.Lower: lowers ASCII letters only. Python's `str.lower()` also
  lowers non-ASCII letters. This affects the TIFF filter, the S3 file names
  and the recipe URL.
- WriteRecipe.ProcessManifest: the manifest content is a string. It is not
  the bytes that `requests` returns for a URL bag path.
- WriteRecipe.FillHeader: `meta['recipe']['metadata']` is filled in place in
  the source. The model stores the new dict again under the same key, which
  gives the same document because no other alias exists.
- WriteRecipe.ProcessBag: the URL bag path passed to `get_bag_manifest` is
  not modelled. The manifest text read is a parameter.
- Tasks.ProcessDerivative: the upload loop (lines 229-245) is not modelled as a loop.
  Only the keys it would use are modelled, by `Tasks.UploadKey`, and the loop
  is taken to iterate over the bag list (see Findings).
- Tasks.ManifestLabels: states the labels only when no checksum algorithm is
  named `label`. Such an algorithm would overwrite the label, and
  `Tasks.PageValue` states that case.
- Tasks.PageKeyOrder: states the key order only when no checksum algorithm
  is named label, file, uuid or exif. For those names, `Tasks.PageValue`
  gives the value of every key.

## Findings

| source | as written | input that shows it | evidently intended | confidence | as-written member | corrected member |
|---|---|---|---|---|---|---|
| recipewriterq/tasks/tasks.py:229 | `for bag in bags.split(',')` calls `split` on `bags`, which line 219 has just made a list, so it raises AttributeError whenever the guard at line 225 passes | `derivative_args = {'task_id': 't1', 's3_bags': 'Book_1', 'format_parameters': 'jpeg'}` | iterate over `bags` as line 247 does, returning `["https://bag.ou.edu/derivative/Book_1/jpeg/book_1.json"]` | high, not executed | Tasks.AsWrittenCounterexample | Tasks.ProcessDerivative |
