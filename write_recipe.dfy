/** The stand-alone recipe writer write_recipe.py.

    `process_manifest` reads the text of a BagIt checksum manifest (lines
    `<md5>  <path>`), keeps the TIFF files, sorts them by path and makes one
    page per file; `process_bag` wraps the pages in the recipe header; and
    `update_tag_manifest` records the checksum of the written recipe in the
    bag's tag manifest unless the recipe is already listed there.

    `uuid5(repoUUID, x)` and `md5(data).hexdigest()` are the parameters
    `uuid` and `md5`, arbitrary functions: every property below holds for
    any such functions. */
module WriteRecipe {
  import opened Wrappers
  import opened Strings
  import opened OrderedDicts
  import opened Sequences
  import opened Recipes

  /** One manifest line: the digest and the path of a payload file. */
  datatype Entry = Entry(digest: string, path: string)

  /** `itemgetter(1)`: entries are sorted by path. */
  function PathOf(e: Entry): string
  {
    e.path
  }

  predicate NonEmpty(line: string)
  {
    line != ""
  }

  // ---------------------------------------------------------------------
  // process_manifest: parsing (lines 63-65)
  // ---------------------------------------------------------------------

  /** `[line for line in content.split("\n") if line]`. */
  function NonEmptyLines(content: string): seq<string>
  {
    Filter(Split(content, "\n"), NonEmpty)
  }

  /** `tif_hash, tif_filename = line.split("  ")`: any other number of
      fields raises ValueError. */
  function ParseLine(line: string): Result<Entry, Error>
  {
    var fields := Split(line, "  ");
    if |fields| == 2 then Ok(Entry(fields[0], fields[1])) else Err(ValueError(line))
  }

  function LineParser(): (nat, string) -> Result<Entry, Error>
  {
    (index: nat, line: string) => ParseLine(line)
  }

  /** The entries of the lines in manifest order, or the ValueError of the
      first line that does not unpack. */
  function ParseLines(lines: seq<string>): Result<seq<Entry>, Error>
  {
    Collect(lines, 0, LineParser())
  }

  /** `'tif' in tif_filename.lower()`. */
  predicate IsTif(e: Entry)
  {
    Contains(Lower(e.path), "tif")
  }

  /** `sorted(tif_list, key=itemgetter(1))`. */
  function SortedTifs(entries: seq<Entry>): seq<Entry>
  {
    SortBy(Filter(entries, IsTif), PathOf)
  }

  // ---------------------------------------------------------------------
  // process_manifest: the pages (lines 67-82)
  // ---------------------------------------------------------------------

  /** The page of the entry at position `index` of the sorted TIFF files, or
      the IndexError that `tif_filename.split("/")[1]` raises. The exif name
      ends in ".exit.txt". */
  function PageOf(bagname: string, bagpath: string, uuid: string -> string, index: nat, e: Entry): Result<Page, Error>
  {
    match SecondSegment(e.path)
    case Err(err) => Err(err)
    case Ok(seg) =>
      Ok([("label", ImageLabel(index + 1)), ("file", bagpath + "/" + e.path), ("md5", e.digest),
          ("uuid", uuid(bagname + "/" + e.path)), ("exif", seg + ".exit.txt")])
  }

  function PageBuilder(bagname: string, bagpath: string, uuid: string -> string): (nat, Entry) -> Result<Page, Error>
  {
    (index: nat, e: Entry) => PageOf(bagname, bagpath, uuid, index, e)
  }

  /** What `process_manifest` returns or raises: None when the content is
      missing or empty, otherwise the pages. */
  function ManifestPages(bagname: string, bagpath: string, content: Option<string>, uuid: string -> string)
    : Result<Option<seq<Page>>, Error>
  {
    if !Truthy(content) then Ok(None)
    else match ParseLines(NonEmptyLines(content.value))
      case Err(e) => Err(e)
      case Ok(entries) =>
        match Collect(SortedTifs(entries), 0, PageBuilder(bagname, bagpath, uuid))
        case Err(e) => Err(e)
        case Ok(pages) => Ok(Some(pages))
  }

  /** One iteration of the loop: the page is filled key by key. */
  method BuildPage(bagname: string, bagpath: string, uuid: string -> string, index: nat, e: Entry)
    returns (r: Result<Page, Error>)
    ensures r == PageOf(bagname, bagpath, uuid, index, e)
  {
    var lbl := ImageLabel(index + 1);
    var file := bagpath + "/" + e.path;
    var id := uuid(bagname + "/" + e.path);
    var page: Page := [];
    LabelFirst(lbl);
    page := Assign(page, "label", lbl);
    FileSecond(lbl, file);
    page := Assign(page, "file", file);
    Md5Third(lbl, file, e.digest);
    page := Assign(page, "md5", e.digest);
    UuidFourth(lbl, file, e.digest, id);
    page := Assign(page, "uuid", id);
    var seg := SecondSegment(e.path);
    if seg.Err? {
      assert PageOf(bagname, bagpath, uuid, index, e) == Err(seg.error);
      return Err(seg.error);
    }
    ExifFifth(lbl, file, e.digest, id, seg.value + ".exit.txt");
    page := Assign(page, "exif", seg.value + ".exit.txt");
    assert PageOf(bagname, bagpath, uuid, index, e) == Ok(page);
    r := Ok(page);
  }

  // Lines 72-76 append one new key each; the page after each of them.

  lemma LabelFirst(l: string)
    ensures Assign([], "label", l) == [("label", l)]
  {
    AssignNew([], "label", l);
  }

  lemma FileSecond(l: string, f: string)
    ensures Assign([("label", l)], "file", f) == [("label", l), ("file", f)]
  {
    AssignNew([("label", l)], "file", f);
  }

  lemma Md5Third(l: string, f: string, m: string)
    ensures Assign([("label", l), ("file", f)], "md5", m) == [("label", l), ("file", f), ("md5", m)]
  {
    AssignNew([("label", l), ("file", f)], "md5", m);
  }

  lemma UuidFourth(l: string, f: string, m: string, u: string)
    ensures Assign([("label", l), ("file", f), ("md5", m)], "uuid", u)
         == [("label", l), ("file", f), ("md5", m), ("uuid", u)]
  {
    AssignNew([("label", l), ("file", f), ("md5", m)], "uuid", u);
  }

  lemma ExifFifth(l: string, f: string, m: string, u: string, x: string)
    ensures Assign([("label", l), ("file", f), ("md5", m), ("uuid", u)], "exif", x)
         == [("label", l), ("file", f), ("md5", m), ("uuid", u), ("exif", x)]
  {
    AssignNew([("label", l), ("file", f), ("md5", m), ("uuid", u)], "exif", x);
  }

  /** `process_manifest`: parse and sort, then append one page per TIFF
      file. */
  method ProcessManifest(bagname: string, bagpath: string, content: Option<string>, uuid: string -> string)
    returns (r: Result<Option<seq<Page>>, Error>)
    ensures r == ManifestPages(bagname, bagpath, content, uuid)
  {
    if !Truthy(content) {
      return Ok(None);
    }
    var parsed := ParseLines(NonEmptyLines(content.value));
    if parsed.Err? {
      return Err(parsed.error);
    }
    var tifs := SortedTifs(parsed.value);
    ghost var build := PageBuilder(bagname, bagpath, uuid);
    ghost var result := Collect(tifs, 0, build);
    var pages: seq<Page> := [];
    PrependNothing(result);
    var index := 0;
    while index < |tifs|
      invariant index <= |tifs|
      invariant result == Prepend(pages, Collect(tifs, index, build))
    {
      var page := BuildPage(bagname, bagpath, uuid, index, tifs[index]);
      assert page == build(index, tifs[index]);
      if page.Err? {
        return Err(page.error);
      }
      CollectStep(tifs, index, build, pages);
      pages := pages + [page.value];
      index := index + 1;
    }
    CollectDone(tifs, build, pages);
    r := Ok(Some(pages));
  }

  // ---------------------------------------------------------------------
  // Properties of process_manifest
  // ---------------------------------------------------------------------

  /** No pages, as None rather than an empty list, exactly when the content
      is missing or empty; a manifest with only empty lines gives the empty
      list. */
  lemma ManifestPagesNone(bagname: string, bagpath: string, content: Option<string>, uuid: string -> string)
    ensures ManifestPages(bagname, bagpath, content, uuid) == Ok(None) <==> !Truthy(content)
    ensures Truthy(content) && NonEmptyLines(content.value) == []
        ==> ManifestPages(bagname, bagpath, content, uuid) == Ok(Some([]))
  {
    if Truthy(content) && NonEmptyLines(content.value) == [] {
      var entries := ParseLines([]).value;
      assert entries == [];
      assert SortedTifs(entries) == [];
    }
  }

  /** The lines read are the non-empty lines of the content, in order. */
  lemma NonEmptyLinesExact(content: string)
    ensures forall line :: line in NonEmptyLines(content) <==> line in Split(content, "\n") && line != ""
    ensures Join(Split(content, "\n"), "\n") == content
  {
    JoinSplit(content, "\n");
  }

  /** The lines are read in content order: the lines of text before a line
      break come first, then those after it, each as often as it occurs. */
  lemma NonEmptyLinesConcat(c1: string, c2: string)
    ensures NonEmptyLines(c1 + "\n" + c2) == NonEmptyLines(c1) + NonEmptyLines(c2)
  {
    SplitConcat(c1, '\n', c2);
    FilterAppend(Split(c1, "\n"), Split(c2, "\n"), NonEmpty);
  }

  /** Parsing succeeds exactly when every line splits into two fields; the
      entries are then those fields, one per line, in line order. */
  lemma ParseLinesOk(lines: seq<string>)
    ensures ParseLines(lines).Ok? <==> forall i :: 0 <= i < |lines| ==> |Split(lines[i], "  ")| == 2
    ensures ParseLines(lines).Ok? ==>
      var entries := ParseLines(lines).value;
      |entries| == |lines| &&
      forall i :: 0 <= i < |lines| ==>
        entries[i] == Entry(Split(lines[i], "  ")[0], Split(lines[i], "  ")[1])
  {
    var parse := LineParser();
    CollectOk(lines, 0, parse);
    forall i | 0 <= i < |lines|
      ensures parse(i, lines[i]).Ok? <==> |Split(lines[i], "  ")| == 2
    {
      assert parse(i, lines[i]) == ParseLine(lines[i]);
    }
    if ParseLines(lines).Ok? {
      var entries := ParseLines(lines).value;
      forall i | 0 <= i < |lines|
        ensures entries[i] == Entry(Split(lines[i], "  ")[0], Split(lines[i], "  ")[1])
      {
        assert parse(i, lines[i]) == Ok(entries[i]);
        assert ParseLine(lines[i]) == Ok(entries[i]);
      }
    }
  }

  /** A failing parse reports the first line that does not split into two
      fields. */
  lemma ParseLinesErr(lines: seq<string>)
    requires ParseLines(lines).Err?
    ensures exists i ::
              && 0 <= i < |lines|
              && ParseLines(lines).error == ValueError(lines[i])
              && |Split(lines[i], "  ")| != 2
              && (forall j :: 0 <= j < i ==> |Split(lines[j], "  ")| == 2)
  {
    var parse := LineParser();
    CollectErr(lines, 0, parse);
    var i :| 0 <= i < |lines| && parse(i, lines[i]) == Err(ParseLines(lines).error)
      && forall j :: 0 <= j < i ==> parse(j, lines[j]).Ok?;
    assert ParseLine(lines[i]) == parse(i, lines[i]);
    forall j | 0 <= j < i
      ensures |Split(lines[j], "  ")| == 2
    {
      assert ParseLine(lines[j]) == parse(j, lines[j]);
    }
  }

  /** A line `<digest>  <path>` is read back as that digest and path when
      the digest has no space and the path no double space. */
  lemma EntryLineRoundTrip(digest: string, path: string)
    requires ' ' !in digest && !Contains(path, "  ")
    ensures ParseLine(digest + "  " + path) == Ok(Entry(digest, path))
  {
    var s := digest + "  " + path;
    forall j: nat | j < |digest|
      ensures !OccursAt(s, "  ", j)
    {
      assert s[j] == digest[j];
      assert j + 2 <= |s| ==> s[j..j + 2][0] == s[j];
    }
    assert OccursAt(s, "  ", |digest|) by {
      assert s[|digest|..|digest| + 2] == "  ";
    }
    var found := FindFrom(s, "  ", 0);
    assert found == Some(|digest|);
    assert s[..|digest|] == digest;
    assert s[|digest| + 2..] == path;
    assert Split(path, "  ") == [path];
    assert Split(s, "  ") == [digest, path];
  }

  /** The TIFF files are exactly the entries whose lower-cased path holds
      "tif" anywhere, and they keep their manifest order. */
  lemma TifEntriesExact(a: seq<Entry>, b: seq<Entry>)
    ensures forall e :: e in Filter(a, IsTif) <==> e in a && IsTif(e)
    ensures Filter(a + b, IsTif) == Filter(a, IsTif) + Filter(b, IsTif)
  {
    FilterAppend(a, b, IsTif);
  }

  /** The files are visited in ascending path order, each TIFF file once;
      files with the same path keep their manifest order. */
  lemma SortedTifsOrder(entries: seq<Entry>)
    ensures multiset(SortedTifs(entries)) == multiset(Filter(entries, IsTif))
    ensures SortedBy(SortedTifs(entries), PathOf)
    ensures forall p :: Filter(SortedTifs(entries), HasKey(PathOf, p)) == Filter(Filter(entries, IsTif), HasKey(PathOf, p))
  {
    var tifs := Filter(entries, IsTif);
    SortBySorted(tifs, PathOf);
    forall p
      ensures Filter(SortedTifs(entries), HasKey(PathOf, p)) == Filter(tifs, HasKey(PathOf, p))
    {
      SortByStable(tifs, PathOf, p);
    }
  }

  /** The page of an entry exists exactly when its path holds a "/";
      otherwise it is the IndexError for that path. */
  lemma PageOfOk(bagname: string, bagpath: string, uuid: string -> string, index: nat, e: Entry)
    ensures PageOf(bagname, bagpath, uuid, index, e).Ok? <==> '/' in e.path
    ensures PageOf(bagname, bagpath, uuid, index, e).Err? ==> PageOf(bagname, bagpath, uuid, index, e) == Err(IndexError(e.path))
  {
    SecondSegmentExists(e.path);
  }

  /** A page has the keys label, file, md5, uuid, exif in that order, with the label
      of its position counting from 1, the file under the bag path, the
      entry's digest, the uuid of its bag path and the second path segment
      followed by ".exit.txt". */
  lemma PageOfValues(bagname: string, bagpath: string, uuid: string -> string, index: nat, e: Entry)
    ensures PageOf(bagname, bagpath, uuid, index, e).Ok? ==>
      var page := PageOf(bagname, bagpath, uuid, index, e).value;
      && Keys(page) == ["label", "file", "md5", "uuid", "exif"]
      && Lookup(page, "label") == Some(ImageLabel(index + 1))
      && Lookup(page, "file") == Some(bagpath + "/" + e.path)
      && Lookup(page, "md5") == Some(e.digest)
      && Lookup(page, "uuid") == Some(uuid(bagname + "/" + e.path))
      && Lookup(page, "exif") == Some(Split(e.path, "/")[1] + ".exit.txt")
      && '/' !in Split(e.path, "/")[1]
  {
    SecondSegmentExists(e.path);
    var r := PageOf(bagname, bagpath, uuid, index, e);
    if r.Ok? {
      var page := r.value;
      LookupAt(page, 0);
      LookupAt(page, 1);
      LookupAt(page, 2);
      LookupAt(page, 3);
      LookupAt(page, 4);
    }
  }

  /** With content whose lines all unpack, `process_manifest` is the page
      loop over the sorted TIFF files. */
  lemma ManifestPagesLoop(bagname: string, bagpath: string, content: Option<string>, uuid: string -> string)
    requires Truthy(content) && ParseLines(NonEmptyLines(content.value)).Ok?
    ensures var loop := Collect(SortedTifs(ParseLines(NonEmptyLines(content.value)).value), 0, PageBuilder(bagname, bagpath, uuid));
      ManifestPages(bagname, bagpath, content, uuid) == if loop.Ok? then Ok(Some(loop.value)) else Err(loop.error)
  {
  }

  /** The page loop over a list of entries completes exactly when every
      path holds a "/", and then makes the page at position `i` from the
      `i`-th entry. */
  lemma {:induction false} PageLoopShape(bagname: string, bagpath: string, uuid: string -> string, tifs: seq<Entry>)
    ensures Collect(tifs, 0, PageBuilder(bagname, bagpath, uuid)).Ok? <==> forall i :: 0 <= i < |tifs| ==> '/' in tifs[i].path
    ensures Collect(tifs, 0, PageBuilder(bagname, bagpath, uuid)).Ok? ==>
      var pages := Collect(tifs, 0, PageBuilder(bagname, bagpath, uuid)).value;
      && |pages| == |tifs|
      && forall i :: 0 <= i < |tifs| ==> PageOf(bagname, bagpath, uuid, i, tifs[i]) == Ok(pages[i])
  {
    var build := PageBuilder(bagname, bagpath, uuid);
    CollectOk(tifs, 0, build);
    forall i | 0 <= i < |tifs|
      ensures build(i, tifs[i]).Ok? <==> '/' in tifs[i].path
    {
      PageOfOk(bagname, bagpath, uuid, i, tifs[i]);
    }
    if Collect(tifs, 0, build).Ok? {
      var pages := Collect(tifs, 0, build).value;
      forall i | 0 <= i < |tifs|
        ensures PageOf(bagname, bagpath, uuid, i, tifs[i]) == Ok(pages[i])
      {
        assert build(i, tifs[i]) == Ok(pages[i]);
      }
    }
  }

  /** With content, `process_manifest` returns pages exactly when every
      line unpacks and every TIFF path holds a "/"; it then returns one page
      per TIFF file, the page at position `i` made from the `i`-th file in
      path order. */
  lemma ManifestPagesShape(bagname: string, bagpath: string, content: Option<string>, uuid: string -> string)
    requires Truthy(content) && ParseLines(NonEmptyLines(content.value)).Ok?
    ensures var tifs := SortedTifs(ParseLines(NonEmptyLines(content.value)).value);
      && (ManifestPages(bagname, bagpath, content, uuid).Ok? <==> forall i :: 0 <= i < |tifs| ==> '/' in tifs[i].path)
      && (ManifestPages(bagname, bagpath, content, uuid).Ok? ==>
           var pages := ManifestPages(bagname, bagpath, content, uuid).value;
           && pages.Some?
           && |pages.value| == |tifs|
           && forall i :: 0 <= i < |tifs| ==> PageOf(bagname, bagpath, uuid, i, tifs[i]) == Ok(pages.value[i]))
  {
    var tifs := SortedTifs(ParseLines(NonEmptyLines(content.value)).value);
    ManifestPagesLoop(bagname, bagpath, content, uuid);
    PageLoopShape(bagname, bagpath, uuid, tifs);
  }

  /** A failing `process_manifest` raises ValueError for a non-empty line
      that does not unpack, or IndexError for the first TIFF file in path
      order whose path has no "/". */
  lemma ManifestPagesError(bagname: string, bagpath: string, content: Option<string>, uuid: string -> string)
    requires ManifestPages(bagname, bagpath, content, uuid).Err?
    ensures Truthy(content)
    ensures var lines := NonEmptyLines(content.value);
      var e := ManifestPages(bagname, bagpath, content, uuid).error;
      if ParseLines(lines).Err? then
        exists i :: 0 <= i < |lines| && e == ValueError(lines[i]) && lines[i] != "" && |Split(lines[i], "  ")| != 2
      else
        var tifs := SortedTifs(ParseLines(lines).value);
        exists i :: 0 <= i < |tifs| && e == IndexError(tifs[i].path) && '/' !in tifs[i].path
          && forall j :: 0 <= j < i ==> '/' in tifs[j].path
  {
    var lines := NonEmptyLines(content.value);
    if ParseLines(lines).Err? {
      ParseLinesErr(lines);
      forall i | 0 <= i < |lines|
        ensures lines[i] != ""
      {
        assert NonEmpty(lines[i]);
      }
    } else {
      var tifs := SortedTifs(ParseLines(lines).value);
      var build := PageBuilder(bagname, bagpath, uuid);
      CollectErr(tifs, 0, build);
      var i :| 0 <= i < |tifs| && build(i, tifs[i]) == Err(ManifestPages(bagname, bagpath, content, uuid).error)
        && forall j :: 0 <= j < i ==> build(j, tifs[j]).Ok?;
      forall j | 0 <= j <= i
        ensures build(j, tifs[j]).Ok? <==> '/' in tifs[j].path
        ensures build(j, tifs[j]).Err? ==> build(j, tifs[j]) == Err(IndexError(tifs[j].path))
      {
        PageOfOk(bagname, bagpath, uuid, j, tifs[j]);
      }
    }
  }

  /** The labels run "Image 1", "Image 2", ... in page order, with no gap
      and no repetition. */
  lemma ManifestLabels(bagname: string, bagpath: string, content: Option<string>, uuid: string -> string)
    requires ManifestPages(bagname, bagpath, content, uuid).Ok?
    ensures var pages := ManifestPages(bagname, bagpath, content, uuid).value;
      pages.Some? ==>
        && (forall i :: 0 <= i < |pages.value| ==> Lookup(pages.value[i], "label") == Some(ImageLabel(i + 1)))
        && (forall i, j :: 0 <= i < j < |pages.value| ==> Lookup(pages.value[i], "label") != Lookup(pages.value[j], "label"))
  {
    var pages := ManifestPages(bagname, bagpath, content, uuid).value;
    if pages.Some? {
      var tifs := SortedTifs(ParseLines(NonEmptyLines(content.value)).value);
      ManifestPagesLoop(bagname, bagpath, content, uuid);
      PageLoopShape(bagname, bagpath, uuid, tifs);
      var ps := pages.value;
      assert |ps| == |tifs|;
      forall i | 0 <= i < |ps|
        ensures Lookup(ps[i], "label") == Some(ImageLabel(i + 1))
      {
        PageOfValues(bagname, bagpath, uuid, i, tifs[i]);
      }
      forall i, j | 0 <= i < j < |ps|
        ensures Lookup(ps[i], "label") != Lookup(ps[j], "label")
      {
        ImageLabelInjective(i + 1, j + 1);
      }
    }
  }

  // ---------------------------------------------------------------------
  // process_bag (lines 85-100)
  // ---------------------------------------------------------------------

  /** `metadata`: the MARC XML file named after the bag. */
  function BagMetadata(filename: string): Dict<string>
  {
    [("marcxml", filename + ".xml")]
  }

  /** The pages as a recipe value: None is serialised as null. */
  function PagesValue(pages: Option<seq<Page>>): Value
  {
    match pages
    case None => Null
    case Some(ps) => Pages(ps)
  }

  /** The recipe header `process_bag` fills before it reads the manifest:
      import, update, uuid, label and the metadata dict, which is filled
      after it is stored in the recipe. */
  function BagHeader(title: string, filename: string, uuid: string -> string): Dict<Value>
  {
    BagKeysDistinct();
    [("import", Str("book")), ("update", Str("false")), ("uuid", Str(uuid(filename))), ("label", Str(title)),
     ("metadata", Obj(BagMetadata(filename)))]
  }

  /** `meta['recipe']` around the given pages. */
  function BagRecipeDict(title: string, filename: string, uuid: string -> string, pages: Option<seq<Page>>): Dict<Value>
  {
    BagHeader(title, filename, uuid) + [("pages", PagesValue(pages))]
  }

  /** The document `process_bag` serialises, or the error of
      `process_manifest`; `manifest` is what `get_bag_manifest` read. */
  function BagRecipe(bagpath: string, title: string, filename: string, manifest: Option<string>, uuid: string -> string)
    : Result<Document, Error>
  {
    match ManifestPages(filename, bagpath, manifest, uuid)
    case Err(e) => Err(e)
    case Ok(pages) => Ok(Document(BagRecipeDict(title, filename, uuid, pages)))
  }

  /** Lines 86-94 of `process_bag`: the recipe is filled key by key. */
  method FillHeader(title: string, filename: string, uuid: string -> string) returns (recipe: Dict<Value>)
    ensures recipe == BagHeader(title, filename, uuid)
  {
    var id := Str(uuid(filename));
    recipe := [];
    AfterImport(Str("book"));
    recipe := Assign(recipe, "import", Str("book"));
    AfterUpdate(Str("book"), Str("false"));
    recipe := Assign(recipe, "update", Str("false"));
    AfterUuid(Str("book"), Str("false"), id);
    recipe := Assign(recipe, "uuid", id);
    AfterLabel(Str("book"), Str("false"), id, Str(title));
    recipe := Assign(recipe, "label", Str(title));
    assert recipe == [("import", Str("book")), ("update", Str("false")), ("uuid", id), ("label", Str(title))];
    var metadata: Dict<string> := [];
    recipe := Assign(recipe, "metadata", Obj(metadata));
    metadata := Assign(metadata, "marcxml", filename + ".xml");
    assert metadata == BagMetadata(filename);
    recipe := Assign(recipe, "metadata", Obj(metadata));
    HeaderMetadata(Str("book"), Str("false"), id, Str(title), Obj([]), Obj(metadata));
  }

  /** `process_bag`, up to serialisation: the header, then the pages of
      the manifest, or the error of `process_manifest`. */
  method ProcessBag(bagpath: string, title: string, filename: string, manifest: Option<string>, uuid: string -> string)
    returns (r: Result<Document, Error>)
    ensures r == BagRecipe(bagpath, title, filename, manifest, uuid)
  {
    var recipe := FillHeader(title, filename, uuid);
    var pages := ProcessManifest(filename, bagpath, manifest, uuid);
    if pages.Err? {
      return Err(pages.error);
    }
    var value := PagesValue(pages.value);
    HeaderPages(Str("book"), Str("false"), Str(uuid(filename)), Str(title), Obj(BagMetadata(filename)), value);
    recipe := Assign(recipe, "pages", value);
    r := Ok(Document(recipe));
  }

  /** The keys of a recipe differ from each other. */
  lemma BagKeysDistinct()
    ensures Distinct(["import", "update", "uuid", "label", "metadata", "pages"])
  {
  }

  /** Lines 92-94: the metadata key is appended, then its value replaced
      where it stands. */
  lemma HeaderMetadata(i: Value, u: Value, id: Value, l: Value, empty: Value, filled: Value)
    ensures Assign(Assign([("import", i), ("update", u), ("uuid", id), ("label", l)], "metadata", empty), "metadata", filled)
         == [("import", i), ("update", u), ("uuid", id), ("label", l), ("metadata", filled)]
  {
    BagKeysDistinct();
    var header: Dict<Value> := [("import", i), ("update", u), ("uuid", id), ("label", l)];
    AssignNew(header, "metadata", empty);
    var stored := header + [("metadata", empty)];
    LookupAt(stored, 4);
    assert stored[..4] == header;
  }

  /** Line 97: the pages key is appended last. */
  lemma HeaderPages(i: Value, u: Value, id: Value, l: Value, m: Value, p: Value)
    ensures Assign([("import", i), ("update", u), ("uuid", id), ("label", l), ("metadata", m)], "pages", p)
         == [("import", i), ("update", u), ("uuid", id), ("label", l), ("metadata", m), ("pages", p)]
  {
    BagKeysDistinct();
    AssignNew([("import", i), ("update", u), ("uuid", id), ("label", l), ("metadata", m)], "pages", p);
  }

  /** The recipe has the keys import, update, uuid, label, metadata, pages
      in that order: import "book", update "false", the uuid of the file
      name, the title as label, the MARC XML file named after the bag as
      metadata, and the pages, null exactly when the manifest is missing or
      empty. */
  lemma BagRecipeValues(bagpath: string, title: string, filename: string, manifest: Option<string>, uuid: string -> string)
    ensures BagRecipe(bagpath, title, filename, manifest, uuid).Ok? <==> ManifestPages(filename, bagpath, manifest, uuid).Ok?
    ensures BagRecipe(bagpath, title, filename, manifest, uuid).Ok? ==>
      var recipe := BagRecipe(bagpath, title, filename, manifest, uuid).value.recipe;
      && Keys(recipe) == ["import", "update", "uuid", "label", "metadata", "pages"]
      && Lookup(recipe, "import") == Some(Str("book"))
      && Lookup(recipe, "update") == Some(Str("false"))
      && Lookup(recipe, "uuid") == Some(Str(uuid(filename)))
      && Lookup(recipe, "label") == Some(Str(title))
      && Lookup(recipe, "metadata") == Some(Obj([("marcxml", filename + ".xml")]))
      && Lookup(recipe, "pages").Some?
      && (Lookup(recipe, "pages") == Some(Null) <==> !Truthy(manifest))
  {
    var result := ManifestPages(filename, bagpath, manifest, uuid);
    if result.Ok? {
      var recipe := BagRecipeDict(title, filename, uuid, result.value);
      LookupAt(recipe, 0);
      LookupAt(recipe, 1);
      LookupAt(recipe, 2);
      LookupAt(recipe, 3);
      LookupAt(recipe, 4);
      LookupAt(recipe, 5);
      ManifestPagesNone(filename, bagpath, manifest, uuid);
    }
  }

  // ---------------------------------------------------------------------
  // update_tag_manifest (lines 103-110)
  // ---------------------------------------------------------------------

  /** The tag manifest after recording `target` with checksum `digest`:
      unchanged when `target` already occurs in it, otherwise one more line
      appended. */
  function WithEntry(contents: string, target: string, digest: string): string
  {
    if Contains(contents, target) then contents else contents + "\n" + digest + "  " + target
  }

  /** The contents of a tag manifest file. */
  class TagManifest {
    var contents: string

    /** `open(tagpath).read()`. */
    constructor(contents: string)
      ensures this.contents == contents
    {
      this.contents := contents;
    }

    /** `update_tag_manifest`: the target's bytes are hashed only when the
        target is not yet listed. */
    method Update(target: string, targetData: seq<bv8>, md5: seq<bv8> -> string)
      modifies this
      ensures contents == WithEntry(old(contents), target, md5(targetData))
    {
      if !Contains(contents, target) {
        var digest := md5(targetData);
        contents := contents + "\n" + digest + "  " + target;
      }
    }
  }

  /** Recording only ever appends, and afterwards the target is listed. */
  lemma WithEntryRecords(contents: string, target: string, digest: string)
    ensures |WithEntry(contents, target, digest)| >= |contents|
    ensures WithEntry(contents, target, digest)[..|contents|] == contents
    ensures Contains(WithEntry(contents, target, digest), target)
  {
    if !Contains(contents, target) {
      ContainsSuffix(contents + "\n" + digest + "  ", target);
    }
  }

  /** Recording the same target twice is recording it once, whatever
      checksum the second call computes. */
  lemma WithEntryIdempotent(contents: string, target: string, d1: string, d2: string)
    ensures WithEntry(WithEntry(contents, target, d1), target, d2) == WithEntry(contents, target, d1)
  {
    WithEntryRecords(contents, target, d1);
  }

  /** When the target was not listed, the last line of the new contents is
      `<digest>  <target>`, which the manifest parser reads back as that
      digest and target. */
  lemma WithEntryReadBack(contents: string, target: string, digest: string)
    requires !Contains(contents, target)
    requires ' ' !in digest && '\n' !in digest && '\n' !in target && !Contains(target, "  ")
    ensures var lines := Split(WithEntry(contents, target, digest), "\n");
      && lines[..|lines| - 1] == Split(contents, "\n")
      && lines[|lines| - 1] == digest + "  " + target
      && ParseLine(lines[|lines| - 1]) == Ok(Entry(digest, target))
  {
    var line := digest + "  " + target;
    var old_lines := Split(contents, "\n");
    assert '\n' !in line by {
      assert forall i :: 0 <= i < |line| ==> line[i] in digest || line[i] == ' ' || line[i] in target;
    }
    JoinSplit(contents, "\n");
    JoinSnoc(old_lines, line, "\n");
    assert WithEntry(contents, target, digest) == Join(old_lines + [line], "\n");
    SplitPiecesAvoidSep(contents, "\n");
    forall p | p in old_lines + [line]
      ensures '\n' !in p
    {
      if p in old_lines {
        ContainsChar(p, '\n');
      }
    }
    SplitJoin(old_lines + [line], "\n");
    EntryLineRoundTrip(digest, target);
  }
}
