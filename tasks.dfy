/** The recipe assembly of recipewriterq/tasks/tasks.py.

    `process_manifest` turns a bag's payload (file name to checksums) into one
    page per file, in file-name order; `generate_recipe` wraps the pages in
    the recipe header; `process_derivative` normalises its bag list and names
    the uploaded objects and the resulting recipe URLs.

    `uuid5(repoUUID, x)` is the parameter `uuid`, an arbitrary function of
    its text: every property below holds for any such function. */
module Tasks {
  import opened Wrappers
  import opened Strings
  import opened OrderedDicts
  import opened Sequences
  import opened Recipes

  const DerivativeBagUrl: string := "https://bag.ou.edu/derivative"
  const S3Destination: string := "derivative"

  /** The checksums of one payload file: algorithm name to hex digest. */
  type Hashes = Dict<string>

  /** `bag.payload_entries()`: payload file name to its checksums. */
  type Payload = Dict<Hashes>

  /** The page keys that `process_manifest` writes itself; a checksum
      algorithm of one of these names would collide with them. */
  const Reserved: set<string> := {"label", "file", "uuid", "exif"}

  // ---------------------------------------------------------------------
  // process_manifest
  // ---------------------------------------------------------------------

  /** The `file` entry of a page: the format parameters form a path segment
      of their own only when they are truthy. */
  function FileUrl(bagname: string, formatparams: Option<string>, filename: string): string
  {
    if Truthy(formatparams) then DerivativeBagUrl + "/" + bagname + "/" + formatparams.value + "/" + filename
    else DerivativeBagUrl + "/" + bagname + "/" + filename
  }

  /** The first two assignments of a page: its label, counting from 1,
      and its file URL. */
  function HeadEntries(bagname: string, formatparams: Option<string>, index: nat, filename: string): Page
  {
    [("label", ImageLabel(index + 1)), ("file", FileUrl(bagname, formatparams, filename))]
  }

  /** The assignments after the checksums: the uuid of the file's bag path
      and, given the file's second path segment, its exif companion. */
  function TailEntries(bagname: string, uuid: string -> string, filename: string, exif: Option<string>): Page
  {
    [("uuid", uuid(bagname + "/" + filename))] + (if exif.Some? then [("exif", exif.value + ".exif.txt")] else [])
  }

  /** The page made for the payload file at position `index` of the sorted
      names, or the IndexError that `filename.split("/")[1]` raises. */
  function PageFor(bagname: string, formatparams: Option<string>, includeExif: bool, uuid: string -> string,
                   index: nat, filename: string, hashes: Hashes): Result<Page, Error>
  {
    var filled := AssignAll(HeadEntries(bagname, formatparams, index, filename), hashes);
    if !includeExif then Ok(AssignAll(filled, TailEntries(bagname, uuid, filename, None)))
    else match SecondSegment(filename)
      case Err(e) => Err(e)
      case Ok(seg) => Ok(AssignAll(filled, TailEntries(bagname, uuid, filename, Some(seg))))
  }

  /** The body of the loop for one name: `payload[item]`, then the page. */
  function PageForName(bagname: string, payload: Payload, formatparams: Option<string>, includeExif: bool,
                       uuid: string -> string, index: nat, filename: string): Result<Page, Error>
  {
    match Lookup(payload, filename)
    case None => Err(KeyError(filename))
    case Some(hashes) => PageFor(bagname, formatparams, includeExif, uuid, index, filename, hashes)
  }

  function Builder(bagname: string, payload: Payload, formatparams: Option<string>, includeExif: bool,
                   uuid: string -> string): (nat, string) -> Result<Page, Error>
  {
    (index: nat, filename: string) => PageForName(bagname, payload, formatparams, includeExif, uuid, index, filename)
  }

  /** `sorted(payload)`. */
  function SortedNames(payload: Payload): seq<string>
  {
    SortBy(Keys(payload), Id)
  }

  /** What `process_manifest` returns or raises. */
  function ManifestPages(bagname: string, payload: Payload, formatparams: Option<string>, includeExif: bool,
                         uuid: string -> string): Result<seq<Page>, Error>
  {
    Collect(SortedNames(payload), 0, Builder(bagname, payload, formatparams, includeExif, uuid))
  }

  /** `for page_hash in hashes: page[page_hash] = hashes[page_hash]`. */
  method CopyHashes(page: Page, hashes: Hashes) returns (r: Page)
    ensures r == AssignAll(page, hashes)
  {
    r := page;
    var j := 0;
    while j < |hashes|
      invariant 0 <= j <= |hashes|
      invariant r == AssignAll(page, hashes[..j])
    {
      r := Assign(r, hashes[j].0, hashes[j].1);
      AssignAllPrefix(page, hashes, j);
      j := j + 1;
    }
    assert hashes[..j] == hashes;
  }

  /** Setting uuid, then possibly exif, is the run of the tail entries. */
  lemma TailRun(filled: Page, id: string, exif: Option<string>)
    ensures var tail := [("uuid", id)] + (if exif.Some? then [("exif", exif.value)] else []);
      AssignAll(filled, tail)
        == if exif.Some? then Assign(Assign(filled, "uuid", id), "exif", exif.value) else Assign(filled, "uuid", id)
  {
    AssignAllSnoc(filled, [], ("uuid", id));
    if exif.Some? {
      AssignAllSnoc(filled, [("uuid", id)], ("exif", exif.value));
    }
  }

  /** One iteration of the loop: the page is filled key by key. */
  method BuildPage(bagname: string, formatparams: Option<string>, includeExif: bool, uuid: string -> string,
                   index: nat, filename: string, hashes: Hashes) returns (r: Result<Page, Error>)
    ensures r == PageFor(bagname, formatparams, includeExif, uuid, index, filename, hashes)
  {
    var page: Page := [];
    page := Assign(page, "label", ImageLabel(index + 1));
    page := Assign(page, "file", FileUrl(bagname, formatparams, filename));
    assert page == HeadEntries(bagname, formatparams, index, filename);
    page := CopyHashes(page, hashes);
    ghost var filled := page;
    var id := uuid(bagname + "/" + filename);
    page := Assign(page, "uuid", id);
    if includeExif {
      var seg := SecondSegment(filename);
      if seg.Err? {
        return Err(seg.error);
      }
      page := Assign(page, "exif", seg.value + ".exif.txt");
      TailRun(filled, id, Some(seg.value + ".exif.txt"));
    } else {
      TailRun(filled, id, None);
    }
    r := Ok(page);
  }

  /** `process_manifest`: one page per payload file, appended in sorted
      name order. */
  method ProcessManifest(bagname: string, payload: Payload, formatparams: Option<string>, includeExif: bool,
                         uuid: string -> string) returns (r: Result<seq<Page>, Error>)
    ensures r == ManifestPages(bagname, payload, formatparams, includeExif, uuid)
  {
    var names := SortedNames(payload);
    ghost var build := Builder(bagname, payload, formatparams, includeExif, uuid);
    ghost var result := ManifestPages(bagname, payload, formatparams, includeExif, uuid);
    var pages: seq<Page> := [];
    PrependNothing(result);
    var index := 0;
    while index < |names|
      invariant index <= |names|
      invariant result == Prepend(pages, Collect(names, index, build))
    {
      var filename := names[index];
      ManifestLoopStep(bagname, payload, formatparams, includeExif, uuid, index, pages);
      var hashes := Lookup(payload, filename).value;
      var page := BuildPage(bagname, formatparams, includeExif, uuid, index, filename, hashes);
      if page.Err? {
        return Err(page.error);
      }
      pages := pages + [page.value];
      index := index + 1;
    }
    CollectDone(names, build, pages);
    r := Ok(pages);
  }

  /** One turn of the loop of `process_manifest`: `payload[item]` exists,
      and the page made for it is either the error the loop ends with or
      the next page appended. */
  lemma ManifestLoopStep(bagname: string, payload: Payload, formatparams: Option<string>, includeExif: bool,
                         uuid: string -> string, index: nat, pages: seq<Page>)
    requires index < |SortedNames(payload)|
    ensures Lookup(payload, SortedNames(payload)[index]).Some?
    ensures var filename := SortedNames(payload)[index];
      var page := PageFor(bagname, formatparams, includeExif, uuid, index, filename, Lookup(payload, filename).value);
      var build := Builder(bagname, payload, formatparams, includeExif, uuid);
      Prepend(pages, Collect(SortedNames(payload), index, build))
        == if page.Err? then Err(page.error) else Prepend(pages + [page.value], Collect(SortedNames(payload), index + 1, build))
  {
    var names := SortedNames(payload);
    var filename := names[index];
    var build := Builder(bagname, payload, formatparams, includeExif, uuid);
    assert filename in multiset(Keys(payload));
    LookupPresent(payload, filename);
    var page := PageFor(bagname, formatparams, includeExif, uuid, index, filename, Lookup(payload, filename).value);
    assert build(index, filename) == page;
    if page.Ok? {
      CollectStep(names, index, build, pages);
    }
  }

  // ---------------------------------------------------------------------
  // Properties of process_manifest
  // ---------------------------------------------------------------------

  /** The loop visits every payload name exactly once, in strictly
      ascending order. */
  lemma SortedNamesOrder(payload: Payload)
    ensures multiset(SortedNames(payload)) == multiset(Keys(payload))
    ensures forall k :: k in SortedNames(payload) <==> k in Keys(payload)
    ensures forall i, j :: 0 <= i < j < |SortedNames(payload)| ==>
      Leq(SortedNames(payload)[i], SortedNames(payload)[j]) && SortedNames(payload)[i] != SortedNames(payload)[j]
  {
    var names := SortedNames(payload);
    SortBySorted(Keys(payload), Id);
    DistinctPermutation(Keys(payload), names);
    forall k
      ensures k in names <==> k in Keys(payload)
    {
      assert k in names <==> k in multiset(names);
      assert k in Keys(payload) <==> k in multiset(Keys(payload));
    }
    forall i, j | 0 <= i < j < |names|
      ensures Leq(names[i], names[j])
    {
      assert Leq(Id(names[i]), Id(names[j]));
    }
  }

  /** A page exists exactly when no exif segment is needed or the name has
      one; otherwise it is the IndexError for that name. */
  lemma PageForOk(bagname: string, formatparams: Option<string>, includeExif: bool, uuid: string -> string,
                  index: nat, filename: string, hashes: Hashes)
    ensures PageFor(bagname, formatparams, includeExif, uuid, index, filename, hashes).Ok?
        <==> (includeExif ==> '/' in filename)
    ensures PageFor(bagname, formatparams, includeExif, uuid, index, filename, hashes).Err?
        ==> PageFor(bagname, formatparams, includeExif, uuid, index, filename, hashes) == Err(IndexError(filename))
  {
    SecondSegmentExists(filename);
  }

  lemma HeadLookup(bagname: string, formatparams: Option<string>, index: nat, filename: string, k: string)
    ensures Keys(HeadEntries(bagname, formatparams, index, filename)) == ["label", "file"]
    ensures Lookup(HeadEntries(bagname, formatparams, index, filename), k)
         == if k == "label" then Some(ImageLabel(index + 1))
            else if k == "file" then Some(FileUrl(bagname, formatparams, filename))
            else None
  {
    var head := HeadEntries(bagname, formatparams, index, filename);
    LookupAt(head, 0);
    LookupAt(head, 1);
    assert Keys(head) == ["label", "file"];
    LookupPresent(head, k);
  }

  lemma TailLookup(bagname: string, uuid: string -> string, filename: string, exif: Option<string>, k: string)
    ensures Keys(TailEntries(bagname, uuid, filename, exif)) == ["uuid"] + (if exif.Some? then ["exif"] else [])
    ensures k in Keys(TailEntries(bagname, uuid, filename, exif)) <==> k == "uuid" || (k == "exif" && exif.Some?)
    ensures Lookup(TailEntries(bagname, uuid, filename, exif), k)
         == if k == "uuid" then Some(uuid(bagname + "/" + filename))
            else if k == "exif" && exif.Some? then Some(exif.value + ".exif.txt")
            else None
  {
    var tail := TailEntries(bagname, uuid, filename, exif);
    assert Keys(tail) == ["uuid"] + (if exif.Some? then ["exif"] else []);
  }

  /** A page is the head entries, then the checksums, then the tail
      entries, assigned in that order. */
  lemma PageForRuns(bagname: string, formatparams: Option<string>, includeExif: bool, uuid: string -> string,
                    index: nat, filename: string, hashes: Hashes)
    requires PageFor(bagname, formatparams, includeExif, uuid, index, filename, hashes).Ok?
    ensures includeExif ==> SecondSegment(filename).Ok?
    ensures var exif := if includeExif then Some(SecondSegment(filename).value) else None;
      PageFor(bagname, formatparams, includeExif, uuid, index, filename, hashes).value
        == AssignAll(AssignAll(HeadEntries(bagname, formatparams, index, filename), hashes),
                     TailEntries(bagname, uuid, filename, exif))
  {
  }

  /** The value a page holds under key `k`. */
  lemma PageValue(bagname: string, formatparams: Option<string>, includeExif: bool,
                  uuid: string -> string, index: nat, filename: string, hashes: Hashes, k: string)
    requires PageFor(bagname, formatparams, includeExif, uuid, index, filename, hashes).Ok?
    ensures includeExif ==> SecondSegment(filename).Ok?
    ensures Lookup(PageFor(bagname, formatparams, includeExif, uuid, index, filename, hashes).value, k) ==
        if k == "uuid" then Some(uuid(bagname + "/" + filename))
        else if k == "exif" && includeExif then Some(SecondSegment(filename).value + ".exif.txt")
        else if k in Keys(hashes) then Lookup(hashes, k)
        else if k == "label" then Some(ImageLabel(index + 1))
        else if k == "file" then Some(FileUrl(bagname, formatparams, filename))
        else None
  {
    var exif := if includeExif then Some(SecondSegment(filename).value) else None;
    var head := HeadEntries(bagname, formatparams, index, filename);
    var tail := TailEntries(bagname, uuid, filename, exif);
    var filled := AssignAll(head, hashes);
    assert PageFor(bagname, formatparams, includeExif, uuid, index, filename, hashes).value == AssignAll(filled, tail);
    RunLookup(filled, tail, k);
    RunLookup(head, hashes, k);
    HeadLookup(bagname, formatparams, index, filename, k);
    TailLookup(bagname, uuid, filename, exif, k);
  }

  /** What a page holds: the uuid of its bag path; its exif name when exif
      is asked for; every checksum unchanged; its own label and file unless
      a checksum of that name overwrote them; and nothing else. */
  lemma PageContent(bagname: string, formatparams: Option<string>, includeExif: bool,
                    uuid: string -> string, index: nat, filename: string, hashes: Hashes)
    requires PageFor(bagname, formatparams, includeExif, uuid, index, filename, hashes).Ok?
    ensures includeExif ==> SecondSegment(filename).Ok?
    ensures var page := PageFor(bagname, formatparams, includeExif, uuid, index, filename, hashes).value;
      forall k :: Lookup(page, k) ==
        if k == "uuid" then Some(uuid(bagname + "/" + filename))
        else if k == "exif" && includeExif then Some(SecondSegment(filename).value + ".exif.txt")
        else if k in Keys(hashes) then Lookup(hashes, k)
        else if k == "label" then Some(ImageLabel(index + 1))
        else if k == "file" then Some(FileUrl(bagname, formatparams, filename))
        else None
  {
    PageForOk(bagname, formatparams, includeExif, uuid, index, filename, hashes);
    forall k {
      PageValue(bagname, formatparams, includeExif, uuid, index, filename, hashes, k);
    }
  }

  /** Without colliding algorithm names the checksums follow label and
      file. */
  lemma FilledKeys(bagname: string, formatparams: Option<string>, index: nat, filename: string, hashes: Hashes)
    requires forall k :: k in Keys(hashes) ==> k !in Reserved
    ensures Keys(AssignAll(HeadEntries(bagname, formatparams, index, filename), hashes)) == ["label", "file"] + Keys(hashes)
  {
    HeadLookup(bagname, formatparams, index, filename, "");
    RunKeysFresh(HeadEntries(bagname, formatparams, index, filename), hashes);
  }

  /** Without colliding algorithm names the keys of a page come in the order
      label, file, the checksums in their own order, uuid, then exif when it
      is asked for. */
  lemma PageKeyOrder(bagname: string, formatparams: Option<string>, includeExif: bool, uuid: string -> string,
                     index: nat, filename: string, hashes: Hashes)
    requires PageFor(bagname, formatparams, includeExif, uuid, index, filename, hashes).Ok?
    requires forall k :: k in Keys(hashes) ==> k !in Reserved
    ensures Keys(PageFor(bagname, formatparams, includeExif, uuid, index, filename, hashes).value)
         == ["label", "file"] + Keys(hashes) + ["uuid"] + (if includeExif then ["exif"] else [])
  {
    var exif := if includeExif then Some(SecondSegment(filename).value) else None;
    var tail := TailEntries(bagname, uuid, filename, exif);
    PageForRuns(bagname, formatparams, includeExif, uuid, index, filename, hashes);
    var filled := AssignAll(HeadEntries(bagname, formatparams, index, filename), hashes);
    var ks := Keys(hashes);
    FilledKeys(bagname, formatparams, index, filename, hashes);
    TailLookup(bagname, uuid, filename, exif, "");
    forall k | k in Keys(tail)
      ensures k !in Keys(filled)
    {
      assert k in Reserved;
    }
    RunKeysFresh(filled, tail);
    var ex: seq<string> := if includeExif then ["exif"] else [];
    assert Keys(AssignAll(filled, tail)) == (["label", "file"] + ks) + (["uuid"] + ex);
    AppendFour(["label", "file"], ks, ["uuid"], ex);
  }

  /** The loop body for a name of the payload makes that file's page, and
      fails exactly when an exif segment is needed and the name has none. */
  lemma BuilderAt(bagname: string, payload: Payload, formatparams: Option<string>, includeExif: bool,
                  uuid: string -> string, i: nat, name: string)
    requires name in Keys(payload)
    ensures Lookup(payload, name).Some?
    ensures var page := PageFor(bagname, formatparams, includeExif, uuid, i, name, Lookup(payload, name).value);
      && Builder(bagname, payload, formatparams, includeExif, uuid)(i, name) == page
      && (page.Ok? <==> (includeExif ==> '/' in name))
  {
    LookupPresent(payload, name);
    PageForOk(bagname, formatparams, includeExif, uuid, i, name, Lookup(payload, name).value);
  }

  /** The page loop over any list of payload names. */
  lemma NamesLoopShape(bagname: string, payload: Payload, formatparams: Option<string>, includeExif: bool,
                       uuid: string -> string, names: seq<string>)
    requires forall i :: 0 <= i < |names| ==> names[i] in Keys(payload)
    ensures var build := Builder(bagname, payload, formatparams, includeExif, uuid);
      && (Collect(names, 0, build).Ok? <==> (includeExif ==> forall i :: 0 <= i < |names| ==> '/' in names[i]))
      && (Collect(names, 0, build).Ok? ==>
           var pages := Collect(names, 0, build).value;
           && |pages| == |names|
           && forall i :: 0 <= i < |names| ==>
                Lookup(payload, names[i]).Some?
                && PageFor(bagname, formatparams, includeExif, uuid, i, names[i], Lookup(payload, names[i]).value) == Ok(pages[i]))
  {
    var build := Builder(bagname, payload, formatparams, includeExif, uuid);
    CollectOk(names, 0, build);
    forall i | 0 <= i < |names|
      ensures Lookup(payload, names[i]).Some?
      ensures build(i, names[i]) == PageFor(bagname, formatparams, includeExif, uuid, i, names[i], Lookup(payload, names[i]).value)
      ensures build(i, names[i]).Ok? <==> (includeExif ==> '/' in names[i])
    {
      BuilderAt(bagname, payload, formatparams, includeExif, uuid, i, names[i]);
    }
    if Collect(names, 0, build).Ok? {
      var pages := Collect(names, 0, build).value;
      forall i | 0 <= i < |names|
        ensures PageFor(bagname, formatparams, includeExif, uuid, i, names[i], Lookup(payload, names[i]).value) == Ok(pages[i])
      {
        assert build(i, names[i]) == Ok(pages[i]);
      }
    }
  }

  /** `process_manifest` succeeds exactly when no exif segment is needed or
      every name has one; it then returns one page per payload file, the
      page at position `i` being made from the `i`-th name in sorted order
      with index `i`. */
  lemma ManifestPagesShape(bagname: string, payload: Payload, formatparams: Option<string>, includeExif: bool,
                           uuid: string -> string)
    ensures ManifestPages(bagname, payload, formatparams, includeExif, uuid).Ok?
        <==> (includeExif ==> forall k :: k in Keys(payload) ==> '/' in k)
    ensures ManifestPages(bagname, payload, formatparams, includeExif, uuid).Ok? ==>
      var names := SortedNames(payload);
      var pages := ManifestPages(bagname, payload, formatparams, includeExif, uuid).value;
      && |pages| == |payload|
      && forall i :: 0 <= i < |pages| ==>
           Lookup(payload, names[i]).Some?
           && PageFor(bagname, formatparams, includeExif, uuid, i, names[i], Lookup(payload, names[i]).value) == Ok(pages[i])
  {
    var names := SortedNames(payload);
    SortedNamesOrder(payload);
    forall i | 0 <= i < |names|
      ensures names[i] in Keys(payload)
    {
      assert names[i] in names;
    }
    NamesLoopShape(bagname, payload, formatparams, includeExif, uuid, names);
    assert |names| == |payload|;
    if includeExif && (forall i :: 0 <= i < |names| ==> '/' in names[i]) {
      forall k | k in Keys(payload)
        ensures '/' in k
      {
        assert k in names;
      }
    }
  }

  /** A failing `process_manifest` fails on the first name in sorted order
      that has no "/", with IndexError, and only when exif is asked for; it
      never raises KeyError. */
  lemma ManifestPagesError(bagname: string, payload: Payload, formatparams: Option<string>, includeExif: bool,
                           uuid: string -> string)
    requires ManifestPages(bagname, payload, formatparams, includeExif, uuid).Err?
    ensures includeExif
    ensures var names := SortedNames(payload);
      exists i :: 0 <= i < |names|
        && ManifestPages(bagname, payload, formatparams, includeExif, uuid).error == IndexError(names[i])
        && '/' !in names[i]
        && forall j :: 0 <= j < i ==> '/' in names[j]
  {
    var names := SortedNames(payload);
    var build := Builder(bagname, payload, formatparams, includeExif, uuid);
    var e := ManifestPages(bagname, payload, formatparams, includeExif, uuid).error;
    SortedNamesOrder(payload);
    CollectErr(names, 0, build);
    var i :| 0 <= i < |names| && build(i, names[i]) == Err(e) && forall j :: 0 <= j < i ==> build(j, names[j]).Ok?;
    forall j | 0 <= j <= i
      ensures Lookup(payload, names[j]).Some?
      ensures build(j, names[j]).Ok? <==> (includeExif ==> '/' in names[j])
      ensures build(j, names[j]).Err? ==> build(j, names[j]) == Err(IndexError(names[j]))
    {
      assert names[j] in names;
      LookupPresent(payload, names[j]);
      PageForOk(bagname, formatparams, includeExif, uuid, j, names[j], Lookup(payload, names[j]).value);
    }
  }

  /** The page at position `i` carries the uuid of its own bag path and,
      when its file has no checksum named label, the label "Image i+1". */
  lemma ManifestPageAt(bagname: string, payload: Payload, formatparams: Option<string>, includeExif: bool,
                       uuid: string -> string, i: nat)
    requires ManifestPages(bagname, payload, formatparams, includeExif, uuid).Ok?
    requires i < |payload|
    ensures var names := SortedNames(payload);
      var pages := ManifestPages(bagname, payload, formatparams, includeExif, uuid).value;
      && |pages| == |names| == |payload|
      && Lookup(payload, names[i]).Some?
      && Lookup(pages[i], "uuid") == Some(uuid(bagname + "/" + names[i]))
      && ("label" !in Keys(Lookup(payload, names[i]).value) ==> Lookup(pages[i], "label") == Some(ImageLabel(i + 1)))
  {
    var names := SortedNames(payload);
    ManifestPagesShape(bagname, payload, formatparams, includeExif, uuid);
    var hashes := Lookup(payload, names[i]).value;
    PageValue(bagname, formatparams, includeExif, uuid, i, names[i], hashes, "uuid");
    PageValue(bagname, formatparams, includeExif, uuid, i, names[i], hashes, "label");
  }

  /** Every page carries the uuid of its own bag path. */
  lemma ManifestUuids(bagname: string, payload: Payload, formatparams: Option<string>, includeExif: bool,
                      uuid: string -> string)
    requires ManifestPages(bagname, payload, formatparams, includeExif, uuid).Ok?
    ensures var names := SortedNames(payload);
      var pages := ManifestPages(bagname, payload, formatparams, includeExif, uuid).value;
      |pages| == |names| &&
      forall i :: 0 <= i < |pages| ==> Lookup(pages[i], "uuid") == Some(uuid(bagname + "/" + names[i]))
  {
    ManifestPagesShape(bagname, payload, formatparams, includeExif, uuid);
    var pages := ManifestPages(bagname, payload, formatparams, includeExif, uuid).value;
    forall i | 0 <= i < |pages|
      ensures Lookup(pages[i], "uuid") == Some(uuid(bagname + "/" + SortedNames(payload)[i]))
    {
      ManifestPageAt(bagname, payload, formatparams, includeExif, uuid, i);
    }
  }

  /** When no file has a checksum named label, the labels run "Image 1",
      "Image 2", ... in page order, whatever order the files were listed in. */
  lemma ManifestLabels(bagname: string, payload: Payload, formatparams: Option<string>, includeExif: bool,
                       uuid: string -> string)
    requires ManifestPages(bagname, payload, formatparams, includeExif, uuid).Ok?
    requires forall j :: 0 <= j < |payload| ==> "label" !in Keys(payload[j].1)
    ensures var pages := ManifestPages(bagname, payload, formatparams, includeExif, uuid).value;
      forall i :: 0 <= i < |pages| ==> Lookup(pages[i], "label") == Some(ImageLabel(i + 1))
  {
    ManifestPagesShape(bagname, payload, formatparams, includeExif, uuid);
    var names := SortedNames(payload);
    var pages := ManifestPages(bagname, payload, formatparams, includeExif, uuid).value;
    forall i | 0 <= i < |pages|
      ensures Lookup(pages[i], "label") == Some(ImageLabel(i + 1))
    {
      ManifestPageAt(bagname, payload, formatparams, includeExif, uuid, i);
      LookupValue(payload, names[i]);
    }
  }

  /** When no file has a checksum named label, no two pages share a label. */
  lemma ManifestLabelsDistinct(bagname: string, payload: Payload, formatparams: Option<string>, includeExif: bool,
                               uuid: string -> string)
    requires ManifestPages(bagname, payload, formatparams, includeExif, uuid).Ok?
    requires forall j :: 0 <= j < |payload| ==> "label" !in Keys(payload[j].1)
    ensures var pages := ManifestPages(bagname, payload, formatparams, includeExif, uuid).value;
      forall i, j :: 0 <= i < j < |pages| ==> Lookup(pages[i], "label") != Lookup(pages[j], "label")
  {
    ManifestLabels(bagname, payload, formatparams, includeExif, uuid);
    var pages := ManifestPages(bagname, payload, formatparams, includeExif, uuid).value;
    forall i, j | 0 <= i < j < |pages|
      ensures Lookup(pages[i], "label") != Lookup(pages[j], "label")
    {
      ImageLabelInjective(i + 1, j + 1);
    }
  }

  lemma BagPathInjective(bagname: string, a: string, b: string)
    ensures bagname + "/" + a == bagname + "/" + b <==> a == b
  {
    assert (bagname + "/" + a)[|bagname| + 1..] == a;
    assert (bagname + "/" + b)[|bagname| + 1..] == b;
  }

  /** Different names in one bag have different uuids when `uuid` tells
      its inputs apart. */
  lemma BagUuidsDiffer(bagname: string, uuid: string -> string, a: string, b: string)
    requires forall x, y :: uuid(x) == uuid(y) ==> x == y
    requires a != b
    ensures uuid(bagname + "/" + a) != uuid(bagname + "/" + b)
  {
    BagPathInjective(bagname, a, b);
  }

  /** When `uuid` tells its inputs apart, no two pages share a uuid. */
  lemma ManifestUuidsDistinct(bagname: string, payload: Payload, formatparams: Option<string>, includeExif: bool,
                              uuid: string -> string)
    requires ManifestPages(bagname, payload, formatparams, includeExif, uuid).Ok?
    requires forall a, b :: uuid(a) == uuid(b) ==> a == b
    ensures var pages := ManifestPages(bagname, payload, formatparams, includeExif, uuid).value;
      forall i, j :: 0 <= i < j < |pages| ==> Lookup(pages[i], "uuid") != Lookup(pages[j], "uuid")
  {
    ManifestUuids(bagname, payload, formatparams, includeExif, uuid);
    var names := SortedNames(payload);
    var pages := ManifestPages(bagname, payload, formatparams, includeExif, uuid).value;
    forall i, j | 0 <= i < j < |pages|
      ensures Lookup(pages[i], "uuid") != Lookup(pages[j], "uuid")
    {
      assert names[i] != names[j] by {
        SortedNamesOrder(payload);
      }
      BagUuidsDiffer(bagname, uuid, names[i], names[j]);
    }
  }

  /** Payloads with the same mapping have the same sorted names. */
  lemma SortedNamesAgree(p1: Payload, p2: Payload)
    requires forall k :: Lookup(p1, k) == Lookup(p2, k)
    ensures SortedNames(p1) == SortedNames(p2)
  {
    forall k
      ensures k in Keys(p1) <==> k in Keys(p2)
    {
      LookupPresent(p1, k);
      LookupPresent(p2, k);
    }
    DistinctSameMembers(Keys(p1), Keys(p2));
    SortBySorted(Keys(p1), Id);
    SortBySorted(Keys(p2), Id);
    SortedStringsUnique(SortedNames(p1), SortedNames(p2));
  }

  /** `process_manifest` depends on the payload only as a mapping: the
      order in which the files were listed does not matter. */
  lemma ManifestPagesIgnoreListingOrder(bagname: string, p1: Payload, p2: Payload, formatparams: Option<string>,
                                        includeExif: bool, uuid: string -> string)
    requires forall k :: Lookup(p1, k) == Lookup(p2, k)
    ensures ManifestPages(bagname, p1, formatparams, includeExif, uuid)
         == ManifestPages(bagname, p2, formatparams, includeExif, uuid)
  {
    SortedNamesAgree(p1, p2);
    var b1 := Builder(bagname, p1, formatparams, includeExif, uuid);
    var b2 := Builder(bagname, p2, formatparams, includeExif, uuid);
    var names := SortedNames(p1);
    forall i | 0 <= i < |names|
      ensures b1(i, names[i]) == b2(i, names[i])
    {
      assert Lookup(p1, names[i]) == Lookup(p2, names[i]);
    }
    CollectAgree(names, 0, b1, b2);
  }

  // ---------------------------------------------------------------------
  // generate_recipe
  // ---------------------------------------------------------------------

  /** The `metadata.marcxml` entry. */
  function MarcXmlUrl(bagname: string, formatparams: Option<string>): string
  {
    if Truthy(formatparams) then DerivativeBagUrl + "/" + bagname + "/" + formatparams.value + "/marc.xml"
    else DerivativeBagUrl + "/" + bagname + "/marc.xml"
  }

  /** The `metadata` block. */
  function Metadata(bagname: string, formatparams: Option<string>): Dict<string>
  {
    [("marcxml", MarcXmlUrl(bagname, formatparams))]
  }

  /** `meta['recipe']` after its first four assignments. */
  function HeaderStart(bagname: string, title: Option<string>, uuid: string -> string): Dict<Value>
  {
    [("import", Str("book")), ("update", Str("false")), ("uuid", Str(uuid(bagname))), ("label", OptionalStr(title))]
  }

  /** `meta['recipe']` once all its fields are set, around the given
      pages; `persisted` is what `get_marc_xml` returned and `bibTitle` what
      `get_title_from_bib` returned. */
  function RecipeDict(bagname: string, title: Option<string>, formatparams: Option<string>, persisted: bool,
                      bibTitle: Option<string>, uuid: string -> string, pages: seq<Page>): Dict<Value>
  {
    var start := HeaderStart(bagname, title, uuid);
    var withMeta := if persisted then Assign(start, "metadata", Obj(Metadata(bagname, formatparams))) else start;
    var labelled := if Truthy(title) then withMeta else Assign(withMeta, "label", OptionalStr(bibTitle));
    Assign(labelled, "pages", Pages(pages))
  }

  /** The document `generate_recipe` serialises, or the error of
      `process_manifest`, which it always calls with exif names. */
  function RecipeFor(bagname: string, title: Option<string>, payload: Payload, formatparams: Option<string>,
                     persisted: bool, bibTitle: Option<string>, uuid: string -> string): Result<Document, Error>
  {
    match ManifestPages(bagname, payload, formatparams, true, uuid)
    case Err(e) => Err(e)
    case Ok(pages) => Ok(Document(RecipeDict(bagname, title, formatparams, persisted, bibTitle, uuid, pages)))
  }

  /** `generate_recipe`, up to serialisation: the recipe is filled field by
      field. */
  method GenerateRecipe(bagname: string, title: Option<string>, payload: Payload, formatparams: Option<string>,
                        persisted: bool, bibTitle: Option<string>, uuid: string -> string) returns (r: Result<Document, Error>)
    ensures r == RecipeFor(bagname, title, payload, formatparams, persisted, bibTitle, uuid)
  {
    var id := Str(uuid(bagname));
    var recipe: Dict<Value> := [];
    AfterImport(Str("book"));
    recipe := Assign(recipe, "import", Str("book"));
    AfterUpdate(Str("book"), Str("false"));
    recipe := Assign(recipe, "update", Str("false"));
    AfterUuid(Str("book"), Str("false"), id);
    recipe := Assign(recipe, "uuid", id);
    AfterLabel(Str("book"), Str("false"), id, OptionalStr(title));
    recipe := Assign(recipe, "label", OptionalStr(title));
    assert recipe == HeaderStart(bagname, title, uuid);
    if persisted {
      recipe := Assign(recipe, "metadata", Obj(Metadata(bagname, formatparams)));
    }
    if !Truthy(title) {
      recipe := Assign(recipe, "label", OptionalStr(bibTitle));
    }
    var pages := ProcessManifest(bagname, payload, formatparams, true, uuid);
    if pages.Err? {
      return Err(pages.error);
    }
    recipe := Assign(recipe, "pages", Pages(pages.value));
    r := Ok(Document(recipe));
  }

  lemma HeaderStartLookup(bagname: string, title: Option<string>, uuid: string -> string, k: string)
    ensures Keys(HeaderStart(bagname, title, uuid)) == ["import", "update", "uuid", "label"]
    ensures Lookup(HeaderStart(bagname, title, uuid), k)
         == if k == "import" then Some(Str("book"))
            else if k == "update" then Some(Str("false"))
            else if k == "uuid" then Some(Str(uuid(bagname)))
            else if k == "label" then Some(OptionalStr(title))
            else None
  {
    var start := HeaderStart(bagname, title, uuid);
    LookupAt(start, 0);
    LookupAt(start, 1);
    LookupAt(start, 2);
    LookupAt(start, 3);
    assert Keys(start) == ["import", "update", "uuid", "label"];
    LookupPresent(start, k);
  }

  /** The keys of a recipe are import, update, uuid, label, then metadata
      only when the MARC record was persisted, then pages. */
  lemma RecipeKeys(bagname: string, title: Option<string>, formatparams: Option<string>, persisted: bool,
                   bibTitle: Option<string>, uuid: string -> string, pages: seq<Page>)
    ensures Keys(RecipeDict(bagname, title, formatparams, persisted, bibTitle, uuid, pages))
         == ["import", "update", "uuid", "label"] + (if persisted then ["metadata"] else []) + ["pages"]
  {
    var fixed := ["import", "update", "uuid", "label"];
    var start := HeaderStart(bagname, title, uuid);
    HeaderStartLookup(bagname, title, uuid, "");
    var withMeta := if persisted then Assign(start, "metadata", Obj(Metadata(bagname, formatparams))) else start;
    var ks := fixed + (if persisted then ["metadata"] else []);
    assert "metadata" !in fixed;
    assert Keys(withMeta) == ks;
    var labelled := if Truthy(title) then withMeta else Assign(withMeta, "label", OptionalStr(bibTitle));
    assert "label" in ks;
    assert Keys(labelled) == ks;
    assert "pages" !in ks;
  }

  /** The value a recipe holds under key `k`. */
  lemma RecipeLookup(bagname: string, title: Option<string>, formatparams: Option<string>, persisted: bool,
                     bibTitle: Option<string>, uuid: string -> string, pages: seq<Page>, k: string)
    ensures Lookup(RecipeDict(bagname, title, formatparams, persisted, bibTitle, uuid, pages), k)
         == if k == "pages" then Some(Pages(pages))
            else if k == "label" && !Truthy(title) then Some(OptionalStr(bibTitle))
            else if k == "metadata" && persisted then Some(Obj(Metadata(bagname, formatparams)))
            else Lookup(HeaderStart(bagname, title, uuid), k)
  {
    var start := HeaderStart(bagname, title, uuid);
    var meta := Obj(Metadata(bagname, formatparams));
    var withMeta := if persisted then Assign(start, "metadata", meta) else start;
    var labelled := if Truthy(title) then withMeta else Assign(withMeta, "label", OptionalStr(bibTitle));
    AssignLookup(start, "metadata", meta);
    AssignLookup(withMeta, "label", OptionalStr(bibTitle));
    AssignLookup(labelled, "pages", Pages(pages));
  }

  /** The recipe holds import "book", update "false", the uuid of the bag
      name, the title as label when it is truthy and the bibliographic title
      (possibly null) otherwise, the marcxml URL under metadata only when
      the MARC record was persisted, and the pages. */
  lemma RecipeValues(bagname: string, title: Option<string>, formatparams: Option<string>, persisted: bool,
                     bibTitle: Option<string>, uuid: string -> string, pages: seq<Page>)
    ensures var recipe := RecipeDict(bagname, title, formatparams, persisted, bibTitle, uuid, pages);
      && Lookup(recipe, "import") == Some(Str("book"))
      && Lookup(recipe, "update") == Some(Str("false"))
      && Lookup(recipe, "uuid") == Some(Str(uuid(bagname)))
      && Lookup(recipe, "label") == Some(if Truthy(title) then Str(title.value) else OptionalStr(bibTitle))
      && Lookup(recipe, "metadata") == (if persisted then Some(Obj(Metadata(bagname, formatparams))) else None)
      && Lookup(recipe, "pages") == Some(Pages(pages))
  {
    RecipeLookup(bagname, title, formatparams, persisted, bibTitle, uuid, pages, "import");
    RecipeLookup(bagname, title, formatparams, persisted, bibTitle, uuid, pages, "update");
    RecipeLookup(bagname, title, formatparams, persisted, bibTitle, uuid, pages, "uuid");
    RecipeLookup(bagname, title, formatparams, persisted, bibTitle, uuid, pages, "label");
    RecipeLookup(bagname, title, formatparams, persisted, bibTitle, uuid, pages, "metadata");
    RecipeLookup(bagname, title, formatparams, persisted, bibTitle, uuid, pages, "pages");
    HeaderStartLookup(bagname, title, uuid, "import");
    HeaderStartLookup(bagname, title, uuid, "update");
    HeaderStartLookup(bagname, title, uuid, "uuid");
    HeaderStartLookup(bagname, title, uuid, "label");
    HeaderStartLookup(bagname, title, uuid, "metadata");
  }

  // ---------------------------------------------------------------------
  // process_derivative: the pure rules
  // ---------------------------------------------------------------------

  /** `derivative_args.get('s3_bags')`: a single bag name, a list of them,
      or nothing. */
  datatype BagsArg = BagName(name: string) | BagList(names: seq<string>) | NoBags

  /** Line 219: a string becomes a one-element list; a list or None is left
      as it is. */
  function NormalizeBags(s3Bags: BagsArg): (bags: Option<seq<string>>)
  {
    match s3Bags
    case BagName(name) => Some([name])
    case BagList(names) => Some(names)
    case NoBags => None
  }

  /** `if taskid and bags:`. */
  predicate ShouldProcess(taskid: Option<string>, bags: Option<seq<string>>)
  {
    Truthy(taskid) && bags.Some? && bags.value != []
  }

  /** Normalising gives a list exactly when some bag argument was given, and
      never changes a list; a single name, even the empty one, becomes a
      non-empty list, so with a task id it is always processed, while an
      empty list never is. */
  lemma NormalizeBagsShape(taskid: Option<string>, s3Bags: BagsArg)
    ensures NormalizeBags(s3Bags).None? <==> s3Bags.NoBags?
    ensures s3Bags.BagList? ==> NormalizeBags(s3Bags) == Some(s3Bags.names)
    ensures s3Bags.BagName? ==> NormalizeBags(s3Bags).value == [s3Bags.name]
    ensures s3Bags.BagName? ==> (ShouldProcess(taskid, NormalizeBags(s3Bags)) <==> Truthy(taskid))
    ensures s3Bags == BagList([]) ==> !ShouldProcess(taskid, NormalizeBags(s3Bags))
  {
  }

  /** `filepath.split('/')[-1]`: the text after the last "/" of the path,
      or the whole path when it has none. */
  function Basename(filepath: string): (name: string)
    ensures '/' !in name
    ensures filepath == name || (|name| < |filepath| && filepath[|filepath| - |name| - 1..] == "/" + name)
  {
    var parts := Split(filepath, "/");
    SplitPiecesAvoidSep(filepath, "/");
    JoinSplit(filepath, "/");
    JoinLast(parts, "/", filepath);
    assert parts[|parts| - 1] in parts;
    ContainsChar(parts[|parts| - 1], '/');
    parts[|parts| - 1]
  }

  /** The S3 key of a file of the bag (lines 234-235) or of its payload
      directory (lines 239-240): the file name is lower-cased. */
  function UploadKey(bag: string, formatparams: Option<string>, filepath: string, inData: bool): string
  {
    if inData then S3Destination + "/" + bag + "/" + Format(formatparams) + "/data/" + Lower(Basename(filepath))
    else S3Destination + "/" + bag + "/" + Format(formatparams) + "/" + Lower(Basename(filepath))
  }

  /** Joining three "/"-free segments. */
  lemma JoinThree(a: string, b: string, c: string)
    ensures Join([a, b, c], "/") == a + "/" + b + "/" + c
  {
    JoinSnoc([a], b, "/");
    assert [a] + [b] == [a, b];
    JoinSnoc([a, b], c, "/");
    assert [a, b] + [c] == [a, b, c];
  }

  /** For "/"-free bag names and format parameters, the segments of an
      upload key are the destination, the bag, the format parameters,
      "data" for payload files, and the lower-cased file name. */
  lemma UploadKeySegments(bag: string, formatparams: Option<string>, filepath: string, inData: bool)
    requires '/' !in bag && '/' !in Format(formatparams)
    ensures Split(UploadKey(bag, formatparams, filepath, inData), "/")
         == [S3Destination, bag, Format(formatparams)] + (if inData then ["data"] else [])
            + [Lower(Basename(filepath))]
  {
    var f := Format(formatparams);
    var name := Lower(Basename(filepath));
    LowerKeeps(Basename(filepath), '/');
    var prefix := [S3Destination, bag, f];
    JoinThree(S3Destination, bag, f);
    var j3 := S3Destination + "/" + bag + "/" + f;
    var segs := prefix + (if inData then ["data"] else []) + [name];
    if inData {
      JoinSnoc(prefix, "data", "/");
      JoinSnoc(prefix + ["data"], name, "/");
      assert j3 + "/" + "data" + "/" + name == j3 + "/data/" + name;
    } else {
      assert prefix + [] == prefix;
      JoinSnoc(prefix, name, "/");
    }
    assert Join(segs, "/") == UploadKey(bag, formatparams, filepath, inData);
    assert forall s :: s in segs ==> s in prefix || s == "data" || s == name;
    SplitJoin(segs, "/");
  }

  /** The URL of a bag's recipe (line 247). */
  function RecipeUrl(bag: string, formatparams: Option<string>): string
  {
    DerivativeBagUrl + "/" + bag + "/" + Format(formatparams) + "/" + Lower(bag) + ".json"
  }

  lemma DerivativeBagUrlSegments()
    ensures Join(["https:", "", "bag.ou.edu", "derivative"], "/") == DerivativeBagUrl
  {
  }

  lemma RecipeUrlJoin(bag: string, f: string, last: string)
    ensures Join(["https:", "", "bag.ou.edu", "derivative", bag, f, last], "/")
         == DerivativeBagUrl + "/" + bag + "/" + f + "/" + last
  {
    var base := ["https:", "", "bag.ou.edu", "derivative"];
    DerivativeBagUrlSegments();
    JoinSnoc(base, bag, "/");
    JoinSnoc(base + [bag], f, "/");
    JoinSnoc(base + [bag] + [f], last, "/");
    assert base + [bag] + [f] + [last] == ["https:", "", "bag.ou.edu", "derivative", bag, f, last];
  }

  /** Whatever the bag name and format parameters, a recipe URL starts with
      the derivative base URL and the bag name, and ends with the lower-cased
      bag name and ".json". */
  lemma RecipeUrlParts(bag: string, formatparams: Option<string>)
    ensures var url := RecipeUrl(bag, formatparams);
      && |url| == |DerivativeBagUrl| + 2 * |bag| + |Format(formatparams)| + 8
      && url[..|DerivativeBagUrl| + |bag| + 2] == DerivativeBagUrl + "/" + bag + "/"
      && url[|url| - |bag| - 5..] == Lower(bag) + ".json"
  {
    var head := DerivativeBagUrl + "/" + bag + "/";
    var tail := Lower(bag) + ".json";
    var url := RecipeUrl(bag, formatparams);
    assert url == head + (Format(formatparams) + "/") + tail;
    assert |tail| == |bag| + 5;
  }

  /** Different bag names give different recipe URLs. */
  lemma RecipeUrlInjective(b1: string, b2: string, formatparams: Option<string>)
    requires RecipeUrl(b1, formatparams) == RecipeUrl(b2, formatparams)
    ensures b1 == b2
  {
    RecipeUrlParts(b1, formatparams);
    RecipeUrlParts(b2, formatparams);
    var url := RecipeUrl(b1, formatparams);
    var n := |DerivativeBagUrl| + 1;
    assert |b1| == |b2|;
    assert b1 == url[..n + |b1| + 1][n..n + |b1|];
    assert b2 == url[..n + |b2| + 1][n..n + |b2|];
  }

  /** For "/"-free bag names and format parameters, a recipe URL names its
      bag in the fifth segment and ends with the lower-cased bag name and
      ".json". */
  lemma RecipeUrlSegments(bag: string, formatparams: Option<string>)
    requires '/' !in bag && '/' !in Format(formatparams)
    ensures Split(RecipeUrl(bag, formatparams), "/")
         == ["https:", "", "bag.ou.edu", "derivative", bag, Format(formatparams), Lower(bag) + ".json"]
  {
    var f := Format(formatparams);
    var last := Lower(bag) + ".json";
    LowerKeeps(bag, '/');
    assert '/' !in last;
    RecipeUrlJoin(bag, f, last);
    assert DerivativeBagUrl + "/" + bag + "/" + f + "/" + last == RecipeUrl(bag, formatparams);
    SplitJoin(["https:", "", "bag.ou.edu", "derivative", bag, f, last], "/");
  }

  /** `process_derivative` with line 229 iterating over the bag list, as
      line 247 does: the recipe URLs, or None when the guard fails. The
      uploads are not part of the model. */
  function ProcessDerivative(taskid: Option<string>, s3Bags: BagsArg, formatparams: Option<string>): (r: Option<seq<string>>)
    ensures r.Some? <==> ShouldProcess(taskid, NormalizeBags(s3Bags))
    ensures r.Some? ==> |r.value| == |NormalizeBags(s3Bags).value|
  {
    var bags := NormalizeBags(s3Bags);
    if ShouldProcess(taskid, bags) then
      Some(seq(|bags.value|, i requires 0 <= i < |bags.value| => RecipeUrl(bags.value[i], formatparams)))
    else None
  }

  /** One URL per bag, in bag order: each starts with the base URL and its
      bag name and ends with the lower-cased bag name and ".json"; different
      bags get different URLs; and when neither the bag nor the format
      parameters contain "/", the URL splits into exactly seven segments. */
  lemma ProcessDerivativeUrls(taskid: Option<string>, s3Bags: BagsArg, formatparams: Option<string>)
    requires ProcessDerivative(taskid, s3Bags, formatparams).Some?
    ensures var bags := NormalizeBags(s3Bags).value;
      var urls := ProcessDerivative(taskid, s3Bags, formatparams).value;
      && (forall i :: 0 <= i < |urls| ==>
            && |urls[i]| == |DerivativeBagUrl| + 2 * |bags[i]| + |Format(formatparams)| + 8
            && urls[i][..|DerivativeBagUrl| + |bags[i]| + 2] == DerivativeBagUrl + "/" + bags[i] + "/"
            && urls[i][|urls[i]| - |bags[i]| - 5..] == Lower(bags[i]) + ".json")
      && (forall i :: 0 <= i < |urls| && '/' !in bags[i] && '/' !in Format(formatparams) ==>
            Split(urls[i], "/")
              == ["https:", "", "bag.ou.edu", "derivative", bags[i], Format(formatparams), Lower(bags[i]) + ".json"])
      && (forall i, j :: 0 <= i < j < |urls| && bags[i] != bags[j] ==> urls[i] != urls[j])
  {
    var bags := NormalizeBags(s3Bags).value;
    var urls := ProcessDerivative(taskid, s3Bags, formatparams).value;
    ProcessDerivativeRecipeUrls(taskid, s3Bags, formatparams);
    RecipeUrlsParts(bags, urls, formatparams);
    RecipeUrlsSegments(bags, urls, formatparams);
    RecipeUrlsDistinct(bags, urls, formatparams);
  }

  lemma ProcessDerivativeRecipeUrls(taskid: Option<string>, s3Bags: BagsArg, formatparams: Option<string>)
    requires ProcessDerivative(taskid, s3Bags, formatparams).Some?
    ensures var bags := NormalizeBags(s3Bags).value;
      var urls := ProcessDerivative(taskid, s3Bags, formatparams).value;
      |urls| == |bags| && forall i :: 0 <= i < |urls| ==> urls[i] == RecipeUrl(bags[i], formatparams)
  {
  }

  lemma RecipeUrlsParts(bags: seq<string>, urls: seq<string>, formatparams: Option<string>)
    requires |urls| == |bags|
    requires forall i :: 0 <= i < |urls| ==> urls[i] == RecipeUrl(bags[i], formatparams)
    ensures forall i :: 0 <= i < |urls| ==>
      && |urls[i]| == |DerivativeBagUrl| + 2 * |bags[i]| + |Format(formatparams)| + 8
      && urls[i][..|DerivativeBagUrl| + |bags[i]| + 2] == DerivativeBagUrl + "/" + bags[i] + "/"
      && urls[i][|urls[i]| - |bags[i]| - 5..] == Lower(bags[i]) + ".json"
  {
    forall i | 0 <= i < |urls|
      ensures |urls[i]| == |DerivativeBagUrl| + 2 * |bags[i]| + |Format(formatparams)| + 8
      ensures urls[i][..|DerivativeBagUrl| + |bags[i]| + 2] == DerivativeBagUrl + "/" + bags[i] + "/"
      ensures urls[i][|urls[i]| - |bags[i]| - 5..] == Lower(bags[i]) + ".json"
    {
      RecipeUrlParts(bags[i], formatparams);
    }
  }

  lemma RecipeUrlsSegments(bags: seq<string>, urls: seq<string>, formatparams: Option<string>)
    requires |urls| == |bags|
    requires forall i :: 0 <= i < |urls| ==> urls[i] == RecipeUrl(bags[i], formatparams)
    ensures forall i :: 0 <= i < |urls| && '/' !in bags[i] && '/' !in Format(formatparams) ==>
      Split(urls[i], "/")
        == ["https:", "", "bag.ou.edu", "derivative", bags[i], Format(formatparams), Lower(bags[i]) + ".json"]
  {
    forall i | 0 <= i < |urls| && '/' !in bags[i] && '/' !in Format(formatparams)
      ensures Split(urls[i], "/")
           == ["https:", "", "bag.ou.edu", "derivative", bags[i], Format(formatparams), Lower(bags[i]) + ".json"]
    {
      RecipeUrlSegments(bags[i], formatparams);
    }
  }

  lemma RecipeUrlsDistinct(bags: seq<string>, urls: seq<string>, formatparams: Option<string>)
    requires |urls| == |bags|
    requires forall i :: 0 <= i < |urls| ==> urls[i] == RecipeUrl(bags[i], formatparams)
    ensures forall i, j :: 0 <= i < j < |urls| && bags[i] != bags[j] ==> urls[i] != urls[j]
  {
    forall i, j | 0 <= i < j < |urls| && bags[i] != bags[j]
      ensures urls[i] != urls[j]
    {
      if urls[i] == urls[j] {
        RecipeUrlInjective(bags[i], bags[j], formatparams);
      }
    }
  }

  /** `process_derivative` as written: once the guard passes, line 229 calls
      `split` on a list, which raises AttributeError, so no URL is ever
      returned. */
  function ProcessDerivativeAsWritten(taskid: Option<string>, s3Bags: BagsArg, formatparams: Option<string>): Result<Option<seq<string>>, Error>
  {
    var bags := NormalizeBags(s3Bags);
    if ShouldProcess(taskid, bags) then Err(AttributeError) else Ok(None)
  }

  /** Wherever the intended `process_derivative` returns its URLs, the code as written
      raises instead; elsewhere both return None. */
  lemma AsWrittenFailsWhereUrlsAreDue(taskid: Option<string>, s3Bags: BagsArg, formatparams: Option<string>)
    ensures ProcessDerivativeAsWritten(taskid, s3Bags, formatparams).Err?
        <==> ProcessDerivative(taskid, s3Bags, formatparams).Some?
    ensures ProcessDerivativeAsWritten(taskid, s3Bags, formatparams).Ok?
        ==> ProcessDerivativeAsWritten(taskid, s3Bags, formatparams) == Ok(ProcessDerivative(taskid, s3Bags, formatparams))
  {
  }

  /** A concrete call: one bag given as a string, as line 219 allows. */
  lemma AsWrittenCounterexample()
    ensures ProcessDerivativeAsWritten(Some("t1"), BagName("Book_1"), Some("jpeg")) == Err(AttributeError)
    ensures ProcessDerivative(Some("t1"), BagName("Book_1"), Some("jpeg"))
         == Some(["https://bag.ou.edu/derivative/Book_1/jpeg/book_1.json"])
  {
    var low := Lower("Book_1");
    assert low[0] == LowerChar('B') == 'b';
    assert low == "book_1";
    var url := RecipeUrl("Book_1", Some("jpeg"));
    var bagUrl := DerivativeBagUrl + "/" + "Book_1";
    assert bagUrl == "https://bag.ou.edu/derivative/Book_1";
    var formatUrl := bagUrl + "/" + "jpeg";
    assert formatUrl == "https://bag.ou.edu/derivative/Book_1/jpeg";
    assert url == formatUrl + "/" + "book_1" + ".json";
    assert url == "https://bag.ou.edu/derivative/Book_1/jpeg/book_1.json";
    var r := ProcessDerivative(Some("t1"), BagName("Book_1"), Some("jpeg"));
    assert r.Some? && |r.value| == 1 && r.value[0] == url;
    assert r.value == [url];
  }
}
