/** What the two recipe writers share: the shapes of the values a recipe
    holds, the exceptions the writers raise, Python truthiness of an optional
    string, the page label and the second segment of a payload path. */
module Recipes {
  import opened Wrappers
  import opened Strings
  import opened OrderedDicts

  /** A page: an OrderedDict whose values are all strings. */
  type Page = Dict<string>

  /** The values stored under the keys of a recipe. */
  datatype Value =
    | Str(s: string)            // a string
    | Null                      // Python None, serialised as null
    | Obj(fields: Dict<string>) // the `metadata` OrderedDict
    | Pages(pages: seq<Page>)   // the list of pages

  /** The document `{"recipe": OrderedDict(...)}` that is serialised. */
  datatype Document = Document(recipe: Dict<Value>)

  /** The exceptions the modelled code lets escape. Each carries what the
      model records about where it was raised (the key, the path or the
      line at fault), not Python's exception message. */
  datatype Error =
    | KeyError(key: string)     // `payload[item]` for an item that is not a key
    | IndexError(path: string)  // `path.split("/")[1]` on a path without "/"
    | ValueError(line: string)  // a manifest line that does not unpack into two fields
    | AttributeError            // `.split(',')` called on a list

  /** `if o:` for a value that is None or a string. */
  predicate Truthy(o: Option<string>)
  {
    o.Some? && o.value != ""
  }

  /** An optional string as a recipe value: None becomes null. */
  function OptionalStr(o: Option<string>): (v: Value)
    ensures v.Null? <==> o.None?
    ensures o.Some? ==> v == Str(o.value)
  {
    match o
    case None => Null
    case Some(s) => Str(s)
  }

  /** `"{0}".format(o)`: None is formatted as the text "None". */
  function Format(o: Option<string>): (s: string)
    ensures o.Some? ==> s == o.value
    ensures o.None? ==> s == "None"
  {
    match o
    case None => "None"
    case Some(v) => v
  }

  /** The label of the page at position `n`, counting from 1. */
  function ImageLabel(n: nat): string
  {
    "Image " + NatToString(n)
  }

  /** Different positions get different labels. */
  lemma ImageLabelInjective(m: nat, n: nat)
    ensures ImageLabel(m) == ImageLabel(n) <==> m == n
  {
    assert NatToString(m) == ImageLabel(m)[6..];
    assert NatToString(n) == ImageLabel(n)[6..];
    if ImageLabel(m) == ImageLabel(n) {
      NatToStringInjective(m, n);
    }
  }

  /** `path.split("/")[1]`, which raises IndexError on a path without "/". */
  function SecondSegment(path: string): Result<string, Error>
  {
    var parts := Split(path, "/");
    if |parts| >= 2 then Ok(parts[1]) else Err(IndexError(path))
  }

  /** The second segment exists exactly when the path holds a "/", and it
      holds no "/" itself. */
  lemma SecondSegmentExists(path: string)
    ensures SecondSegment(path).Ok? <==> '/' in path
    ensures SecondSegment(path).Ok? ==> '/' !in SecondSegment(path).value
    ensures SecondSegment(path).Err? ==> SecondSegment(path) == Err(IndexError(path))
  {
    ContainsChar(path, '/');
    var parts := Split(path, "/");
    if '/' in path {
      var i: nat :| i <= |path| && OccursAt(path, "/", i);
      assert FindFrom(path, "/", 0).Some?;
      SplitPiecesAvoidSep(path, "/");
      assert parts[1] in parts;
      ContainsChar(parts[1], '/');
    } else {
      assert FindFrom(path, "/", 0).None?;
    }
  }

  /** For a path made of "/"-free segments, the second segment is the
      second of them. */
  lemma SecondSegmentOf(segments: seq<string>)
    requires |segments| >= 2
    requires forall s :: s in segments ==> '/' !in s
    ensures SecondSegment(Join(segments, "/")) == Ok(segments[1])
  {
    SplitJoin(segments, "/");
  }

  // Both writers begin a recipe with import, update, uuid and label, each a
  // new key appended to the dict; the recipe after each of them.

  lemma AfterImport(i: Value)
    ensures Assign([], "import", i) == [("import", i)]
  {
    AssignNew([], "import", i);
  }

  lemma AfterUpdate(i: Value, u: Value)
    ensures Assign([("import", i)], "update", u) == [("import", i), ("update", u)]
  {
    AssignNew([("import", i)], "update", u);
  }

  lemma AfterUuid(i: Value, u: Value, id: Value)
    ensures Assign([("import", i), ("update", u)], "uuid", id) == [("import", i), ("update", u), ("uuid", id)]
  {
    AssignNew([("import", i), ("update", u)], "uuid", id);
  }

  lemma AfterLabel(i: Value, u: Value, id: Value, l: Value)
    ensures Assign([("import", i), ("update", u), ("uuid", id)], "label", l)
         == [("import", i), ("update", u), ("uuid", id), ("label", l)]
  {
    AssignNew([("import", i), ("update", u), ("uuid", id)], "label", l);
  }
}
