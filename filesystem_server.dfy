/** The business-data store behind the agents' filesystem capability
    (servers/filesystem_server.py). The data directory becomes four maps from
    file name to file content: category-keyed JSON records, typed documents
    with optional metadata sidecars, calendar events and tasks sharing one
    directory, and UI assets grouped by type. The clock is a parameter. The
    order in which a directory is listed is unspecified, so listings pick
    their next file with `:|` and report the order they used. */
module FilesystemServer {
  import opened PyStrings
  import opened JsonValues

  const BusinessDataDir := "data/business"
  const DocumentsDir := "data/documents"
  const CalendarDir := "data/calendar"
  const UiAssetsDir := "data/ui_assets"
  const MetadataSuffix := "_metadata.json"
  const EventPrefix := "event_"
  const TaskPrefix := "task_"

  /** A file in the documents directory: text written by `f.write`, or a JSON
      object written by `json.dump` (a metadata sidecar). Text carries what
      `json.load` makes of it, None when it is not JSON; parsing is not
      modelled, so the writer supplies it, as the clock is supplied. */
  datatype File = Text(content: string, parsed: Option<Json>) | JsonFile(record: Record)

  /** A document's content as `f.read()` returns it: written text with its
      newlines translated, or, for a file `json.dump` wrote, its record (the
      dumped layout is not spelled out). */
  datatype Content = Chars(chars: string) | Dumped(record: Record)

  /** A get that finds nothing answers with a text result, not an error. */
  datatype Lookup<T> = Found(value: T) | NotFound(message: string)

  /** The failures the model keeps from the source's `MCPError`s. */
  datatype Error =
    | DateNotComparable(file: string)  // `str <= int` and friends raise TypeError
    | MetadataNotJson(file: string)    // `json.load` of a sidecar whose text is not JSON

  datatype Outcome<T> = Ok(value: T) | Err(error: Error)

  /** `{"content": ..., "metadata": ...}` as returned by get_document. */
  datatype Document = Document(content: Content, metadata: Option<Json>)

  datatype DocumentEntry = DocumentEntry(filename: string, documentType: string)

  datatype AssetEntry = AssetEntry(filename: string, assetType: string)

  /** A caller's Python dict, which the save operations stamp in place. */
  class Dict {
    var entries: Record

    constructor (entries: Record)
      ensures this.entries == entries
    {
      this.entries := entries;
    }
  }

  // ---------------------------------------------------------------------
  // Listings

  ghost predicate Distinct<T>(s: seq<T>) {
    forall i, j | 0 <= i < j < |s| :: s[i] != s[j]
  }

  /** `order` lists every element of `s` exactly once, in some order. */
  ghost predicate Enumerates(order: seq<string>, s: set<string>) {
    Distinct(order) && forall x :: x in order <==> x in s
  }

  lemma DistinctConcat<T>(a: seq<T>, b: seq<T>)
    requires Distinct(a) && Distinct(b)
    requires forall x | x in a :: x !in b
    ensures Distinct(a + b)
  {
    forall i, j | 0 <= i < j < |a + b|
      ensures (a + b)[i] != (a + b)[j]
    {
      if i < |a| && j >= |a| {
        assert (a + b)[i] in a && (a + b)[j] in b;
      }
    }
  }

  /** The files of one directory, as `dir.glob("*")` lists them, leaving out
      metadata-named files when `skipSidecars` holds. */
  method ListDirectory<V>(dir: map<string, V>, skipSidecars: bool) returns (names: seq<string>)
    ensures Distinct(names)
    ensures forall n :: n in names <==> n in dir && !(skipSidecars && EndsWith(n, MetadataSuffix))
  {
    names := [];
    var pending := dir.Keys;
    while pending != {}
      invariant pending <= dir.Keys
      invariant Distinct(names)
      invariant forall n :: n in names <==>
        n in dir && n !in pending && !(skipSidecars && EndsWith(n, MetadataSuffix))
      decreases |pending|
    {
      var n :| n in pending;
      pending := pending - {n};
      if !(skipSidecars && EndsWith(n, MetadataSuffix)) {
        names := names + [n];
      }
    }
  }

  function DirectoryOf<V>(tree: map<string, map<string, V>>, name: string): map<string, V> {
    if name in tree then tree[name] else map[]
  }

  // ---------------------------------------------------------------------
  // Business data: data/business/<category>.json

  /** `<category>.json`: matched by the listing's `*.json` glob, and its stem
      gives the category back (except for the empty one, whose file is the
      dot-file `.json`). */
  function BusinessFile(category: string): (r: string)
    ensures EndsWith(r, ".json")
    ensures Stem(r) == (if category == [] then r else category)
  {
    StemOfJsonName(category);
    category + ".json"
  }

  /** `data["updated_at"] = now`: the saved record. */
  function Stamped(data: Record, now: string): (r: Record)
    ensures r.Keys == data.Keys + {"updated_at"}
    ensures r["updated_at"] == JStr(now)
    ensures forall k | k in data && k != "updated_at" :: r[k] == data[k]
  {
    data["updated_at" := JStr(now)]
  }

  /** What get_business_data answers for a category, given the directory. */
  function BusinessLookup(dir: map<string, Record>, category: string): (r: Lookup<Record>)
    ensures r.Found? <==> BusinessFile(category) in dir
    ensures r.Found? ==> r.value == dir[category + ".json"]
    ensures r.NotFound? ==> r.message == "No data found for " + category
  {
    if BusinessFile(category) in dir then Found(dir[BusinessFile(category)])
    else NotFound("No data found for " + category)
  }

  /** The name list_business_data reports for a saved category. */
  function ListedCategory(category: string): (r: string)
    ensures r == Stem(BusinessFile(category))
    ensures r != []
  {
    StemOfJsonName(category);
    if category == [] then ".json" else category
  }

  /** The stems of the `*.json` files are exactly the saved categories, as
      list_business_data reports them. */
  lemma StemsAreSavedCategories(dir: map<string, Record>, order: seq<string>, categories: seq<string>)
    requires forall n :: n in order <==> n in dir && EndsWith(n, ".json")
    requires |categories| == |order| && forall i | 0 <= i < |order| :: categories[i] == Stem(order[i])
    ensures forall c | BusinessFile(c) in dir :: ListedCategory(c) in categories
    ensures forall x | x in categories :: exists c :: BusinessFile(c) in dir && ListedCategory(c) == x
  {
    forall c | BusinessFile(c) in dir
      ensures ListedCategory(c) in categories
    {
      SavedCategoryListed(dir, order, categories, c);
    }
    forall x | x in categories
      ensures exists c :: BusinessFile(c) in dir && ListedCategory(c) == x
    {
      var i :| 0 <= i < |categories| && categories[i] == x;
      ListedStemSaved(dir, order, categories, i);
    }
  }

  lemma SavedCategoryListed(dir: map<string, Record>, order: seq<string>, categories: seq<string>, c: string)
    requires forall n :: n in order <==> n in dir && EndsWith(n, ".json")
    requires |categories| == |order| && forall i | 0 <= i < |order| :: categories[i] == Stem(order[i])
    requires BusinessFile(c) in dir
    ensures ListedCategory(c) in categories
  {
    StemOfJsonName(c);
    assert EndsWith(BusinessFile(c), ".json");
    assert BusinessFile(c) in order;
    var i :| 0 <= i < |order| && order[i] == BusinessFile(c);
    assert categories[i] == ListedCategory(c);
  }

  lemma ListedStemSaved(dir: map<string, Record>, order: seq<string>, categories: seq<string>, i: int)
    requires forall n :: n in order <==> n in dir && EndsWith(n, ".json")
    requires |categories| == |order| && forall i | 0 <= i < |order| :: categories[i] == Stem(order[i])
    requires 0 <= i < |categories|
    ensures exists c :: BusinessFile(c) in dir && ListedCategory(c) == categories[i]
  {
    var name := order[i];
    assert name in order;
    var c := name[..|name| - 5];
    assert BusinessFile(c) == name;
    StemOfJsonName(c);
  }

  /** Reading a category back returns what the last save to it wrote: the
      caller's data with `updated_at` added. */
  lemma SaveThenGetBusinessData(dir: map<string, Record>, data: Record, category: string, now: string)
    ensures var r := BusinessLookup(dir[BusinessFile(category) := Stamped(data, now)], category);
      r.Found? && r.value.Keys == data.Keys + {"updated_at"} && r.value["updated_at"] == JStr(now)
      && forall k | k in data && k != "updated_at" :: r.value[k] == data[k]
  {
  }

  /** A save to one category leaves every other category as it was. */
  lemma SaveKeepsOtherCategories(dir: map<string, Record>, data: Record, category: string, other: string, now: string)
    requires other != category
    ensures BusinessLookup(dir[BusinessFile(category) := Stamped(data, now)], other) == BusinessLookup(dir, other)
  {
    if BusinessFile(other) == BusinessFile(category) {
      AppendSuffixInjective(other, category, ".json");
    }
  }

  /** A second save to the same category replaces the first entirely. */
  lemma SecondSaveOverwrites(dir: map<string, Record>, first: Record, second: Record, category: string, t1: string, t2: string)
    ensures BusinessLookup(dir[BusinessFile(category) := Stamped(first, t1)][BusinessFile(category) := Stamped(second, t2)], category)
         == Found(Stamped(second, t2))
  {
  }

  /** A category never saved answers with a not-found text. */
  lemma UnsavedCategoryNotFound(dir: map<string, Record>, category: string)
    requires BusinessFile(category) !in dir
    ensures BusinessLookup(dir, category) == NotFound("No data found for " + category)
  {
  }

  // ---------------------------------------------------------------------
  // Documents: data/documents/<type>/<filename>, sidecar <stem>_metadata.json

  /** `<stem>_metadata.json`: named after a prefix of the document's name,
      and always carrying the suffix the listings leave out. */
  function SidecarName(filename: string): (r: string)
    ensures EndsWith(r, MetadataSuffix)
    ensures |MetadataSuffix| <= |r| && StartsWith(filename, r[..|r| - |MetadataSuffix|])
  {
    var r := Stem(filename) + MetadataSuffix;
    assert r[..|r| - |MetadataSuffix|] == Stem(filename);
    r
  }

  /** The sidecar of a document is never the document itself. */
  lemma SidecarNameDiffers(filename: string)
    ensures SidecarName(filename) != filename
  {
    var i := LastDot(filename);
    if 0 < i < |filename| - 1 {
      var side := SidecarName(filename);
      assert side[i] == '_';
      assert filename[i] == '.';
    } else {
      assert |SidecarName(filename)| > |filename|;
    }
  }

  /** The metadata as saved: the caller's keys plus filename, type and time. */
  function SidecarRecord(metadata: Record, filename: string, documentType: string, now: string): (r: Record)
    ensures r.Keys == metadata.Keys + {"filename", "document_type", "created_at"}
    ensures r["filename"] == JStr(filename) && r["document_type"] == JStr(documentType)
    ensures r["created_at"] == JStr(now)
    ensures forall k | k in metadata && k !in {"filename", "document_type", "created_at"} :: r[k] == metadata[k]
  {
    metadata["filename" := JStr(filename)]["document_type" := JStr(documentType)]["created_at" := JStr(now)]
  }

  /** The documents tree after save_document: the content file is written,
      and a sidecar only when the metadata is a non-empty dict. */
  function SavedDocuments(docs: map<string, map<string, File>>, content: string, parsed: Option<Json>, filename: string,
                          documentType: string, metadata: Option<Record>, now: string): (r: map<string, map<string, File>>)
    ensures r.Keys == docs.Keys + {documentType}
    ensures forall t | t in docs && t != documentType :: r[t] == docs[t]
    ensures filename in r[documentType] && r[documentType][filename] == Text(content, parsed)
    ensures r[documentType].Keys == DirectoryOf(docs, documentType).Keys + {filename} +
      (if metadata.Some? && metadata.value != map[] then {SidecarName(filename)} else {})
    ensures metadata.Some? && metadata.value != map[] ==>
      SidecarName(filename) in r[documentType] &&
      r[documentType][SidecarName(filename)] == JsonFile(SidecarRecord(metadata.value, filename, documentType, now))
    ensures var before := DirectoryOf(docs, documentType);
      forall n | n in before && n != filename && (n == SidecarName(filename) ==> metadata.None? || metadata.value == map[]) ::
        n in r[documentType] && r[documentType][n] == before[n]
  {
    SidecarNameDiffers(filename);
    var dir := DirectoryOf(docs, documentType)[filename := Text(content, parsed)];
    if metadata.Some? && metadata.value != map[] then
      docs[documentType := dir[SidecarName(filename) := JsonFile(SidecarRecord(metadata.value, filename, documentType, now))]]
    else
      docs[documentType := dir]
  }

  /** The tree save_document leaves, written out as map updates. */
  lemma SavedDocumentsShape(docs: map<string, map<string, File>>, content: string, parsed: Option<Json>, filename: string,
                            documentType: string, metadata: Option<Record>, now: string)
    ensures var dir := DirectoryOf(docs, documentType)[filename := Text(content, parsed)];
      SavedDocuments(docs, content, parsed, filename, documentType, metadata, now) ==
        if metadata.Some? && metadata.value != map[] then
          docs[documentType := dir[SidecarName(filename) := JsonFile(SidecarRecord(metadata.value, filename, documentType, now))]]
        else
          docs[documentType := dir]
  {
  }

  /** `f.read()` of a document. */
  function ReadContent(f: File): (c: Content)
    ensures f.Text? ==> c.Chars? && '\r' !in c.chars
    ensures f.JsonFile? ==> c == Dumped(f.record)
  {
    match f
    case Text(content, _) => Chars(ReadText(content))
    case JsonFile(r) => Dumped(r)
  }

  /** `json.load` of a sidecar: the record json.dump wrote, the parse of a
      text file, or the error raised on text that is not JSON. */
  function LoadMetadata(f: File, name: string): (r: Outcome<Json>)
    ensures f.JsonFile? ==> r == Ok(JObj(f.record))
    ensures f.Text? && f.parsed.Some? ==> r == Ok(f.parsed.value)
    ensures r.Err? <==> f.Text? && f.parsed.None?
  {
    match f
    case JsonFile(record) => Ok(JObj(record))
    case Text(_, parsed) => if parsed.Some? then Ok(parsed.value) else Err(MetadataNotJson(name))
  }

  /** What get_document answers. */
  function DocumentLookup(docs: map<string, map<string, File>>, filename: string, documentType: string): (r: Outcome<Lookup<Document>>)
    ensures (r.Ok? && r.value.NotFound?) <==> filename !in DirectoryOf(docs, documentType)
    ensures r.Ok? && r.value.NotFound? ==> r.value.message == "Document " + filename + " not found in " + documentType
    ensures r.Ok? && r.value.Found? ==>
      && r.value.value.content == ReadContent(docs[documentType][filename])
      && (r.value.value.metadata.None? <==> SidecarName(filename) !in docs[documentType])
      && (SidecarName(filename) in docs[documentType] ==>
            LoadMetadata(docs[documentType][SidecarName(filename)], SidecarName(filename)) == Ok(r.value.value.metadata.value))
    ensures r.Err? <==>
      filename in DirectoryOf(docs, documentType) && SidecarName(filename) in docs[documentType] &&
      LoadMetadata(docs[documentType][SidecarName(filename)], SidecarName(filename)).Err?
  {
    if documentType !in docs || filename !in docs[documentType] then
      Ok(NotFound("Document " + filename + " not found in " + documentType))
    else
      var dir := docs[documentType];
      var meta := SidecarName(filename);
      var content := ReadContent(dir[filename]);
      if meta !in dir then Ok(Found(Document(content, None)))
      else match LoadMetadata(dir[meta], meta)
        case Ok(j) => Ok(Found(Document(content, Some(j))))
        case Err(e) => Err(e)
  }

  /** A document saved with non-empty metadata reads back with its content,
      newlines translated, and the stamped sidecar; content without a
      carriage return reads back exactly. */
  lemma SaveThenGetDocumentWithMetadata(docs: map<string, map<string, File>>, content: string, parsed: Option<Json>,
                                        filename: string, documentType: string, metadata: Record, now: string)
    requires metadata != map[]
    ensures var r := DocumentLookup(SavedDocuments(docs, content, parsed, filename, documentType, Some(metadata), now),
                                    filename, documentType);
      && r == Ok(Found(Document(Chars(ReadText(content)), Some(JObj(SidecarRecord(metadata, filename, documentType, now))))))
      && ('\r' !in content ==> r.value.value.content == Chars(content))
  {
    SidecarNameDiffers(filename);
    if '\r' !in content {
      ReadTextKeepsPlainText(content);
    }
  }

  /** A document saved without metadata (None or an empty dict) writes no
      sidecar: it reads back with whatever sidecar was already there (a
      stamped record, or the parse of a text file, or an error when that
      text is not JSON), and with None when there was none. */
  lemma SaveThenGetDocumentWithoutMetadata(docs: map<string, map<string, File>>, content: string, parsed: Option<Json>,
                                           filename: string, documentType: string, metadata: Option<Record>, now: string)
    requires metadata.None? || metadata.value == map[]
    ensures var before := DirectoryOf(docs, documentType);
      var side := SidecarName(filename);
      var read := Chars(ReadText(content));
      var r := DocumentLookup(SavedDocuments(docs, content, parsed, filename, documentType, metadata, now), filename, documentType);
      && (side !in before ==> r == Ok(Found(Document(read, None))))
      && (side in before && before[side].JsonFile? ==> r == Ok(Found(Document(read, Some(JObj(before[side].record))))))
      && (side in before && before[side].Text? && before[side].parsed.Some? ==>
            r == Ok(Found(Document(read, Some(before[side].parsed.value)))))
      && (side in before && before[side].Text? && before[side].parsed.None? ==> r == Err(MetadataNotJson(side)))
  {
    SidecarNameDiffers(filename);
  }

  lemma MissingDocumentNotFound(docs: map<string, map<string, File>>, filename: string, documentType: string)
    requires filename !in DirectoryOf(docs, documentType)
    ensures DocumentLookup(docs, filename, documentType) == Ok(NotFound("Document " + filename + " not found in " + documentType))
  {
  }

  /** An entry list_documents reports for the given type argument. */
  ghost predicate DocumentListed(docs: map<string, map<string, File>>, documentType: Option<string>, e: DocumentEntry)
    ensures DocumentListed(docs, documentType, e) ==>
      e.filename in DirectoryOf(docs, e.documentType) && !EndsWith(e.filename, MetadataSuffix)
    ensures Given(documentType) && documentType.value !in docs ==> !DocumentListed(docs, documentType, e)
    ensures (!Given(documentType) && e.documentType in docs && e.filename in docs[e.documentType] &&
             !EndsWith(e.filename, MetadataSuffix)) ==> DocumentListed(docs, documentType, e)
  {
    && e.documentType in docs
    && e.filename in docs[e.documentType]
    && !EndsWith(e.filename, MetadataSuffix)
    && (Given(documentType) ==> e.documentType == documentType.value)
  }

  /** An entry list_ui_assets reports: no file name is excluded. */
  ghost predicate AssetListed(assets: map<string, map<string, string>>, assetType: Option<string>, e: AssetEntry)
    ensures AssetListed(assets, assetType, e) ==> e.filename in DirectoryOf(assets, e.assetType)
    ensures Given(assetType) && assetType.value !in assets ==> !AssetListed(assets, assetType, e)
    ensures (e.assetType in assets && e.filename in assets[e.assetType] &&
             (Given(assetType) ==> e.assetType == assetType.value)) ==> AssetListed(assets, assetType, e)
  {
    && e.assetType in assets
    && e.filename in assets[e.assetType]
    && (Given(assetType) ==> e.assetType == assetType.value)
  }

  /** A document whose own name ends in `_metadata.json` is stored but never
      listed, whereas a UI asset of that name is. */
  lemma MetadataNamedFilesListing(docs: map<string, map<string, File>>, assets: map<string, map<string, string>>,
                                  content: string, parsed: Option<Json>, filename: string, dirName: string, now: string)
    requires EndsWith(filename, MetadataSuffix)
    ensures var after := SavedDocuments(docs, content, parsed, filename, dirName, None, now);
      && dirName in after && filename in after[dirName] && after[dirName][filename] == Text(content, parsed)
      && !DocumentListed(after, None, DocumentEntry(filename, dirName))
    ensures AssetListed(assets[dirName := DirectoryOf(assets, dirName)[filename := content]], None, AssetEntry(filename, dirName))
  {
    SidecarNameDiffers(filename);
  }

  // ---------------------------------------------------------------------
  // UI assets: data/ui_assets/<type>/<filename>

  /** What get_ui_asset answers. */
  function AssetLookup(assets: map<string, map<string, string>>, filename: string, assetType: string): (r: Lookup<string>)
    ensures r.Found? <==> filename in DirectoryOf(assets, assetType)
    ensures r.Found? ==> r.value == ReadText(assets[assetType][filename]) && '\r' !in r.value
    ensures r.NotFound? ==> r.message == "UI asset " + filename + " not found in " + assetType
  {
    if assetType in assets && filename in assets[assetType] then Found(ReadText(assets[assetType][filename]))
    else NotFound("UI asset " + filename + " not found in " + assetType)
  }

  /** An asset just saved reads back with its newlines translated, and
      exactly as written when it holds no carriage return. */
  lemma SaveThenGetUiAsset(assets: map<string, map<string, string>>, content: string, filename: string, assetType: string)
    ensures var r := AssetLookup(assets[assetType := DirectoryOf(assets, assetType)[filename := content]], filename, assetType);
      && r == Found(ReadText(content))
      && ('\r' !in content ==> r == Found(content))
  {
    if '\r' !in content {
      ReadTextKeepsPlainText(content);
    }
  }

  // ---------------------------------------------------------------------
  // Calendar: events and tasks share data/calendar

  /** Matched by the glob `event_*.json`; the star may match nothing. */
  predicate IsEventFile(name: string)
    ensures IsEventFile(name) ==> StartsWith(name, EventPrefix) && EndsWith(name, ".json")
    ensures name == EventPrefix + ".json" ==> IsEventFile(name)
  {
    MatchesStarPattern(name, EventPrefix, ".json")
  }

  /** Matched by the glob `task_*.json`; the star may match nothing. */
  predicate IsTaskFile(name: string)
    ensures IsTaskFile(name) ==> StartsWith(name, TaskPrefix) && EndsWith(name, ".json")
    ensures name == TaskPrefix + ".json" ==> IsTaskFile(name)
  {
    MatchesStarPattern(name, TaskPrefix, ".json")
  }

  function EventFiles(calendar: map<string, Record>): set<string> {
    set n | n in calendar && IsEventFile(n)
  }

  function TaskFiles(calendar: map<string, Record>): set<string> {
    set n | n in calendar && IsTaskFile(n)
  }

  /** The record after save_calendar_event / save_task stamped it: an id is
      generated as `<prefix><seconds>` only when the record has none. */
  function SavedEntry(data: Record, prefix: string, seconds: int, now: string): (r: Record)
    ensures r.Keys == data.Keys + {"id", "updated_at"}
    ensures r["updated_at"] == JStr(now)
    ensures r["id"] == if "id" in data then data["id"] else JStr(prefix + IntToDecimal(seconds))
    ensures forall k | k in data && k != "id" && k != "updated_at" :: r[k] == data[k]
  {
    var withId := if "id" in data then data else data["id" := JStr(prefix + IntToDecimal(seconds))];
    withId["updated_at" := JStr(now)]
  }

  /** The file an entry with this id is written to: `<prefix><id>.json`. */
  function EntryFile(prefix: string, id: Json): (r: string)
    requires IsScalar(id)
    ensures MatchesStarPattern(r, prefix, ".json")
    ensures id.JStr? ==> r == prefix + id.s + ".json"
  {
    prefix + Display(id) + ".json"
  }

  /** A record that already has an id keeps it; only `updated_at` changes. */
  lemma SaveKeepsExistingId(data: Record, prefix: string, seconds: int, now: string)
    requires "id" in data
    ensures var r := SavedEntry(data, prefix, seconds, now);
      r["id"] == data["id"] && r.Keys == data.Keys + {"updated_at"} && r["updated_at"] == JStr(now)
  {
  }

  /** A generated event id is `event_<seconds>` and is stored in the file
      `event_event_<seconds>.json`: the prefix appears twice. */
  lemma GeneratedEventIdDoublePrefixed(data: Record, seconds: int, now: string)
    requires "id" !in data
    ensures var r := SavedEntry(data, EventPrefix, seconds, now);
      && r["id"] == JStr("event_" + IntToDecimal(seconds))
      && EntryFile(EventPrefix, r["id"]) == "event_event_" + IntToDecimal(seconds) + ".json"
  {
  }

  /** Likewise a generated task id lands in `task_task_<seconds>.json`. */
  lemma GeneratedTaskIdDoublePrefixed(data: Record, seconds: int, now: string)
    requires "id" !in data
    ensures var r := SavedEntry(data, TaskPrefix, seconds, now);
      && r["id"] == JStr("task_" + IntToDecimal(seconds))
      && EntryFile(TaskPrefix, r["id"]) == "task_task_" + IntToDecimal(seconds) + ".json"
  {
  }

  /** Generated ids are unique per second only: records without an id saved
      in the same second share one file (the later save overwrites the
      earlier), and records saved in different seconds never do. */
  lemma GeneratedIdsCollideOnlyWithinASecond(a: Record, b: Record, prefix: string, s1: int, s2: int, t1: string, t2: string)
    requires "id" !in a && "id" !in b
    ensures EntryFile(prefix, SavedEntry(a, prefix, s1, t1)["id"]) == EntryFile(prefix, SavedEntry(b, prefix, s2, t2)["id"])
        <==> s1 == s2
  {
    var fa := EntryFile(prefix, SavedEntry(a, prefix, s1, t1)["id"]);
    var fb := EntryFile(prefix, SavedEntry(b, prefix, s2, t2)["id"]);
    if fa == fb {
      assert fa == (prefix + (prefix + IntToDecimal(s1))) + ".json";
      assert fb == (prefix + (prefix + IntToDecimal(s2))) + ".json";
      AppendSuffixInjective(prefix + (prefix + IntToDecimal(s1)), prefix + (prefix + IntToDecimal(s2)), ".json");
      PrependPrefixInjective(prefix, prefix + IntToDecimal(s1), prefix + IntToDecimal(s2));
      PrependPrefixInjective(prefix, IntToDecimal(s1), IntToDecimal(s2));
      IntToDecimalInjective(s1, s2);
    }
  }

  /** Every event file matches `event_*.json` and never `task_*.json`, and the
      other way round, so the two listings never mix. */
  lemma EventAndTaskFilesDisjoint(id: Json)
    requires IsScalar(id)
    ensures IsEventFile(EntryFile(EventPrefix, id)) && !IsTaskFile(EntryFile(EventPrefix, id))
    ensures IsTaskFile(EntryFile(TaskPrefix, id)) && !IsEventFile(EntryFile(TaskPrefix, id))
  {
    var e := EntryFile(EventPrefix, id);
    var t := EntryFile(TaskPrefix, id);
    assert e[..|EventPrefix|] == EventPrefix;
    assert e[|e| - 5..] == ".json";
    assert t[..|TaskPrefix|] == TaskPrefix;
    assert t[|t| - 5..] == ".json";
    assert e[0] == 'e' && t[0] == 't';
  }

  /** Saving a task changes nothing that the event listing reads. */
  lemma TaskSaveInvisibleToEvents(calendar: map<string, Record>, record: Record, id: Json)
    requires IsScalar(id)
    ensures var after := calendar[EntryFile(TaskPrefix, id) := record];
      EventFiles(after) == EventFiles(calendar) && forall n | n in EventFiles(calendar) :: after[n] == calendar[n]
  {
    EventAndTaskFilesDisjoint(id);
  }

  /** Saving an event changes nothing that the task listing reads. */
  lemma EventSaveInvisibleToTasks(calendar: map<string, Record>, record: Record, id: Json)
    requires IsScalar(id)
    ensures var after := calendar[EntryFile(EventPrefix, id) := record];
      TaskFiles(after) == TaskFiles(calendar) && forall n | n in TaskFiles(calendar) :: after[n] == calendar[n]
  {
    EventAndTaskFilesDisjoint(id);
  }

  /** `event.get("date") or event.get("start_date")` */
  function EventDate(e: Record): (d: Json)
    ensures "date" in e && Truthy(e["date"]) ==> d == e["date"]
    ensures !("date" in e && Truthy(e["date"])) && "start_date" in e ==> d == e["start_date"]
    ensures !("date" in e && Truthy(e["date"])) && "start_date" !in e ==> !Truthy(d)
  {
    var d := GetOrNull(e, "date");
    if Truthy(d) then d else GetOrNull(e, "start_date")
  }

  /** The date filter applies only when both bounds are given (non-empty). */
  predicate DateFiltering(startDate: Option<string>, endDate: Option<string>)
    ensures DateFiltering(startDate, endDate) <==>
      startDate.Some? && endDate.Some? && Truthy(JStr(startDate.value)) && Truthy(JStr(endDate.value))
  {
    Given(startDate) && Given(endDate)
  }

  /** A date that Python cannot compare with a string bound. */
  predicate DateUncomparable(e: Record)
    ensures DateUncomparable(e) ==> EventDate(e) != JNull && !EventDate(e).JStr?
    ensures EventDate(e).JStr? ==> !DateUncomparable(e)
    ensures EventDate(e).JNum? && EventDate(e).n != 0 ==> DateUncomparable(e)
  {
    Truthy(EventDate(e)) && !EventDate(e).JStr?
  }

  /** The event stays in the listing: no filter, or a date within the bounds. */
  predicate EventKept(e: Record, startDate: Option<string>, endDate: Option<string>)
    ensures DateFiltering(startDate, endDate) && EventKept(e, startDate, endDate) ==>
      Truthy(EventDate(e)) && !DateUncomparable(e)
    ensures !DateFiltering(startDate, endDate) ==> EventKept(e, startDate, endDate)
  {
    !DateFiltering(startDate, endDate) ||
    (EventDate(e).JStr? && EventDate(e).s != "" &&
     LexLe(startDate.value, EventDate(e).s) && LexLe(EventDate(e).s, endDate.value))
  }

  /** get_calendar_events over the event files taken in the given order. */
  function SelectEvents(calendar: map<string, Record>, order: seq<string>,
                        startDate: Option<string>, endDate: Option<string>): (r: Outcome<seq<Record>>)
    requires forall n | n in order :: n in calendar
    ensures r.Ok? ==> |r.value| <= |order| && forall e | e in r.value :: EventKept(e, startDate, endDate)
    ensures r.Err? ==> DateFiltering(startDate, endDate) && r.error.DateNotComparable? && r.error.file in order
    decreases |order|
  {
    if order == [] then Ok([])
    else
      var prior := SelectEvents(calendar, order[..|order| - 1], startDate, endDate);
      var name := order[|order| - 1];
      if prior.Err? then prior
      else if DateFiltering(startDate, endDate) && DateUncomparable(calendar[name]) then Err(DateNotComparable(name))
      else if EventKept(calendar[name], startDate, endDate) then Ok(prior.value + [calendar[name]])
      else prior
  }

  /** One more event file on the listing: the loop step of get_calendar_events. */
  lemma SelectEventsStep(calendar: map<string, Record>, prior: seq<string>, name: string,
                         startDate: Option<string>, endDate: Option<string>, events: seq<Record>)
    requires forall n | n in prior :: n in calendar
    requires name in calendar
    requires SelectEvents(calendar, prior, startDate, endDate) == Ok(events)
    ensures var e := calendar[name];
      SelectEvents(calendar, prior + [name], startDate, endDate) ==
        if DateFiltering(startDate, endDate) && DateUncomparable(e) then Err(DateNotComparable(name))
        else if EventKept(e, startDate, endDate) then Ok(events + [e])
        else Ok(events)
  {
    assert (prior + [name])[..|prior|] == prior;
  }

  /** The listing fails exactly when filtering meets a date that is not a
      string. */
  lemma {:induction false} SelectEventsFailsIff(calendar: map<string, Record>, order: seq<string>,
                                                startDate: Option<string>, endDate: Option<string>)
    requires forall n | n in order :: n in calendar
    ensures SelectEvents(calendar, order, startDate, endDate).Err? <==>
      DateFiltering(startDate, endDate) && exists n | n in order :: DateUncomparable(calendar[n])
    decreases |order|
  {
    if order != [] {
      var init := order[..|order| - 1];
      SelectEventsFailsIff(calendar, init, startDate, endDate);
      assert forall n :: n in order <==> n in init || n == order[|order| - 1];
    }
  }

  /** A successful listing holds exactly the kept events. */
  lemma {:induction false} SelectEventsMembers(calendar: map<string, Record>, order: seq<string>,
                                               startDate: Option<string>, endDate: Option<string>)
    requires forall n | n in order :: n in calendar
    requires SelectEvents(calendar, order, startDate, endDate).Ok?
    ensures forall e :: e in SelectEvents(calendar, order, startDate, endDate).value <==>
      exists n | n in order :: calendar[n] == e && EventKept(e, startDate, endDate)
    decreases |order|
  {
    if order != [] {
      var init := order[..|order| - 1];
      SelectEventsMembers(calendar, init, startDate, endDate);
      assert forall n :: n in order <==> n in init || n == order[|order| - 1];
    }
  }

  /** With either bound missing every event is returned, in listing order. */
  lemma {:induction false} SelectEventsUnfiltered(calendar: map<string, Record>, order: seq<string>,
                                                  startDate: Option<string>, endDate: Option<string>)
    requires forall n | n in order :: n in calendar
    requires !DateFiltering(startDate, endDate)
    ensures var r := SelectEvents(calendar, order, startDate, endDate);
      r.Ok? && |r.value| == |order| && forall i | 0 <= i < |order| :: r.value[i] == calendar[order[i]]
    decreases |order|
  {
    if order != [] {
      SelectEventsUnfiltered(calendar, order[..|order| - 1], startDate, endDate);
    }
  }

  /** A range whose end comes before its start selects nothing. */
  lemma EmptyRangeSelectsNothing(calendar: map<string, Record>, order: seq<string>, startDate: string, endDate: string)
    requires forall n | n in order :: n in calendar
    requires startDate != "" && endDate != "" && !LexLe(startDate, endDate)
    requires SelectEvents(calendar, order, Some(startDate), Some(endDate)).Ok?
    ensures SelectEvents(calendar, order, Some(startDate), Some(endDate)).value == []
  {
    var r := SelectEvents(calendar, order, Some(startDate), Some(endDate)).value;
    SelectEventsMembers(calendar, order, Some(startDate), Some(endDate));
    if r != [] {
      assert r[0] in r;
      var d := EventDate(r[0]).s;
      LexLeTransitive(startDate, d, endDate);
    }
  }

  /** The task kept by get_tasks: no status given, or an equal status. */
  predicate TaskKept(t: Record, status: Option<string>)
    ensures Given(status) && TaskKept(t, status) ==> "status" in t && t["status"] == JStr(status.value)
    ensures !Given(status) ==> TaskKept(t, status)
  {
    !Given(status) || GetOrNull(t, "status") == JStr(status.value)
  }

  /** get_tasks over the task files taken in the given order. */
  function SelectTasks(calendar: map<string, Record>, order: seq<string>, status: Option<string>): (r: seq<Record>)
    requires forall n | n in order :: n in calendar
    ensures |r| <= |order| && forall t | t in r :: TaskKept(t, status)
    decreases |order|
  {
    if order == [] then []
    else
      var prior := SelectTasks(calendar, order[..|order| - 1], status);
      var t := calendar[order[|order| - 1]];
      if TaskKept(t, status) then prior + [t] else prior
  }

  /** get_tasks returns exactly the tasks whose status equals the argument. */
  lemma {:induction false} SelectTasksMembers(calendar: map<string, Record>, order: seq<string>, status: Option<string>)
    requires forall n | n in order :: n in calendar
    ensures forall t :: t in SelectTasks(calendar, order, status) <==>
      exists n | n in order :: calendar[n] == t && TaskKept(t, status)
    decreases |order|
  {
    if order != [] {
      var init := order[..|order| - 1];
      SelectTasksMembers(calendar, init, status);
      assert forall n :: n in order <==> n in init || n == order[|order| - 1];
    }
  }

  /** Without a status every task is returned, in listing order. */
  lemma {:induction false} SelectTasksUnfiltered(calendar: map<string, Record>, order: seq<string>, status: Option<string>)
    requires forall n | n in order :: n in calendar
    requires !Given(status)
    ensures var r := SelectTasks(calendar, order, status);
      |r| == |order| && forall i | 0 <= i < |order| :: r[i] == calendar[order[i]]
    decreases |order|
  {
    if order != [] {
      SelectTasksUnfiltered(calendar, order[..|order| - 1], status);
    }
  }

  // ---------------------------------------------------------------------
  // The server

  class Server {
    /** data/business: file name to the JSON object it holds */
    var business: map<string, Record>
    /** data/documents: type directory to its files */
    var documents: map<string, map<string, File>>
    /** data/calendar: event and task files */
    var calendar: map<string, Record>
    /** data/ui_assets: type directory to its files */
    var uiAssets: map<string, map<string, string>>

    /** A server over freshly created, empty directories. */
    constructor ()
      ensures business == map[] && documents == map[] && calendar == map[] && uiAssets == map[]
    {
      business, documents, calendar, uiAssets := map[], map[], map[], map[];
    }

    method SaveBusinessData(data: Dict, category: string, now: string) returns (message: string)
      modifies this`business, data
      ensures data.entries == Stamped(old(data.entries), now)
      ensures business == old(business)[BusinessFile(category) := data.entries]
      ensures message == "Business data saved to " + BusinessDataDir + "/" + BusinessFile(category)
    {
      data.entries := data.entries["updated_at" := JStr(now)];
      var fileName := category + ".json";
      assert fileName == BusinessFile(category);
      var filePath := BusinessDataDir + "/" + fileName;
      business := business[fileName := data.entries];
      message := "Business data saved to " + filePath;
    }

    method GetBusinessData(category: string) returns (r: Lookup<Record>)
      ensures r == BusinessLookup(business, category)
    {
      var fileName := category + ".json";
      if fileName !in business {
        return NotFound("No data found for " + category);
      }
      r := Found(business[fileName]);
    }

    /** The stems of the `*.json` files, one per saved category. */
    method ListBusinessData() returns (categories: seq<string>, ghost order: seq<string>)
      ensures Enumerates(order, set n | n in business && EndsWith(n, ".json"))
      ensures |categories| == |order| && forall i | 0 <= i < |order| :: categories[i] == Stem(order[i])
      ensures forall c | BusinessFile(c) in business :: ListedCategory(c) in categories
      ensures forall x | x in categories :: exists c :: BusinessFile(c) in business && ListedCategory(c) == x
    {
      ghost var files := set n | n in business && EndsWith(n, ".json");
      var pending := set n | n in business && EndsWith(n, ".json");
      categories, order := [], [];
      while pending != {}
        invariant pending <= files
        invariant Distinct(order)
        invariant forall n :: n in order <==> n in files && n !in pending
        invariant |categories| == |order| && forall i | 0 <= i < |order| :: categories[i] == Stem(order[i])
        decreases |pending|
      {
        var name :| name in pending;
        pending := pending - {name};
        categories, order := categories + [Stem(name)], order + [name];
      }
      StemsAreSavedCategories(business, order, categories);
    }

    /** `parsed` is what `json.load` would make of `content` (None when it is
        not JSON text); it matters only if the file is later read as a
        sidecar. */
    method SaveDocument(content: string, parsed: Option<Json>, filename: string, documentType: string, metadata: Dict?,
                        now: string)
      returns (message: string)
      modifies this`documents, metadata
      ensures documents == SavedDocuments(old(documents), content, parsed, filename, documentType,
                                          if metadata == null then None else Some(old(metadata.entries)), now)
      ensures metadata != null && old(metadata.entries) != map[] ==>
        metadata.entries == SidecarRecord(old(metadata.entries), filename, documentType, now)
      ensures metadata != null && old(metadata.entries) == map[] ==> metadata.entries == map[]
      ensures message == "Document saved to " + DocumentsDir + "/" + documentType + "/" + filename
    {
      ghost var before := documents;
      ghost var given := if metadata == null then None else Some(metadata.entries);
      var dir := if documentType in documents then documents[documentType] else map[];
      dir := dir[filename := Text(content, parsed)];
      if metadata != null && metadata.entries != map[] {
        var entries := metadata.entries["filename" := JStr(filename)];
        entries := entries["document_type" := JStr(documentType)];
        entries := entries["created_at" := JStr(now)];
        assert entries == SidecarRecord(given.value, filename, documentType, now);
        metadata.entries := entries;
        var metaName := Stem(filename) + "_metadata.json";
        dir := dir[metaName := JsonFile(entries)];
      }
      documents := documents[documentType := dir];
      SavedDocumentsShape(before, content, parsed, filename, documentType, given, now);
      message := "Document saved to " + DocumentsDir + "/" + documentType + "/" + filename;
    }

    method GetDocument(filename: string, documentType: string) returns (r: Outcome<Lookup<Document>>)
      ensures r == DocumentLookup(documents, filename, documentType)
    {
      if documentType !in documents || filename !in documents[documentType] {
        return Ok(NotFound("Document " + filename + " not found in " + documentType));
      }
      var dir := documents[documentType];
      var content := ReadContent(dir[filename]);
      var metaName := Stem(filename) + "_metadata.json";
      var metadata: Option<Json> := None;
      if metaName in dir {
        var sidecar := dir[metaName];
        if sidecar.JsonFile? {
          metadata := Some(JObj(sidecar.record));
        } else if sidecar.parsed.Some? {
          metadata := Some(sidecar.parsed.value);
        } else {
          return Err(MetadataNotJson(metaName));
        }
      }
      r := Ok(Found(Document(content, metadata)));
    }

    /** Documents of one type, or of every type; sidecars are never listed. */
    method ListDocuments(documentType: Option<string>) returns (entries: seq<DocumentEntry>)
      ensures Distinct(entries)
      ensures forall e :: e in entries <==> DocumentListed(documents, documentType, e)
      ensures Given(documentType) && documentType.value !in documents ==> entries == []
      ensures forall e | e in entries :: !EndsWith(e.filename, MetadataSuffix)
    {
      if Given(documentType) {
        var docType := documentType.value;
        if docType !in documents {
          return [];
        }
        var names := ListDirectory(documents[docType], true);
        entries := seq(|names|, i requires 0 <= i < |names| => DocumentEntry(names[i], docType));
        forall e: DocumentEntry | e.documentType == docType && e.filename in names
          ensures e in entries
        {
          var i :| 0 <= i < |names| && names[i] == e.filename;
          assert entries[i] == e;
        }
      } else {
        entries := [];
        var pending := documents.Keys;
        while pending != {}
          invariant pending <= documents.Keys
          invariant Distinct(entries)
          invariant forall e :: e in entries <==> DocumentListed(documents, documentType, e) && e.documentType !in pending
          decreases |pending|
        {
          var docType :| docType in pending;
          pending := pending - {docType};
          var names := ListDirectory(documents[docType], true);
          var found := seq(|names|, i requires 0 <= i < |names| => DocumentEntry(names[i], docType));
          forall e: DocumentEntry | e.documentType == docType && e.filename in names
            ensures e in found
          {
            var i :| 0 <= i < |names| && names[i] == e.filename;
            assert found[i] == e;
          }
          DistinctConcat(entries, found);
          entries := entries + found;
        }
      }
    }

    method SaveCalendarEvent(eventData: Dict, seconds: int, now: string) returns (message: string)
      requires "id" in eventData.entries ==> IsScalar(eventData.entries["id"])
      modifies this`calendar, eventData
      ensures eventData.entries == SavedEntry(old(eventData.entries), EventPrefix, seconds, now)
      ensures calendar == old(calendar)[EntryFile(EventPrefix, eventData.entries["id"]) := eventData.entries]
      ensures message == "Calendar event saved with ID: " + Display(eventData.entries["id"])
    {
      if "id" !in eventData.entries {
        eventData.entries := eventData.entries["id" := JStr("event_" + IntToDecimal(seconds))];
      }
      var eventId := eventData.entries["id"];
      eventData.entries := eventData.entries["updated_at" := JStr(now)];
      var fileName := "event_" + Display(eventId) + ".json";
      calendar := calendar[fileName := eventData.entries];
      message := "Calendar event saved with ID: " + Display(eventId);
    }

    /** Events in listing order; filtered by date only when both bounds are
        given, failing on a date that is not a string. */
    method GetCalendarEvents(startDate: Option<string>, endDate: Option<string>)
      returns (r: Outcome<seq<Record>>, ghost order: seq<string>)
      ensures Distinct(order) && forall n | n in order :: n in calendar && IsEventFile(n)
      ensures r == SelectEvents(calendar, order, startDate, endDate)
      ensures r.Ok? ==> Enumerates(order, EventFiles(calendar))
      ensures r.Err? <==>
        (DateFiltering(startDate, endDate) && exists n | n in EventFiles(calendar) :: DateUncomparable(calendar[n]))
      ensures r.Ok? ==> forall e :: e in r.value <==>
        exists n | n in EventFiles(calendar) :: calendar[n] == e && EventKept(e, startDate, endDate)
    {
      var pending := set n | n in calendar && IsEventFile(n);
      var events: seq<Record> := [];
      order := [];
      while pending != {}
        invariant pending <= EventFiles(calendar)
        invariant Distinct(order)
        invariant forall n :: n in order <==> n in EventFiles(calendar) && n !in pending
        invariant SelectEvents(calendar, order, startDate, endDate) == Ok(events)
        decreases |pending|
      {
        var name :| name in pending;
        pending := pending - {name};
        var event := calendar[name];
        SelectEventsStep(calendar, order, name, startDate, endDate, events);
        DistinctConcat(order, [name]);
        order := order + [name];
        if Given(startDate) && Given(endDate) {
          var eventDate := GetOrNull(event, "date");
          if !Truthy(eventDate) {
            eventDate := GetOrNull(event, "start_date");
          }
          assert eventDate == EventDate(event);
          if Truthy(eventDate) {
            if !eventDate.JStr? {
              r := Err(DateNotComparable(name));
              SelectEventsFailsIff(calendar, order, startDate, endDate);
              assert name in EventFiles(calendar) && DateUncomparable(calendar[name]);
              return;
            }
            if LexLe(startDate.value, eventDate.s) && LexLe(eventDate.s, endDate.value) {
              events := events + [event];
            }
          }
        } else {
          events := events + [event];
        }
      }
      r := Ok(events);
      assert forall n :: n in order <==> n in EventFiles(calendar);
      SelectEventsFailsIff(calendar, order, startDate, endDate);
      SelectEventsMembers(calendar, order, startDate, endDate);
    }

    method SaveTask(taskData: Dict, seconds: int, now: string) returns (message: string)
      requires "id" in taskData.entries ==> IsScalar(taskData.entries["id"])
      modifies this`calendar, taskData
      ensures taskData.entries == SavedEntry(old(taskData.entries), TaskPrefix, seconds, now)
      ensures calendar == old(calendar)[EntryFile(TaskPrefix, taskData.entries["id"]) := taskData.entries]
      ensures message == "Task saved with ID: " + Display(taskData.entries["id"])
    {
      if "id" !in taskData.entries {
        taskData.entries := taskData.entries["id" := JStr("task_" + IntToDecimal(seconds))];
      }
      var taskId := taskData.entries["id"];
      taskData.entries := taskData.entries["updated_at" := JStr(now)];
      var fileName := "task_" + Display(taskId) + ".json";
      calendar := calendar[fileName := taskData.entries];
      message := "Task saved with ID: " + Display(taskId);
    }

    /** Tasks in listing order, filtered by status when one is given. */
    method GetTasks(status: Option<string>) returns (tasks: seq<Record>, ghost order: seq<string>)
      ensures Enumerates(order, TaskFiles(calendar))
      ensures tasks == SelectTasks(calendar, order, status)
      ensures forall t :: t in tasks <==> exists n | n in TaskFiles(calendar) :: calendar[n] == t && TaskKept(t, status)
    {
      var pending := set n | n in calendar && IsTaskFile(n);
      tasks, order := [], [];
      while pending != {}
        invariant pending <= TaskFiles(calendar)
        invariant Distinct(order)
        invariant forall n :: n in order <==> n in TaskFiles(calendar) && n !in pending
        invariant tasks == SelectTasks(calendar, order, status)
        decreases |pending|
      {
        var name :| name in pending;
        pending := pending - {name};
        var task := calendar[name];
        ghost var prior := order;
        DistinctConcat(order, [name]);
        order := order + [name];
        assert order[..|order| - 1] == prior;
        if Given(status) {
          if GetOrNull(task, "status") == JStr(status.value) {
            tasks := tasks + [task];
          }
        } else {
          tasks := tasks + [task];
        }
      }
      SelectTasksMembers(calendar, order, status);
    }

    method SaveUiAsset(content: string, filename: string, assetType: string) returns (message: string)
      modifies this`uiAssets
      ensures uiAssets == old(uiAssets)[assetType := DirectoryOf(old(uiAssets), assetType)[filename := content]]
      ensures message == "UI asset saved to " + UiAssetsDir + "/" + assetType + "/" + filename
    {
      var dir := if assetType in uiAssets then uiAssets[assetType] else map[];
      uiAssets := uiAssets[assetType := dir[filename := content]];
      message := "UI asset saved to " + UiAssetsDir + "/" + assetType + "/" + filename;
    }

    method GetUiAsset(filename: string, assetType: string) returns (r: Lookup<string>)
      ensures r == AssetLookup(uiAssets, filename, assetType)
    {
      if assetType !in uiAssets || filename !in uiAssets[assetType] {
        return NotFound("UI asset " + filename + " not found in " + assetType);
      }
      r := Found(ReadText(uiAssets[assetType][filename]));
    }

    /** Assets of one type, or of every type; no file name is excluded. */
    method ListUiAssets(assetType: Option<string>) returns (entries: seq<AssetEntry>)
      ensures Distinct(entries)
      ensures forall e :: e in entries <==> AssetListed(uiAssets, assetType, e)
      ensures Given(assetType) && assetType.value !in uiAssets ==> entries == []
    {
      if Given(assetType) {
        var kind := assetType.value;
        if kind !in uiAssets {
          return [];
        }
        var names := ListDirectory(uiAssets[kind], false);
        entries := seq(|names|, i requires 0 <= i < |names| => AssetEntry(names[i], kind));
        forall e: AssetEntry | e.assetType == kind && e.filename in names
          ensures e in entries
        {
          var i :| 0 <= i < |names| && names[i] == e.filename;
          assert entries[i] == e;
        }
      } else {
        entries := [];
        var pending := uiAssets.Keys;
        while pending != {}
          invariant pending <= uiAssets.Keys
          invariant Distinct(entries)
          invariant forall e :: e in entries <==> AssetListed(uiAssets, assetType, e) && e.assetType !in pending
          decreases |pending|
        {
          var kind :| kind in pending;
          pending := pending - {kind};
          var names := ListDirectory(uiAssets[kind], false);
          var found := seq(|names|, i requires 0 <= i < |names| => AssetEntry(names[i], kind));
          forall e: AssetEntry | e.assetType == kind && e.filename in names
            ensures e in found
          {
            var i :| 0 <= i < |names| && names[i] == e.filename;
            assert found[i] == e;
          }
          DistinctConcat(entries, found);
          entries := entries + found;
        }
      }
    }
  }
}
