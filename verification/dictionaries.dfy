/**
 * The per-user correction-dictionary store (`Dicts`): a replacement table
 * and a map of named word-correction dictionaries, persisted as one JSON
 * document per user under `<folder>/<uuid>.json`.
 *
 * The store is an immutable record and every operation is a pure function
 * from (store, disk) to the new store and/or disk plus an `Outcome` that is
 * either a returned value or a `DictionaryError`. Python's `json.loads` and
 * `json.dumps` on text are parameters (`parse`, `dumps`); files on disk are
 * kept as parsed documents.
 */
module Dictionaries {
  import opened Basics
  import opened Json
  import Paths

  /** A file as `json.load` sees it: a document, or content it cannot read or parse. */
  datatype File = Document(value: Value) | Unreadable

  /** The file system: the content of each existing file, and the paths whose
      `open(..., 'w')` fails. A failed write leaves every file as it was. */
  datatype Disk = Disk(files: map<string, File>, failing: set<string>)

  /** The exception a `DictionaryError` wraps. */
  datatype Cause =
    | ParseFailed              // json.load / json.loads rejected the text, or the file could not be read
    | NoGetMethod              // the loaded document, or `dictionaries`, is not a JSON object (`.get` missing)
    | NoKeysMethod             // the imported document is not a JSON object (`.keys` missing)
    | NotSubscriptable         // `dictionaries` is not a JSON object, so item assignment fails
    | WriteFailed(path: string)

  /** What a call of the store ends with: it returns a value or raises `DictionaryError`. */
  datatype Outcome<+T> = Return(value: T) | DictionaryError(cause: Cause)

  /** The store. `replacements` and `dictionaries` hold whatever the loaded
      document held: `load` does not check their shape (see `Typed`). */
  datatype Dicts = Dicts(folder: string, replacements: Value, dictionaries: Value)

  /** Result of `load`: it may change the store and, on first use, the disk. */
  datatype Loaded = Loaded(store: Dicts, disk: Disk, outcome: Outcome<()>)

  /** Result of `import_`: it changes the store only. */
  datatype Imported = Imported(store: Dicts, outcome: Outcome<bool>)

  /** Result of `save` and `export`: they change the disk only. */
  datatype Written<+T> = Written(disk: Disk, outcome: Outcome<T>)

  /** The declared types of the two fields: `Dict[str, str]` and
      `Dict[str, Dict[str, str]]`. */
  predicate Typed(d: Dicts) {
    && IsStringMap(d.replacements)
    && d.dictionaries.JObject?
    && forall name :: name in d.dictionaries.fields ==> IsStringMap(d.dictionaries.fields[name])
  }

  /** `Dicts.__init__`: the folder is `<module dir>/<folder_path>/json`, the
      replacements are the configured defaults, and there are no dictionaries. */
  function Init(moduleDir: string, folderPath: string, defaults: map<string, string>): (d: Dicts)
    ensures Typed(d)
    ensures d.dictionaries == Empty
    ensures d.replacements == FromStringMap(defaults)
  {
    Dicts(Paths.Join(Paths.Join(moduleDir, folderPath), "json"), FromStringMap(defaults), Empty)
  }

  /** The file that holds the document of user `uuid`. */
  function DocumentPath(d: Dicts, uuid: string): string {
    Paths.Join(d.folder, uuid + ".json")
  }

  /** The document `save` writes: exactly the two fields. */
  function Snapshot(d: Dicts): Value {
    JObject(map["replacements" := d.replacements, "dictionaries" := d.dictionaries])
  }

  /** `open(path, 'w')` followed by a dump of `doc`. */
  function Write(disk: Disk, path: string, doc: Value): Written<()> {
    if path in disk.failing then Written(disk, DictionaryError(WriteFailed(path)))
    else Written(disk.(files := disk.files[path := Document(doc)]), Return(()))
  }

  /** `save(uuid)`: overwrite the user's document with the two fields, or raise. */
  function Save(d: Dicts, disk: Disk, uuid: string): (w: Written<()>)
    ensures w.outcome.Return? <==> DocumentPath(d, uuid) !in disk.failing
    ensures w.outcome.Return? ==> w.disk.files == disk.files[DocumentPath(d, uuid) := Document(Snapshot(d))]
    ensures w.outcome.DictionaryError? ==> w.disk == disk
    ensures w.disk.failing == disk.failing
  {
    Write(disk, DocumentPath(d, uuid), Snapshot(d))
  }

  /** `load(uuid)`: read the user's document if the file exists, otherwise
      create it with `save`. `defaults` is the configured replacement table. */
  function Load(d: Dicts, disk: Disk, uuid: string, defaults: map<string, string>): (l: Loaded)
    // nothing is assigned before an error is raised
    ensures l.outcome.DictionaryError? ==> l.store == d
    ensures l.store.folder == d.folder
    // an existing file is only read
    ensures DocumentPath(d, uuid) in disk.files ==> l.disk == disk
    // it parses as an object: each field is taken from it or defaulted on its own
    ensures DocumentPath(d, uuid) in disk.files ==>
      (l.outcome.Return? <==> disk.files[DocumentPath(d, uuid)].Document? && disk.files[DocumentPath(d, uuid)].value.JObject?)
    ensures DocumentPath(d, uuid) in disk.files && l.outcome.Return? ==>
      var fields := disk.files[DocumentPath(d, uuid)].value.fields;
      && l.store.replacements == (if "replacements" in fields then fields["replacements"] else FromStringMap(defaults))
      && l.store.dictionaries == (if "dictionaries" in fields then fields["dictionaries"] else Empty)
    // first use: the store is kept and written out
    ensures DocumentPath(d, uuid) !in disk.files ==> l.store == d && l.disk == Save(d, disk, uuid).disk
    ensures DocumentPath(d, uuid) !in disk.files && l.outcome.Return? ==>
      DocumentPath(d, uuid) in l.disk.files && l.disk.files[DocumentPath(d, uuid)] == Document(Snapshot(d))
  {
    var path := DocumentPath(d, uuid);
    if path in disk.files then
      match disk.files[path]
      case Unreadable => Loaded(d, disk, DictionaryError(ParseFailed))
      case Document(doc) =>
        if !doc.JObject? then Loaded(d, disk, DictionaryError(NoGetMethod))
        else
          var replacements := Get(doc.fields, "replacements", FromStringMap(defaults));
          var dictionaries := Get(doc.fields, "dictionaries", Empty);
          Loaded(d.(replacements := replacements, dictionaries := dictionaries), disk, Return(()))
    else
      var w := Save(d, disk, uuid);
      Loaded(d, w.disk, w.outcome)
  }

  /** `import_(dict_name, data)`: parse `data`; install it under `name` when
      every value is a string (JSON object keys always are), answer false
      otherwise, and raise when it does not parse or is not an object. */
  function Import(d: Dicts, name: string, data: string, parse: string -> Option<Value>): (r: Imported)
    ensures r.outcome == Return(true) <==>
      parse(data).Some? && IsStringMap(parse(data).value) && d.dictionaries.JObject?
    ensures r.outcome == Return(true) ==>
      r.store == d.(dictionaries := JObject(d.dictionaries.fields[name := parse(data).value]))
    ensures r.outcome == Return(false) <==>
      parse(data).Some? && parse(data).value.JObject? && !IsStringMap(parse(data).value)
    ensures r.outcome.DictionaryError? <==>
      parse(data).None? || !parse(data).value.JObject? || (IsStringMap(parse(data).value) && !d.dictionaries.JObject?)
    // nothing changes unless the import succeeds
    ensures r.outcome != Return(true) ==> r.store == d
  {
    match parse(data)
    case None => Imported(d, DictionaryError(ParseFailed))
    case Some(doc) =>
      if !doc.JObject? then Imported(d, DictionaryError(NoKeysMethod))
      else if !IsStringMap(doc) then Imported(d, Return(false))
      else if !d.dictionaries.JObject? then Imported(d, DictionaryError(NotSubscriptable))
      else Imported(d.(dictionaries := JObject(d.dictionaries.fields[name := doc])), Return(true))
  }

  /** The dictionary `export` serializes: the named one, or `{}` when the name is unknown. */
  function Selected(d: Dicts, name: string): Value
    requires d.dictionaries.JObject?
  {
    Get(d.dictionaries.fields, name, Empty)
  }

  /** `export(dict_name, destin_path)`: with an empty destination return the
      serialized dictionary; otherwise write it to the derived `.json` file
      and return None. The store itself is never changed. */
  function Export(d: Dicts, disk: Disk, name: string, destinPath: string, dumps: Value -> string): (w: Written<Option<string>>)
    ensures w.disk.failing == disk.failing
    ensures !d.dictionaries.JObject? ==> w == Written(disk, DictionaryError(NoGetMethod))
    ensures d.dictionaries.JObject? && destinPath == [] ==>
      w == Written(disk, Return(Some(dumps(if name in d.dictionaries.fields then d.dictionaries.fields[name] else Empty))))
    ensures d.dictionaries.JObject? && destinPath != [] ==>
      var path := Paths.ExportPath(destinPath);
      && (w.outcome.Return? <==> path !in disk.failing)
      && (w.outcome.Return? ==> w.outcome.value == None && w.disk.files == disk.files[path := Document(Selected(d, name))])
      && (w.outcome.DictionaryError? ==> w.disk == disk)
  {
    if !d.dictionaries.JObject? then Written(disk, DictionaryError(NoGetMethod))
    else
      var data := Selected(d, name);
      if destinPath == [] then Written(disk, Return(Some(dumps(data))))
      else
        var w := Write(disk, Paths.ExportPath(destinPath), data);
        Written(w.disk, if w.outcome.Return? then Return(None) else DictionaryError(w.outcome.cause))
  }
}
