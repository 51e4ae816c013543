/**
 * Properties that relate several calls of the dictionary store: the
 * save/load round trip, load-or-create, import/export round trips and the
 * declared field types.
 */
module DictionaryLaws {
  import opened Basics
  import opened Json
  import opened Dictionaries
  import Paths

  /** `save(u)` followed by `load(u)` from a store with the same folder
      restores exactly the two saved fields and does not touch the disk. */
  lemma SaveThenLoad(d: Dicts, other: Dicts, disk: Disk, uuid: string, defaults: map<string, string>)
    requires other.folder == d.folder
    requires Save(d, disk, uuid).outcome.Return?
    ensures var saved := Save(d, disk, uuid).disk;
      Load(other, saved, uuid, defaults) ==
        Loaded(other.(replacements := d.replacements, dictionaries := d.dictionaries), saved, Return(()))
  {
  }

  /** First use: when the user's file is missing and writable, `load` keeps
      the store and creates the file, and a second `load` takes the parse
      branch and ends in the same store and disk. */
  lemma LoadOrCreate(d: Dicts, disk: Disk, uuid: string, defaults: map<string, string>)
    requires DocumentPath(d, uuid) !in disk.files
    requires DocumentPath(d, uuid) !in disk.failing
    ensures var first := Load(d, disk, uuid, defaults);
      && first.outcome == Return(())
      && first.store == d
      && DocumentPath(d, uuid) in first.disk.files
      && Load(first.store, first.disk, uuid, defaults) == first
  {
  }

  /** Loading twice is loading once, whichever branch the first call took. */
  lemma LoadIsIdempotent(d: Dicts, disk: Disk, uuid: string, defaults: map<string, string>)
    requires Load(d, disk, uuid, defaults).outcome.Return?
    ensures var first := Load(d, disk, uuid, defaults);
      Load(first.store, first.disk, uuid, defaults) == first
  {
    if DocumentPath(d, uuid) !in disk.files {
      LoadOrCreate(d, disk, uuid, defaults);
    }
  }

  /** A document whose present fields have the declared types. */
  predicate TypedDocument(doc: Value) {
    && doc.JObject?
    && ("replacements" in doc.fields ==> IsStringMap(doc.fields["replacements"]))
    && ("dictionaries" in doc.fields ==>
          var ds := doc.fields["dictionaries"];
          ds.JObject? && forall name :: name in ds.fields ==> IsStringMap(ds.fields[name]))
  }

  /** `load` checks no shape: the store keeps its declared types when the
      document it reads has them (the defaults always do). */
  lemma LoadKeepsTyped(d: Dicts, disk: Disk, uuid: string, defaults: map<string, string>)
    requires Typed(d)
    requires DocumentPath(d, uuid) in disk.files ==>
      disk.files[DocumentPath(d, uuid)].Document? && TypedDocument(disk.files[DocumentPath(d, uuid)].value)
    ensures Typed(Load(d, disk, uuid, defaults).store)
  {
  }

  /** A document with a number as its replacement table loads without error
      and leaves the store with a field of the wrong type. */
  lemma LoadAcceptsUntypedField(d: Dicts, disk: Disk, uuid: string, defaults: map<string, string>)
    requires DocumentPath(d, uuid) in disk.files
    requires disk.files[DocumentPath(d, uuid)] == Document(JObject(map["replacements" := JNumber("1")]))
    ensures Load(d, disk, uuid, defaults).outcome == Return(())
    ensures !Typed(Load(d, disk, uuid, defaults).store)
  {
  }

  /** `import_` keeps the declared types, whatever its outcome. */
  lemma ImportKeepsTyped(d: Dicts, name: string, data: string, parse: string -> Option<Value>)
    requires Typed(d)
    ensures Typed(Import(d, name, data, parse).store)
  {
  }

  /** A successful import replaces the entry `name` and only it. */
  lemma ImportTouchesOnlyName(d: Dicts, name: string, other: string, data: string, parse: string -> Option<Value>)
    requires Import(d, name, data, parse).outcome == Return(true)
    requires other != name
    ensures var after := Import(d, name, data, parse).store.dictionaries.fields;
      && after[name] == parse(data).value
      && (other in after <==> other in d.dictionaries.fields)
      && (other in after ==> after[other] == d.dictionaries.fields[other])
  {
  }

  /** `import_("fix", '{"a": 1}')` answers false and changes nothing. */
  lemma ImportRejectsNumberValue(d: Dicts, data: string, parse: string -> Option<Value>)
    requires parse(data) == Some(JObject(map["a" := JNumber("1")]))
    ensures Import(d, "fix", data, parse) == Imported(d, Return(false))
  {
    assert !IsStringMap(parse(data).value) by {
      assert parse(data).value.fields["a"] == JNumber("1");
    }
  }

  /** After a successful import, exporting the same name returns the
      serialization of exactly the imported mapping. */
  lemma ImportThenExport(d: Dicts, disk: Disk, name: string, data: string,
                         parse: string -> Option<Value>, dumps: Value -> string)
    requires Import(d, name, data, parse).outcome == Return(true)
    ensures Export(Import(d, name, data, parse).store, disk, name, [], dumps) ==
      Written(disk, Return(Some(dumps(parse(data).value))))
  {
  }

  /** Exporting a known string-to-string dictionary as text and importing
      that text under the same name leaves the store as it was, provided
      parsing reads back what `dumps` wrote. */
  lemma ExportThenImport(d: Dicts, disk: Disk, name: string,
                         parse: string -> Option<Value>, dumps: Value -> string)
    requires Typed(d) && name in d.dictionaries.fields
    requires parse(dumps(d.dictionaries.fields[name])) == Some(d.dictionaries.fields[name])
    ensures var text := Export(d, disk, name, [], dumps).outcome.value.value;
      Import(d, name, text, parse) == Imported(d, Return(true))
  {
  }

  /** `export` to a file writes the selected dictionary to a `.json` file in
      the destination's directory, named after the destination's base name
      up to its first dot, and changes no other file. */
  lemma ExportToFile(d: Dicts, disk: Disk, name: string, destinPath: string, dumps: Value -> string)
    requires d.dictionaries.JObject? && destinPath != []
    requires Paths.ExportPath(destinPath) !in disk.failing
    ensures var w := Export(d, disk, name, destinPath, dumps);
      var path := Paths.ExportPath(destinPath);
        && w.outcome == Return(None)
        && Paths.Dirname(path) == Paths.Dirname(destinPath)
        && Paths.Basename(path) == Paths.Stem(Paths.Basename(destinPath)) + ".json"
        && w.disk.files == disk.files[path := Document(Selected(d, name))]
  {
    Paths.ExportPathParts(destinPath);
  }
}
