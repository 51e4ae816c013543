# Language decoder: correction-dictionary store and decoding page

This project models, in Dafny, two pieces of logic in the language-decoder application. The application helps a learner build word-aligned bilingual texts.

1. **The correction-dictionary store** (`Dicts`). It keeps a replacement table and a map of named
   string-to-string correction dictionaries for one user. It persists them as one JSON document at
   `<folder>/<uuid>.json` and offers `load` (load-or-create), `save` (whole-document overwrite),
   `import_` (all-or-nothing install of one dictionary from JSON text) and `export` (one dictionary as a
   string, or written to a `.json` file derived from a destination path).
2. **The decoding page**. Its hash gates keep `split_text` and `decode_words` from running again on
   unchanged input. It also holds the table of aligned rows `(id, source word, target word)` that the
   learner edits: building the table from the word lists, reading it back, updating one row, and the
   clamped input width.

Both are written as immutable records with pure transition functions:

- `Dictionaries.Dicts` holds the store. The disk is `Dictionaries.Disk`, a map from path to a parsed
  JSON document (or unreadable content) together with the set of paths whose writes fail.
- Every store operation returns the new store and/or disk and an `Outcome`. The outcome is either
  `Return(value)` or `DictionaryError(cause)`.
- `Decoding.Page` holds the page: both hashes, the rows, the width, the decoder's text, languages and
  word lists, and counters of the calls to `split_text` and `decode_words`.

External code whose bodies are not part of this model appears as parameters:

- Python's `json.loads` and `json.dumps` on text (`parse`, `dumps`).
- The configured default replacement table (`defaults`).
- Python's `hash`, which is not assumed injective.
- `decoder.split_text` and `decoder.decode_words`. The latter may raise.
- `utils.lonlen` and `SIZE_FACTOR`.

Files: `basics.dfy` (Option, Min), `json.dfy` (JSON values), `paths.dfy` (POSIX `os.path.join`,
`basename`, `dirname`, and `split('.')[0]`), `dictionaries.dfy` and `dictionary_laws.dfy` (the store),
`decoding.dfy` and `decoding_laws.dfy` (the page).

Behaviour of the code that a reader might not expect, and that the model keeps:

- `_decode_words` stores the new decode hash *before* calling `decode_words`, not after the decode
  completes. So a decode that raised is not retried while the text and languages stay the same
  (`DecodingLaws.DecodeWordsOnce`).
- `import_` on text that parses to something other than a JSON object (a list, a string, a number)
  raises `DictionaryError`, because `.keys` is missing. It does not report `False`. Only an object with
  a non-string value gives `False`. JSON object keys are always strings, so the key check in the code
  never fails.
- `load` does not validate the shape of the two fields: it takes whatever the document holds
  (`DictionaryLaws.LoadAcceptsUntypedField`). If `dictionaries` then holds something that is not an
  object, a later `export` raises `DictionaryError`, and so does a later `import_` of text that parses
  to a string-to-string object; an import that answers `False` or raises for its own text is unaffected.
- The page does not keep `source_words` and `target_words` of equal length at all times. `_load_table`
  truncates to the shorter list, as `zip` does. Only `_update_words` and `_save_words` make them equal.

## Model

| member | source | states |
|---|---|---|
| Dictionaries.Init | backend/dicts/dictonaries.py:12-20 | a new store has the configured replacement table, no dictionaries, and both fields of their declared types |
| Dictionaries.Save | backend/dicts/dictonaries.py:42-56 | save overwrites the user's document with exactly the two fields and changes no other file; on a write failure it raises and the disk is unchanged |
| Dictionaries.Load | backend/dicts/dictonaries.py:22-40 | an existing document is only read; each field comes from it or is defaulted on its own (replacements to the defaults, dictionaries to `{}`); an unreadable or non-object document raises with the store unchanged; a missing file is created by `save` with the store unchanged |
| Dictionaries.Import | backend/dicts/dictonaries.py:58-70 | import answers true exactly when the text parses to an object of string values (and `dictionaries` is an object), and then installs it under the name; it answers false exactly for an object with a non-string value; it raises for unparseable or non-object text; on every outcome but true the store is unchanged |
| Dictionaries.Export | backend/dicts/dictonaries.py:72-86 | with an empty destination, export returns the serialization of the named dictionary, or of `{}` for an unknown name, and leaves the disk alone; otherwise it writes that dictionary to the derived `.json` path, returns None, and changes no other file; the store is never changed |
| DictionaryLaws.SaveThenLoad | backend/dicts/dictonaries.py:26-32 | `load(u)` after a successful `save(u)` restores exactly the saved replacements and dictionaries into any store with the same folder (load and save use the same path) |
| DictionaryLaws.LoadOrCreate | backend/dicts/dictonaries.py:26-40 | on first use `load` keeps the store and creates the file; a second `load` takes the parse branch and ends in the same store and disk |
| DictionaryLaws.LoadIsIdempotent | backend/dicts/dictonaries.py:22-40 | after a successful `load`, loading again changes neither the store nor the disk |
| DictionaryLaws.LoadKeepsTyped | backend/dicts/dictonaries.py:30-32 | `load` keeps the declared field types when every field the document holds has its declared type |
| DictionaryLaws.LoadAcceptsUntypedField | backend/dicts/dictonaries.py:30-32 | a document whose replacement table is a number loads without error and leaves a field of the wrong type |
| DictionaryLaws.ImportKeepsTyped | backend/dicts/dictonaries.py:60-65 | import never breaks the declared field types, whatever its outcome |
| DictionaryLaws.ImportTouchesOnlyName | backend/dicts/dictonaries.py:63 | a successful import sets the named entry to the parsed mapping and leaves every other name's presence and value unchanged |
| DictionaryLaws.ImportRejectsNumberValue | backend/dicts/dictonaries.py:60-65 | importing `{"a": 1}` under "fix" answers false and leaves the store unchanged |
| DictionaryLaws.ImportThenExport | backend/dicts/dictonaries.py:63-82 | after a successful import, exporting that name to a string returns the serialization of exactly the imported mapping |
| DictionaryLaws.ExportThenImport | backend/dicts/dictonaries.py:60-75 | exporting a known dictionary as text and importing the text under the same name succeeds and leaves the store as it was, provided parsing reads back what `dumps` wrote |
| DictionaryLaws.ExportToFile | backend/dicts/dictonaries.py:76-81 | exporting to a writable destination returns None and writes the selected dictionary to a file in the destination's directory, named after its base name up to the first dot plus `.json` |
| Paths.BasenameIsSuffix | backend/dicts/dictonaries.py:77 | `os.path.basename` is the suffix of the path after its last separator |
| Paths.Stem | backend/dicts/dictonaries.py:77 | `split('.')[0]` is the longest dot-free prefix of the base name |
| Paths.ExportPathParts | backend/dicts/dictonaries.py:77-78 | the derived export path has the destination's directory and the base name `<stem>.json` |
| Paths.ExportPathExample | backend/dicts/dictonaries.py:77-78 | the destination `out/report.final.txt` yields the file `out/report.json` |
| Decoding.Init | frontend/pages/decoding.py:12-18 | a new page has both hashes 0, no rows, width 100, no split or decode calls yet, and the given decoder |
| Decoding.Enumerate | frontend/pages/decoding.py:79-80 | the enumerated zip has the shorter list's length and row i is (i, source word i, target word i) |
| Decoding.SetInputSize | frontend/pages/decoding.py:103-106 | the width is the word measure capped at 20, times SIZE_FACTOR, so it never exceeds 20 * SIZE_FACTOR for a non-negative factor; nothing else changes |
| Decoding.LoadTable | frontend/pages/decoding.py:75-81 | the table has one row per index below the shorter list's length, row i = (i, source_words[i], target_words[i]); only rows and width change |
| Decoding.PreloadTable | frontend/pages/decoding.py:95-101 | the table has exactly one row per source word, ids 0..n-1 in order, source copied, target empty |
| Decoding.UpdateWords | frontend/pages/decoding.py:83-87 | the word lists become the rows' source and target columns in row order, so both have the table's length |
| Decoding.SaveWords | frontend/pages/decoding.py:89-93 | after saving, words and rows have the old row count, row i is renumbered i and keeps its source and target, and the words are the new table's columns; only the word lists, the rows and the width change, so text, languages, both hashes and both counters are kept |
| Decoding.UpdRow | frontend/pages/decoding.py:70-73 | the row count, all ids and every row whose id differs from the event's are unchanged; matching rows take each present source/target argument and keep the rest |
| Decoding.SplitText | frontend/pages/decoding.py:108-112 | `split_text` is called exactly when the text's hash differs from `s_hash`; afterwards `s_hash` is that hash; otherwise the page is unchanged |
| Decoding.DecodeWords | frontend/pages/decoding.py:114-131 | `decode_words` is called exactly when the text is non-empty and the key's hash differs from `d_hash`, and `d_hash` is set even when it raises; empty text never decodes and keeps `d_hash`; every path that does not raise ends by reloading the table |
| Decoding.Center | frontend/pages/decoding.py:167-173 | opening the page splits and decodes at most once each and leaves `s_hash` at the text's hash |
| DecodingLaws.SplitTextIdempotent | frontend/pages/decoding.py:108-112 | with the text unchanged by `split_text`, a second call does nothing, so two calls split at most once |
| DecodingLaws.FreshPageSkipsEmptySplit | frontend/pages/decoding.py:17-18 | with the initial hash 0 and an empty text whose hash is 0 (as in CPython), the first split is skipped |
| DecodingLaws.LoadTableIdempotent | frontend/pages/decoding.py:75-81 | reloading the table changes nothing |
| DecodingLaws.LoadThenUpdate | frontend/pages/decoding.py:79-87 | reading back a freshly loaded table gives both lists cut to the shorter length; when the lengths were equal it is the identity |
| DecodingLaws.PreloadThenUpdate | frontend/pages/decoding.py:95-101 | reading back the preloaded table keeps the source words and blanks every target word |
| DecodingLaws.SaveWordsIdempotent | frontend/pages/decoding.py:89-93 | saving twice is saving once |
| DecodingLaws.UpdRowIdempotent | frontend/pages/decoding.py:70-73 | applying the same row event twice is applying it once |
| DecodingLaws.UpdRowThenSave | frontend/pages/decoding.py:70-73 | after a row event and a save, every position whose id did not match keeps its source and target words |
| DecodingLaws.DecodeWordsOnce | frontend/pages/decoding.py:114-131 | two consecutive decode calls with unchanged inputs call `decode_words` at most once; the second never raises, so a failed decode is not retried |
| DecodingLaws.CenterTwice | frontend/pages/decoding.py:167-173 | opening the page again with unchanged inputs calls neither `split_text` nor `decode_words` |
| DecodingLaws.DecodeKeyInjective | frontend/pages/decoding.py:115 | with space-free language codes, equal key strings mean equal (text, source language, target language) triples |
| DecodingLaws.DecodeKeyAmbiguous | frontend/pages/decoding.py:115 | when a language may contain a space, two different triples give the same key string |

## Left out

- PDF creation, route registration and cleanup, navigation, header, footer, dialogs and table
  rendering (`_create_dpf`, `_pdf_dialog`, `_open_*`, `_header`, `_footer`, `_dialog`, `_table`): UI
  and a foreign PDF library, with no logic of the store or the gates.
- The progress notification and the `asyncio.to_thread` dispatch of the decode: the decode is one
  abstract call, and concurrent re-entry is not modelled.
- The bodies of `decoder.split_text`, `decoder.decode_words` and `utils.lonlen`: the backend decoder
  and utilities are not part of this model. They are arbitrary functions. `split_text` is taken to
  never raise.
- Segmentation, the correction overlay that applies dictionaries to decoded words, the replacement of
  characters before splitting, and the session export: they live in the backend decoder, which is not
  part of this model.
- JSON text formatting (`indent`, `ensure_ascii`) and parsing details: the disk holds parsed
  documents, and text-level parsing and serialization are the `parse` and `dumps` parameters.
- Logging, the `print` in `import_`, and `os.makedirs` in `save`.
- I/O failures other than a write that fails before anything is written: a partially written file
  and read failures that are not parse failures are not distinguished (an unreadable file is
  `Unreadable`).
- Python dict insertion order: maps are unordered.
- The module-relative folder computed from `__file__` is a parameter of `Init`.
- The sharing of the global `REPLACEMENTS` object between stores: the model works with its value.
- Decoding.UpdRow: `row.update` also copies event keys other than `source` and `target` into the row.
  The model drops them, since nothing reads them. It also treats a present `source` or `target` whose
  value is not a string (`null`, a number) as absent and keeps the old word, whereas the code copies
  that value into the row and `_update_words` hands it on; rows and word lists hold strings only. An
  event `id` that compares unequal to every row id (a string, say) never matches; one that compares
  equal to an integer (`1.0`, `true`) is modelled as that integer.
- Decoding.DecodeWords: a `decode_words` that raises is taken to leave the decoder as it was. The code
  cannot promise this: the collaborator may have rewritten part of the word lists before raising.
- Decoding.Center: its own contract gives only the per-call bounds. What is saved across two visits
  is stated by `DecodingLaws.CenterTwice`.
