/**
 * The decoding page's state machine: the hash gates in front of the
 * external split and decode steps, and the table of aligned
 * (id, source word, target word) rows the learner edits.
 *
 * The page is an immutable record; each handler is a pure function from the
 * page to the next page. The decoder's `split_text` and `decode_words`,
 * `utils.lonlen`, Python's `hash` and the width constant `SIZE_FACTOR` are
 * collaborators passed in as a `Collaborators` value; nothing is assumed of
 * them (in particular `hash` need not be injective). Counters record how
 * often the page called `split_text` and `decode_words`.
 */
module Decoding {
  import opened Basics

  /** The decoder fields the page reads and the collaborators rewrite. */
  datatype Decoder = Decoder(
    sourceText: string,
    sourceLanguage: string,
    targetLanguage: string,
    sourceWords: seq<string>,
    targetWords: seq<string>)

  /** One table row `{'id': i, 'source': s, 'target': t}`. */
  datatype Row = Row(id: int, source: string, target: string)

  /** The arguments of an `_upd_row` event: each key may be absent. An `id`
      that compares unequal to every row id (a string, say) is `None`; one
      that compares equal to an integer (`1.0`, `true`) is that integer. */
  datatype RowArgs = RowArgs(id: Option<int>, source: Option<string>, target: Option<string>)

  datatype Collaborators = Collaborators(
    hash: string -> int,
    splitText: Decoder -> Decoder,
    decodeWords: Decoder -> Option<Decoder>,   // None: `decode_words` raised
    lonlen: seq<string> -> int,
    sizeFactor: int)

  datatype Page = Page(
    decoder: Decoder,
    sHash: int,
    dHash: int,
    rows: seq<Row>,
    inputSize: int,
    splits: nat,     // calls of `split_text` so far
    decodes: nat)    // calls of `decode_words` so far

  /** A page after `_decode_words`: `raised` when `decode_words` raised and
      the exception left the handler before the table was reloaded. */
  datatype Decoded = Decoded(page: Page, raised: bool)

  /** The cap on the character count `_set_input_size` uses. */
  const MaxChars: int := 20

  /** `input_size` before the first `_set_input_size`. */
  const InitialInputSize: int := 100

  /** `Decoding.__init__`: both hashes start at 0 and the table is empty. */
  function Init(decoder: Decoder): (p: Page)
    ensures p.sHash == 0 && p.dHash == 0
    ensures p.rows == [] && p.inputSize == InitialInputSize
    ensures p.splits == 0 && p.decodes == 0
    ensures p.decoder == decoder
  {
    Page(decoder, 0, 0, [], InitialInputSize, 0, 0)
  }

  /** The rows `enumerate(zip(sources, targets))` yields from index `from` on. */
  function Enumerate(sources: seq<string>, targets: seq<string>, from: nat): (rows: seq<Row>)
    requires from <= Min(|sources|, |targets|)
    ensures |rows| == Min(|sources|, |targets|) - from
    ensures forall i :: 0 <= i < |rows| ==> rows[i] == Row(from + i, sources[from + i], targets[from + i])
    decreases Min(|sources|, |targets|) - from
  {
    if from == Min(|sources|, |targets|) then []
    else [Row(from, sources[from], targets[from])] + Enumerate(sources, targets, from + 1)
  }

  /** The table built from two word lists, truncated to the shorter one. */
  function Table(sources: seq<string>, targets: seq<string>): seq<Row> {
    Enumerate(sources, targets, 0)
  }

  /** `n` empty target words. */
  function Blank(n: nat): seq<string> {
    seq(n, _ => "")
  }

  /** The `source` column of the table, in row order. */
  function Sources(rows: seq<Row>): seq<string> {
    seq(|rows|, i requires 0 <= i < |rows| => rows[i].source)
  }

  /** The `target` column of the table, in row order. */
  function Targets(rows: seq<Row>): seq<string> {
    seq(|rows|, i requires 0 <= i < |rows| => rows[i].target)
  }

  /** `_set_input_size`: the longest-word measure of both lists, capped at
      `MaxChars`, times `SIZE_FACTOR`. Nothing else changes. */
  function SetInputSize(p: Page, c: Collaborators): (r: Page)
    ensures r == p.(inputSize := r.inputSize)
    ensures c.sizeFactor >= 0 ==> r.inputSize <= MaxChars * c.sizeFactor
    ensures var chars := c.lonlen(p.decoder.sourceWords + p.decoder.targetWords);
      r.inputSize == Min(chars, MaxChars) * c.sizeFactor
  {
    var chars := c.lonlen(p.decoder.sourceWords + p.decoder.targetWords);
    var capped := if chars > MaxChars then MaxChars else chars;
    assert c.sizeFactor >= 0 ==> capped * c.sizeFactor <= MaxChars * c.sizeFactor by {
      if c.sizeFactor >= 0 {
        MulMonotone(capped, MaxChars, c.sizeFactor);
      }
    }
    p.(inputSize := capped * c.sizeFactor)
  }

  lemma MulMonotone(a: int, b: int, k: int)
    requires a <= b && k >= 0
    ensures a * k <= b * k
  {
  }

  /** `_load_table`: row i is (i, source word i, target word i) for every i
      below the shorter list's length. Only the rows and the width change. */
  function LoadTable(p: Page, c: Collaborators): (r: Page)
    ensures r == SetInputSize(p, c).(rows := r.rows)
    ensures |r.rows| == Min(|p.decoder.sourceWords|, |p.decoder.targetWords|)
    ensures forall i :: 0 <= i < |r.rows| ==>
      r.rows[i] == Row(i, p.decoder.sourceWords[i], p.decoder.targetWords[i])
  {
    SetInputSize(p, c).(rows := Table(p.decoder.sourceWords, p.decoder.targetWords))
  }

  /** `_preload_table`: one row per source word, ids 0..n-1 in order, with an
      empty target, before any decoding result is shown. */
  function PreloadTable(p: Page, c: Collaborators): (r: Page)
    ensures r == SetInputSize(p, c).(rows := r.rows)
    ensures |r.rows| == |p.decoder.sourceWords|
    ensures forall i :: 0 <= i < |r.rows| ==> r.rows[i] == Row(i, p.decoder.sourceWords[i], "")
  {
    var n := |p.decoder.sourceWords|;
    SetInputSize(p, c).(rows := Table(p.decoder.sourceWords, Blank(n)))
  }

  /** `_update_words`: the word lists become the table's columns, in row
      order, so they have the table's length and each other's. */
  function UpdateWords(p: Page): (r: Page)
    ensures r == p.(decoder := r.decoder)
    ensures r.decoder == p.decoder.(sourceWords := r.decoder.sourceWords, targetWords := r.decoder.targetWords)
    ensures |r.decoder.sourceWords| == |r.decoder.targetWords| == |p.rows|
    ensures forall i :: 0 <= i < |p.rows| ==>
      r.decoder.sourceWords[i] == p.rows[i].source && r.decoder.targetWords[i] == p.rows[i].target
  {
    p.(decoder := p.decoder.(sourceWords := Sources(p.rows), targetWords := Targets(p.rows)))
  }

  /** `_save_words`: copy the table into the word lists, then rebuild the
      table from them; the ids are renumbered 0..n-1 and nothing is lost. */
  function SaveWords(p: Page, c: Collaborators): (r: Page)
    ensures r == p.(decoder := r.decoder, rows := r.rows, inputSize := r.inputSize)
    ensures r.decoder == p.decoder.(sourceWords := r.decoder.sourceWords, targetWords := r.decoder.targetWords)
    ensures |r.decoder.sourceWords| == |r.decoder.targetWords| == |r.rows| == |p.rows|
    ensures forall i :: 0 <= i < |p.rows| ==>
      r.rows[i] == Row(i, p.rows[i].source, p.rows[i].target)
    ensures r.decoder.sourceWords == Sources(r.rows) && r.decoder.targetWords == Targets(r.rows)
  {
    LoadTable(SetInputSize(UpdateWords(p), c), c)
  }

  /** `row.update(event.args)` on a row whose id matched: present keys overwrite. */
  function Merge(row: Row, args: RowArgs): Row {
    Row(row.id, args.source.GetOr(row.source), args.target.GetOr(row.target))
  }

  /** `_upd_row`: merge the event's arguments into every row whose id equals
      the event's id. Row count, ids and every other row stay as they were. */
  function UpdRow(p: Page, args: RowArgs): (r: Page)
    ensures r == p.(rows := r.rows)
    ensures |r.rows| == |p.rows|
    ensures forall i :: 0 <= i < |p.rows| ==> r.rows[i].id == p.rows[i].id
    ensures forall i :: 0 <= i < |p.rows| && args.id != Some(p.rows[i].id) ==> r.rows[i] == p.rows[i]
    ensures forall i :: 0 <= i < |p.rows| && args.id == Some(p.rows[i].id) ==>
      && (args.source.Some? ==> r.rows[i].source == args.source.value)
      && (args.source.None? ==> r.rows[i].source == p.rows[i].source)
      && (args.target.Some? ==> r.rows[i].target == args.target.value)
      && (args.target.None? ==> r.rows[i].target == p.rows[i].target)
  {
    p.(rows := seq(|p.rows|, i requires 0 <= i < |p.rows| =>
         if args.id == Some(p.rows[i].id) then Merge(p.rows[i], args) else p.rows[i]))
  }

  /** `_split_text`: call `split_text` exactly when the hash of the source
      text differs from the stored one, and remember that hash. */
  function SplitText(p: Page, c: Collaborators): (r: Page)
    ensures r.sHash == c.hash(p.decoder.sourceText)
    ensures r.splits == p.splits + (if c.hash(p.decoder.sourceText) != p.sHash then 1 else 0)
    ensures c.hash(p.decoder.sourceText) != p.sHash ==>
      r == p.(sHash := r.sHash, splits := r.splits, decoder := c.splitText(p.decoder))
    ensures c.hash(p.decoder.sourceText) == p.sHash ==> r == p
  {
    var h := c.hash(p.decoder.sourceText);
    if p.sHash != h then p.(sHash := h, decoder := c.splitText(p.decoder), splits := p.splits + 1)
    else p
  }

  /** The string `_decode_words` hashes: text, source and target language
      joined by single spaces. */
  function DecodeKey(d: Decoder): string {
    d.sourceText + " " + d.sourceLanguage + " " + d.targetLanguage
  }

  /** `_decode_words`: when the source text is non-empty and the key's hash
      differs from the stored one, store the hash first and then call
      `decode_words`; on every path that does not raise, reload the table. */
  function DecodeWords(p: Page, c: Collaborators): (r: Decoded)
    ensures var gate := p.decoder.sourceText != [] && c.hash(DecodeKey(p.decoder)) != p.dHash;
      && r.page.decodes == p.decodes + (if gate then 1 else 0)
      && r.page.dHash == (if gate then c.hash(DecodeKey(p.decoder)) else p.dHash)
      && (r.raised <==> gate && c.decodeWords(p.decoder).None?)
      && (!gate ==> r.page == LoadTable(p, c))
      && (gate && !r.raised ==>
            r.page == LoadTable(p.(dHash := r.page.dHash, decodes := r.page.decodes,
                                   decoder := c.decodeWords(p.decoder).value), c))
      && (r.raised ==> r.page == p.(dHash := r.page.dHash, decodes := r.page.decodes))
    ensures p.decoder.sourceText == [] ==> r == Decoded(LoadTable(p, c), false)
  {
    var h := c.hash(DecodeKey(p.decoder));
    if p.decoder.sourceText != [] && p.dHash != h then
      var q := p.(dHash := h, decodes := p.decodes + 1);
      match c.decodeWords(p.decoder)
      case None => Decoded(q, true)
      case Some(decoded) => Decoded(LoadTable(q.(decoder := decoded), c), false)
    else
      Decoded(LoadTable(p, c), false)
  }

  /** `_center`: split, show the source words with empty targets, decode. */
  function Center(p: Page, c: Collaborators): (r: Decoded)
    ensures r.page.splits <= p.splits + 1 && r.page.decodes <= p.decodes + 1
    ensures r.page.sHash == c.hash(p.decoder.sourceText)
  {
    DecodeWords(PreloadTable(SplitText(p, c), c), c)
  }
}
