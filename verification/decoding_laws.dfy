/**
 * Properties relating several handlers of the decoding page: memoization
 * of split and decode, the table/word-list round trips, and the shape of the
 * hash key.
 */
module DecodingLaws {
  import opened Basics
  import opened Decoding

  /** The three inputs the decode gate hashes. */
  function Inputs(d: Decoder): (string, string, string) {
    (d.sourceText, d.sourceLanguage, d.targetLanguage)
  }

  /** The collaborators leave the source text and both languages alone. */
  ghost predicate KeepsInputs(c: Collaborators) {
    && (forall d :: Inputs(c.splitText(d)) == Inputs(d))
    && (forall d :: c.decodeWords(d).Some? ==> Inputs(c.decodeWords(d).value) == Inputs(d))
  }

  /** With the source text unchanged, a second `_split_text` does nothing:
      two consecutive calls split at most once. */
  lemma SplitTextIdempotent(p: Page, c: Collaborators)
    requires c.splitText(p.decoder).sourceText == p.decoder.sourceText
    ensures SplitText(SplitText(p, c), c) == SplitText(p, c)
    ensures SplitText(SplitText(p, c), c).splits <= p.splits + 1
  {
  }

  /** CPython hashes the empty string to 0, the initial `s_hash`: a fresh page
      with no text does not split it. */
  lemma FreshPageSkipsEmptySplit(d: Decoder, c: Collaborators)
    requires d.sourceText == [] && c.hash([]) == 0
    ensures SplitText(Init(d), c) == Init(d)
  {
  }

  /** Loading the table is idempotent: the rows depend only on the word lists. */
  lemma LoadTableIdempotent(p: Page, c: Collaborators)
    ensures LoadTable(LoadTable(p, c), c) == LoadTable(p, c)
  {
  }

  /** Reading back a freshly loaded table gives the word lists cut to the
      shorter length (`zip` truncation); when the lengths already agree this
      is the identity. */
  lemma LoadThenUpdate(p: Page, c: Collaborators)
    ensures var n := Min(|p.decoder.sourceWords|, |p.decoder.targetWords|);
      UpdateWords(LoadTable(p, c)).decoder ==
        p.decoder.(sourceWords := p.decoder.sourceWords[..n], targetWords := p.decoder.targetWords[..n])
    ensures |p.decoder.sourceWords| == |p.decoder.targetWords| ==>
      UpdateWords(LoadTable(p, c)).decoder == p.decoder
  {
  }

  /** Reading back the preloaded table keeps every source word and blanks
      every target word. */
  lemma PreloadThenUpdate(p: Page, c: Collaborators)
    ensures UpdateWords(PreloadTable(p, c)).decoder ==
      p.decoder.(targetWords := Blank(|p.decoder.sourceWords|))
  {
  }

  /** Saving twice is saving once. */
  lemma SaveWordsIdempotent(p: Page, c: Collaborators)
    ensures SaveWords(SaveWords(p, c), c) == SaveWords(p, c)
  {
  }

  /** Applying the same row event twice is applying it once. */
  lemma UpdRowIdempotent(p: Page, args: RowArgs)
    ensures UpdRow(UpdRow(p, args), args) == UpdRow(p, args)
  {
  }

  /** A row event changes the saved word lists only at the rows whose id
      matched; every other position keeps its words. */
  lemma UpdRowThenSave(p: Page, c: Collaborators, args: RowArgs, i: int)
    requires 0 <= i < |p.rows| && args.id != Some(p.rows[i].id)
    ensures SaveWords(UpdRow(p, args), c).decoder.sourceWords[i] == p.rows[i].source
    ensures SaveWords(UpdRow(p, args), c).decoder.targetWords[i] == p.rows[i].target
  {
  }

  /** Two consecutive `_decode_words` with the inputs unchanged call
      `decode_words` at most once, and the second call never raises. A
      decode that raised is not retried: its hash was stored beforehand. */
  lemma DecodeWordsOnce(p: Page, c: Collaborators)
    requires KeepsInputs(c)
    ensures var first := DecodeWords(p, c);
      var second := DecodeWords(first.page, c);
      && second.page.decodes == first.page.decodes <= p.decodes + 1
      && second.page.dHash == first.page.dHash
      && !second.raised
  {
  }

  /** Opening the page a second time with unchanged inputs calls neither
      `split_text` nor `decode_words` again. */
  lemma CenterTwice(p: Page, c: Collaborators)
    requires KeepsInputs(c)
    ensures var first := Center(p, c);
      var second := Center(first.page, c);
      && second.page.splits == first.page.splits
      && second.page.decodes == first.page.decodes
      && !second.raised
  {
  }

  /** A space-free string. */
  predicate NoSpace(s: string) {
    forall i :: 0 <= i < |s| ==> s[i] != ' '
  }

  /** Index `i` holds the last space of `k`. */
  predicate LastSpaceAt(k: string, i: int) {
    0 <= i < |k| && k[i] == ' ' && forall t :: i < t < |k| ==> k[t] != ' '
  }

  lemma LastSpaceUnique(k: string, i: int, j: int)
    requires LastSpaceAt(k, i) && LastSpaceAt(k, j)
    ensures i == j
  {
  }

  /** In `a + " " + b` with a space-free `b`, the added space is the last one. */
  lemma LastSpaceOfJoin(a: string, b: string)
    requires NoSpace(b)
    ensures LastSpaceAt(a + " " + b, |a|)
  {
    var k := a + " " + b;
    forall t | |a| < t < |k| ensures k[t] != ' ' {
      assert k[t] == b[t - |a| - 1];
    }
  }

  /** `a + " " + b` determines `a` and `b` when `b` has no space. */
  lemma {:induction false} SplitAtLastSpace(a: string, b: string, a': string, b': string)
    requires NoSpace(b) && NoSpace(b')
    requires a + " " + b == a' + " " + b'
    ensures a == a' && b == b'
  {
    var k := a + " " + b;
    LastSpaceOfJoin(a, b);
    LastSpaceOfJoin(a', b');
    LastSpaceUnique(k, |a|, |a'|);
    assert a == k[..|a|] == a';
    assert b == k[|a| + 1..] == b';
  }

  /** With space-free language codes the key string is injective, so only a
      collision of `hash` itself can skip a decode whose inputs changed. */
  lemma DecodeKeyInjective(d: Decoder, d': Decoder)
    requires NoSpace(d.sourceLanguage) && NoSpace(d.targetLanguage)
    requires NoSpace(d'.sourceLanguage) && NoSpace(d'.targetLanguage)
    requires DecodeKey(d) == DecodeKey(d')
    ensures Inputs(d) == Inputs(d')
  {
    SplitAtLastSpace(d.sourceText + " " + d.sourceLanguage, d.targetLanguage,
                     d'.sourceText + " " + d'.sourceLanguage, d'.targetLanguage);
    SplitAtLastSpace(d.sourceText, d.sourceLanguage, d'.sourceText, d'.sourceLanguage);
  }

  /** Without that restriction the key is ambiguous: two different input
      triples give the same string, hence the same hash. */
  lemma DecodeKeyAmbiguous(d: Decoder, d': Decoder)
    requires Inputs(d) == ("a b", "c", "d") && Inputs(d') == ("a", "b c", "d")
    ensures DecodeKey(d) == DecodeKey(d') && Inputs(d) != Inputs(d')
  {
  }
}
