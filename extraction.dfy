/**
 * `extract_gene_disease_mentions` (both copies of `extract_genes.py`): the
 * reconciliation of gene NER entities against the HGNC vocabulary, followed by
 * the optional dictionary fallback pass. The two NLP models and the Open Targets
 * lookup are inputs: the gene model's sentences with their entities, the disease
 * model's entities with their sentence text, and a function from symbol to the
 * lower-cased disease names known for it.
 */
module Extraction {
  import opened Wrappers
  import opened Text
  import opened Matching

  /** An entity of the gene model: its text and label. */
  datatype GeneEntity = GeneEntity(text: string, kind: string)

  /** A sentence of the gene model's segmentation, with its entities in order. */
  datatype GeneSentence = GeneSentence(text: string, ents: seq<GeneEntity>)

  /** An entity of the disease model: its text, label and the text of its sentence. */
  datatype DiseaseEntity = DiseaseEntity(text: string, kind: string, sentence: string)

  /** The `source` field: which pass produced the record. */
  datatype Source = Ner | Fallback

  /** The `source_section` field. */
  datatype Section = Table | Body

  /** One result record. */
  datatype Mention = Mention(
    symbol: string,
    originalMention: string,
    sentence: string,
    diseases: seq<string>,
    source: Source,
    section: Section)

  /** The return value: the records, or the pair (records, skipped tokens) when `return_skipped` is set. */
  datatype ExtractOutput =
    | Mentions(results: seq<Mention>)
    | MentionsAndSkipped(results: seq<Mention>, skipped: seq<string>)

  /** The entity labels the gene model uses for gene products. */
  const GeneLabels: set<string> := {"DNA", "RNA", "PROTEIN"}

  /** `"table" if "table" in sentence.lower() else "body"` */
  function SectionOf(sentence: string): Section {
    if Contains(Lower(sentence), "table") then Table else Body
  }

  predicate Distinct(xs: seq<string>) {
    forall i, j :: 0 <= i < j < |xs| ==> xs[i] != xs[j]
  }

  function SymbolsOf(rs: seq<Mention>): set<string> {
    set r | r in rs :: r.symbol
  }

  predicate DistinctSymbols(rs: seq<Mention>) {
    forall i, j :: 0 <= i < j < |rs| ==> rs[i].symbol != rs[j].symbol
  }

  // ---------------------------------------------------------------------------
  // Disease pass
  // ---------------------------------------------------------------------------

  /** A DISEASE entity whose stripped sentence text is `sentence`. */
  predicate ListedUnder(e: DiseaseEntity, sentence: string) {
    e.kind == "DISEASE" && Strip(e.sentence) == sentence
  }

  /** The texts of the DISEASE entities whose stripped sentence is exactly `sentence`, in order. */
  function DiseasesIn(ents: seq<DiseaseEntity>, sentence: string): seq<string>
    decreases |ents|
  {
    if ents == [] then []
    else
      var e := ents[|ents| - 1];
      var init := DiseasesIn(ents[..|ents| - 1], sentence);
      if ListedUnder(e, sentence) then init + [e.text] else init
  }

  /** Every DISEASE entity text, lower-cased (`disease_mentions`). */
  function DiseaseMentions(ents: seq<DiseaseEntity>): set<string> {
    set e | e in ents && e.kind == "DISEASE" :: Lower(e.text)
  }

  /** `disease_by_sent.get(sentence, [])` */
  function SentenceDiseases(bySentence: map<string, seq<string>>, sentence: string): seq<string> {
    if sentence in bySentence then bySentence[sentence] else []
  }

  /** Grouping one more entity appends its text when it is listed under the sentence. */
  lemma DiseasesInSnoc(ents: seq<DiseaseEntity>, e: DiseaseEntity, sentence: string)
    ensures DiseasesIn(ents + [e], sentence) ==
            DiseasesIn(ents, sentence) + (if ListedUnder(e, sentence) then [e.text] else [])
  {
    assert (ents + [e])[..|ents|] == ents;
  }

  lemma DiseaseMentionsSnoc(ents: seq<DiseaseEntity>, e: DiseaseEntity)
    ensures DiseaseMentions(ents + [e]) == DiseaseMentions(ents) + (if e.kind == "DISEASE" then {Lower(e.text)} else {})
  {
    var all := ents + [e];
    forall x | x in DiseaseMentions(all)
      ensures x in DiseaseMentions(ents) + (if e.kind == "DISEASE" then {Lower(e.text)} else {})
    {
      var w :| w in all && w.kind == "DISEASE" && Lower(w.text) == x;
      if w != e {
        assert w in ents;
      }
    }
  }

  /**
   * The disease loop: groups DISEASE texts under their stripped sentence and
   * collects the lower-cased set of all of them.
   */
  method GroupDiseases(ents: seq<DiseaseEntity>) returns (bySentence: map<string, seq<string>>, mentions: set<string>)
    ensures forall k :: SentenceDiseases(bySentence, k) == DiseasesIn(ents, k)
    ensures mentions == DiseaseMentions(ents)
  {
    bySentence, mentions := map[], {};
    for i := 0 to |ents|
      invariant forall k :: SentenceDiseases(bySentence, k) == DiseasesIn(ents[..i], k)
      invariant mentions == DiseaseMentions(ents[..i])
    {
      var ent := ents[i];
      ghost var prev := bySentence;
      assert ents[..i + 1] == ents[..i] + [ent];
      if ent.kind == "DISEASE" {
        var sentence := Strip(ent.sentence);
        bySentence := bySentence[sentence := SentenceDiseases(bySentence, sentence) + [ent.text]];
        mentions := mentions + {Lower(ent.text)};
      }
      forall k
        ensures SentenceDiseases(bySentence, k) == DiseasesIn(ents[..i + 1], k)
      {
        DiseasesInSnoc(ents[..i], ent, k);
        assert SentenceDiseases(prev, k) == DiseasesIn(ents[..i], k);
      }
      DiseaseMentionsSnoc(ents[..i], ent);
    }
    assert ents[..|ents|] == ents;
  }

  /** Every text in the grouping comes from a DISEASE entity of that sentence. */
  lemma {:induction false} DiseasesInSound(ents: seq<DiseaseEntity>, sentence: string, d: string)
    returns (e: DiseaseEntity)
    requires d in DiseasesIn(ents, sentence)
    ensures e in ents && ListedUnder(e, sentence) && e.text == d
    decreases |ents|
  {
    var init := ents[..|ents| - 1];
    var last := ents[|ents| - 1];
    DiseasesInSnoc(init, last, sentence);
    assert ents == init + [last];
    if d in DiseasesIn(init, sentence) {
      e := DiseasesInSound(init, sentence, d);
    } else {
      e := last;
    }
  }

  /** Every DISEASE entity of that sentence has its text in the grouping. */
  lemma {:induction false} DiseasesInComplete(ents: seq<DiseaseEntity>, sentence: string, e: DiseaseEntity)
    requires e in ents && ListedUnder(e, sentence)
    ensures e.text in DiseasesIn(ents, sentence)
    decreases |ents|
  {
    var init := ents[..|ents| - 1];
    var last := ents[|ents| - 1];
    DiseasesInSnoc(init, last, sentence);
    assert ents == init + [last];
    if e != last {
      DiseasesInComplete(init, sentence, e);
    }
  }

  /** The grouping has exactly the DISEASE texts of that sentence, and none when no entity lies in it. */
  lemma DiseasesInMembers(ents: seq<DiseaseEntity>, sentence: string, d: string)
    ensures d in DiseasesIn(ents, sentence) <==> exists e :: e in ents && ListedUnder(e, sentence) && e.text == d
  {
    if d in DiseasesIn(ents, sentence) {
      var e := DiseasesInSound(ents, sentence, d);
    }
    if e :| e in ents && ListedUnder(e, sentence) && e.text == d {
      DiseasesInComplete(ents, sentence, e);
    }
  }

  // ---------------------------------------------------------------------------
  // Gene NER pass
  // ---------------------------------------------------------------------------

  /** `[ent.text.upper() for ent in sent.ents if ent.kind_ in {"DNA", "RNA", "PROTEIN"}]` */
  function GeneMentions(ents: seq<GeneEntity>): seq<string>
    decreases |ents|
  {
    if ents == [] then []
    else
      var e := ents[|ents| - 1];
      GeneMentions(ents[..|ents| - 1]) + (if e.kind in GeneLabels then [Upper(e.text)] else [])
  }

  /** A gene token to resolve, with the stripped text of its sentence. */
  datatype Candidate = Candidate(sentence: string, gene: string)

  function Tag(sentence: string, genes: seq<string>): seq<Candidate> {
    seq(|genes|, i requires 0 <= i < |genes| => Candidate(sentence, genes[i]))
  }

  /** Every gene token of the text, sentence by sentence, in order. */
  function Candidates(sents: seq<GeneSentence>): seq<Candidate>
    decreases |sents|
  {
    if sents == [] then []
    else
      var s := sents[|sents| - 1];
      Candidates(sents[..|sents| - 1]) + Tag(Strip(s.text), GeneMentions(s.ents))
  }

  /** Exact symbol first, then the alias map; `None` sends the token to the skipped list. */
  function Resolve(symbols: set<string>, aliases: map<string, string>, gene: string): (r: Option<string>)
    ensures r.Some? <==> gene in symbols || gene in aliases
    ensures gene in symbols ==> r == Some(gene)
    ensures r.Some? && (forall a :: a in aliases ==> aliases[a] in symbols) ==> r.value in symbols
  {
    if gene in symbols then Some(gene)
    else if gene in aliases then Some(aliases[gene])
    else None
  }

  /** The record the NER pass emits for a candidate resolved to `symbol`. */
  function NerMention(symbol: string, c: Candidate, ents: seq<DiseaseEntity>): Mention {
    Mention(symbol, c.gene, c.sentence, DiseasesIn(ents, c.sentence), Ner, SectionOf(c.sentence))
  }

  /** `results`, `skipped_genes` and `seen_mentions` during the NER pass. */
  datatype NerState = NerState(results: seq<Mention>, skipped: seq<string>, seen: set<string>)

  /** One iteration of the inner NER loop. */
  function NerStep(symbols: set<string>, aliases: map<string, string>, ents: seq<DiseaseEntity>,
                   st: NerState, c: Candidate): NerState
  {
    match Resolve(symbols, aliases, c.gene)
    case None => st.(skipped := st.skipped + [c.gene])
    case Some(n) =>
      if n in st.seen then st
      else NerState(st.results + [NerMention(n, c, ents)], st.skipped, st.seen + {n})
  }

  /** The NER pass over a sequence of candidates. */
  function NerRun(symbols: set<string>, aliases: map<string, string>, ents: seq<DiseaseEntity>,
                  cands: seq<Candidate>): (r: NerState)
    ensures |r.results| + |r.skipped| <= |cands|
    decreases |cands|
  {
    if cands == [] then NerState([], [], {})
    else NerStep(symbols, aliases, ents, NerRun(symbols, aliases, ents, cands[..|cands| - 1]), cands[|cands| - 1])
  }

  lemma NerRunSnoc(symbols: set<string>, aliases: map<string, string>, ents: seq<DiseaseEntity>,
                   cands: seq<Candidate>, c: Candidate)
    ensures NerRun(symbols, aliases, ents, cands + [c]) ==
            NerStep(symbols, aliases, ents, NerRun(symbols, aliases, ents, cands), c)
  {
    assert (cands + [c])[..|cands|] == cands;
  }

  lemma TagSnoc(sentence: string, genes: seq<string>, j: nat)
    requires j < |genes|
    ensures Tag(sentence, genes[..j + 1]) == Tag(sentence, genes[..j]) + [Candidate(sentence, genes[j])]
  {
  }

  lemma CandidatesSnoc(sents: seq<GeneSentence>, i: nat)
    requires i < |sents|
    ensures Candidates(sents[..i + 1]) ==
            Candidates(sents[..i]) + Tag(Strip(sents[i].text), GeneMentions(sents[i].ents))
  {
    assert sents[..i + 1][..i] == sents[..i];
  }

  /** The body of the inner NER loop for one gene token. */
  method NerVisit(symbols: set<string>, aliases: map<string, string>, bySentence: map<string, seq<string>>,
                  ghost ents: seq<DiseaseEntity>, st: NerState, sentenceText: string, gene: string)
    returns (next: NerState)
    requires forall k :: SentenceDiseases(bySentence, k) == DiseasesIn(ents, k)
    ensures next == NerStep(symbols, aliases, ents, st, Candidate(sentenceText, gene))
  {
    var normalized: string;
    if gene in symbols {
      normalized := gene;
    } else if gene in aliases {
      normalized := aliases[gene];
    } else {
      return st.(skipped := st.skipped + [gene]);
    }
    if normalized in st.seen {
      return st;
    }
    var diseases := SentenceDiseases(bySentence, sentenceText);
    assert diseases == DiseasesIn(ents, sentenceText);
    next := NerState(st.results + [Mention(normalized, gene, sentenceText, diseases, Ner, SectionOf(sentenceText))],
                     st.skipped, st.seen + {normalized});
  }

  /** The inner NER loop over the gene tokens of one sentence. */
  method NerSentence(symbols: set<string>, aliases: map<string, string>, bySentence: map<string, seq<string>>,
                     ghost ents: seq<DiseaseEntity>, ghost before: seq<Candidate>, st0: NerState,
                     sentenceText: string, geneMentions: seq<string>)
    returns (st: NerState)
    requires forall k :: SentenceDiseases(bySentence, k) == DiseasesIn(ents, k)
    requires st0 == NerRun(symbols, aliases, ents, before)
    ensures st == NerRun(symbols, aliases, ents, before + Tag(sentenceText, geneMentions))
  {
    st := st0;
    assert before + Tag(sentenceText, geneMentions[..0]) == before;
    for j := 0 to |geneMentions|
      invariant st == NerRun(symbols, aliases, ents, before + Tag(sentenceText, geneMentions[..j]))
    {
      ghost var sofar := before + Tag(sentenceText, geneMentions[..j]);
      TagSnoc(sentenceText, geneMentions, j);
      assert before + Tag(sentenceText, geneMentions[..j + 1]) == sofar + [Candidate(sentenceText, geneMentions[j])];
      NerRunSnoc(symbols, aliases, ents, sofar, Candidate(sentenceText, geneMentions[j]));
      st := NerVisit(symbols, aliases, bySentence, ents, st, sentenceText, geneMentions[j]);
    }
    assert geneMentions[..|geneMentions|] == geneMentions;
  }

  /**
   * The gene NER loops. `bySentence` is the grouping the disease loop built from
   * `ents`.
   */
  method NerPass(symbols: set<string>, aliases: map<string, string>, sents: seq<GeneSentence>,
                 bySentence: map<string, seq<string>>, ghost ents: seq<DiseaseEntity>)
    returns (st: NerState)
    requires forall k :: SentenceDiseases(bySentence, k) == DiseasesIn(ents, k)
    ensures st == NerRun(symbols, aliases, ents, Candidates(sents))
  {
    st := NerState([], [], {});
    assert sents[..0] == [];
    for i := 0 to |sents|
      invariant st == NerRun(symbols, aliases, ents, Candidates(sents[..i]))
    {
      st := NerSentence(symbols, aliases, bySentence, ents, Candidates(sents[..i]), st,
                        Strip(sents[i].text), GeneMentions(sents[i].ents));
      CandidatesSnoc(sents, i);
    }
    assert sents[..|sents|] == sents;
  }

  /** The NER pass keeps `seen_mentions` equal to the set of emitted symbols, and emits each symbol once. */
  lemma {:induction false} NerDeduplicates(symbols: set<string>, aliases: map<string, string>,
                                           ents: seq<DiseaseEntity>, cands: seq<Candidate>)
    ensures NerRun(symbols, aliases, ents, cands).seen == SymbolsOf(NerRun(symbols, aliases, ents, cands).results)
    ensures DistinctSymbols(NerRun(symbols, aliases, ents, cands).results)
    ensures forall r :: r in NerRun(symbols, aliases, ents, cands).results ==> r.source == Ner
    decreases |cands|
  {
    if cands != [] {
      var st := NerRun(symbols, aliases, ents, cands[..|cands| - 1]);
      NerDeduplicates(symbols, aliases, ents, cands[..|cands| - 1]);
      var c := cands[|cands| - 1];
      match Resolve(symbols, aliases, c.gene)
      case None =>
      case Some(n) =>
        if n !in st.seen {
          var m := NerMention(n, c, ents);
          assert SymbolsOf(st.results + [m]) == SymbolsOf(st.results) + {n};
        }
    }
  }

  /** With every alias naming a vocabulary symbol, every NER record's symbol is in the vocabulary. */
  lemma {:induction false} NerSymbolsKnown(symbols: set<string>, aliases: map<string, string>,
                                           ents: seq<DiseaseEntity>, cands: seq<Candidate>)
    requires forall a :: a in aliases ==> aliases[a] in symbols
    ensures forall r :: r in NerRun(symbols, aliases, ents, cands).results ==> r.symbol in symbols
    decreases |cands|
  {
    if cands != [] {
      NerSymbolsKnown(symbols, aliases, ents, cands[..|cands| - 1]);
    }
  }

  /** The tokens the vocabulary cannot resolve, in order, duplicates kept. */
  function Unresolved(symbols: set<string>, aliases: map<string, string>, cands: seq<Candidate>): seq<string>
    decreases |cands|
  {
    if cands == [] then []
    else
      var c := cands[|cands| - 1];
      Unresolved(symbols, aliases, cands[..|cands| - 1]) +
      (if c.gene !in symbols && c.gene !in aliases then [c.gene] else [])
  }

  /** `skipped_genes` is exactly the unresolvable tokens, in order, duplicates kept. */
  lemma {:induction false} NerSkipsUnresolved(symbols: set<string>, aliases: map<string, string>,
                                              ents: seq<DiseaseEntity>, cands: seq<Candidate>)
    ensures NerRun(symbols, aliases, ents, cands).skipped == Unresolved(symbols, aliases, cands)
    decreases |cands|
  {
    if cands != [] {
      NerSkipsUnresolved(symbols, aliases, ents, cands[..|cands| - 1]);
    }
  }

  /** Every token that resolves has its symbol in `seen_mentions` afterwards. */
  lemma {:induction false} NerComplete(symbols: set<string>, aliases: map<string, string>,
                                       ents: seq<DiseaseEntity>, cands: seq<Candidate>, j: nat)
    requires j < |cands| && Resolve(symbols, aliases, cands[j].gene).Some?
    ensures Resolve(symbols, aliases, cands[j].gene).value in NerRun(symbols, aliases, ents, cands).seen
    decreases |cands|
  {
    if j < |cands| - 1 {
      NerComplete(symbols, aliases, ents, cands[..|cands| - 1], j);
    }
  }

  /**
   * Each NER record comes from the first token that resolves to its symbol: it
   * carries that token upper-cased, its stripped sentence, the DISEASE texts of
   * exactly that sentence, `source` "ner" and the "table" rule of that sentence.
   */
  lemma {:induction false} NerRecordOrigin(symbols: set<string>, aliases: map<string, string>,
                                           ents: seq<DiseaseEntity>, cands: seq<Candidate>, k: nat)
    returns (j: nat)
    requires k < |NerRun(symbols, aliases, ents, cands).results|
    ensures j < |cands|
    ensures Resolve(symbols, aliases, cands[j].gene) == Some(NerRun(symbols, aliases, ents, cands).results[k].symbol)
    ensures NerRun(symbols, aliases, ents, cands).results[k] ==
            NerMention(NerRun(symbols, aliases, ents, cands).results[k].symbol, cands[j], ents)
    ensures forall i :: 0 <= i < j ==>
              Resolve(symbols, aliases, cands[i].gene) != Some(NerRun(symbols, aliases, ents, cands).results[k].symbol)
    decreases |cands|
  {
    var init := cands[..|cands| - 1];
    var st := NerRun(symbols, aliases, ents, init);
    if k < |st.results| {
      j := NerRecordOrigin(symbols, aliases, ents, init, k);
    } else {
      j := |cands| - 1;
      var n := Resolve(symbols, aliases, cands[j].gene).value;
      forall i | 0 <= i < j
        ensures Resolve(symbols, aliases, cands[i].gene) != Some(n)
      {
        if Resolve(symbols, aliases, cands[i].gene) == Some(n) {
          NerComplete(symbols, aliases, ents, init, i);
        }
      }
    }
  }

  // ---------------------------------------------------------------------------
  // Fallback pass
  // ---------------------------------------------------------------------------

  /**
   * `[d for d in disease_mentions if d in known_diseases]`; the set is iterated
   * in an unspecified order, which the choice `:|` stands for.
   */
  method MatchDiseases(mentions: set<string>, known: set<string>) returns (matched: seq<string>)
    ensures forall d :: d in matched <==> d in mentions && d in known
    ensures Distinct(matched)
  {
    matched := [];
    var rest := mentions;
    while rest != {}
      invariant rest <= mentions
      invariant forall d :: d in matched <==> d in mentions - rest && d in known
      invariant Distinct(matched)
      decreases rest
    {
      var d :| d in rest;
      rest := rest - {d};
      if d in known {
        matched := matched + [d];
      }
    }
  }

  /**
   * What a fallback record holds: the symbol as its own mention, the window
   * around the leftmost case-insensitive whole-word match, the text's disease
   * mentions that the lookup also knows for the symbol (each once), `source`
   * "fallback", and the "table" rule applied to the window.
   */
  ghost predicate IsFallbackMention(text: string, r: Mention, mentions: set<string>, known: string -> set<string>) {
    && FirstWordMatch(text, r.symbol).Some?
    && r.originalMention == r.symbol
    && r.sentence == Window(text, FirstWordMatch(text, r.symbol).value)
    && (forall d :: d in r.diseases <==> d in mentions && d in known(r.symbol))
    && Distinct(r.diseases)
    && r.source == Fallback
    && r.section == SectionOf(r.sentence)
  }

  /**
   * The fallback loop body for one symbol not yet seen: the gate for a
   * common-word symbol, the search, and the record when the symbol is found.
   */
  method FallbackVisit(edition: Edition, text: string, mentions: set<string>, known: string -> set<string>,
                       sym: string)
    returns (r: Option<Mention>)
    ensures r.Some? <==> FallbackHit(edition, text, sym)
    ensures r.Some? ==> r.value.symbol == sym && IsFallbackMention(text, r.value, mentions, known)
  {
    if sym in CommonWordGenes && !GatePasses(edition, text, sym) {
      return None;
    }
    var m := FirstWordMatch(text, sym);
    if m.None? {
      return None;
    }
    var inferred := Window(text, m.value);
    var matched := MatchDiseases(mentions, known(sym));
    return Some(Mention(sym, sym, inferred, matched, Fallback, SectionOf(inferred)));
  }

  /** Every record in `found` is a fallback record. */
  ghost predicate AllFallback(text: string, found: seq<Mention>, mentions: set<string>, known: string -> set<string>) {
    forall k :: 0 <= k < |found| ==> IsFallbackMention(text, found[k], mentions, known)
  }

  /** Appending a record for a symbol not yet recorded keeps the symbols distinct and adds that one symbol. */
  lemma AppendFresh(found: seq<Mention>, r: Mention)
    requires DistinctSymbols(found) && r.symbol !in SymbolsOf(found)
    ensures DistinctSymbols(found + [r])
    ensures SymbolsOf(found + [r]) == SymbolsOf(found) + {r.symbol}
  {
    forall i | 0 <= i < |found|
      ensures found[i].symbol != r.symbol
    {
      assert found[i] in found;
    }
  }

  lemma AppendFallback(found: seq<Mention>, r: Mention, text: string, mentions: set<string>, known: string -> set<string>)
    requires AllFallback(text, found, mentions, known) && IsFallbackMention(text, r, mentions, known)
    ensures AllFallback(text, found + [r], mentions, known)
  {
    forall k | 0 <= k < |found + [r]|
      ensures IsFallbackMention(text, (found + [r])[k], mentions, known)
    {
      if k < |found| {
        assert (found + [r])[k] == found[k];
      }
    }
  }

  /**
   * The fallback loop over `HGNC_SYMBOLS`, in the set's unspecified order:
   * a symbol not yet seen that passes the gate and is found gets one record.
   */
  method FallbackPass(edition: Edition, symbols: set<string>, text: string, mentions: set<string>,
                      known: string -> set<string>, seen0: set<string>)
    returns (found: seq<Mention>)
    ensures DistinctSymbols(found)
    ensures forall s :: s in SymbolsOf(found) <==> s in symbols && s !in seen0 && FallbackHit(edition, text, s)
    ensures forall k :: 0 <= k < |found| ==> IsFallbackMention(text, found[k], mentions, known)
  {
    found := [];
    var seen := seen0;
    var remaining := symbols;
    ghost var got: set<string> := {};
    while remaining != {}
      invariant remaining <= symbols
      invariant got == SymbolsOf(found)
      invariant seen == seen0 + got
      invariant DistinctSymbols(found)
      invariant forall s :: s in got <==> s in symbols - remaining && s !in seen0 && FallbackHit(edition, text, s)
      invariant AllFallback(text, found, mentions, known)
      decreases remaining
    {
      var sym :| sym in remaining;
      remaining := remaining - {sym};
      if sym !in seen {
        var r := FallbackVisit(edition, text, mentions, known, sym);
        if r.Some? {
          AppendFresh(found, r.value);
          AppendFallback(found, r.value, text, mentions, known);
          found := found + [r.value];
          seen := seen + {sym};
          got := got + {sym};
        }
      }
    }
  }

  // ---------------------------------------------------------------------------
  // The whole routine
  // ---------------------------------------------------------------------------

  lemma DistinctSymbolsAppend(a: seq<Mention>, b: seq<Mention>)
    requires DistinctSymbols(a) && DistinctSymbols(b)
    requires forall r :: r in b ==> r.symbol !in SymbolsOf(a)
    ensures DistinctSymbols(a + b)
  {
    forall i, j | 0 <= i < j < |a + b|
      ensures (a + b)[i].symbol != (a + b)[j].symbol
    {
      if i < |a| && j >= |a| {
        assert (a + b)[j] in b;
        assert (a + b)[i] in a;
      }
    }
  }

  /**
   * `extract_gene_disease_mentions(text, use_hybrid, return_skipped)`, with the
   * vocabulary globals passed in as `symbols` and `aliases`.
   */
  method ExtractMentions(edition: Edition, symbols: set<string>, aliases: map<string, string>,
                         text: string, geneSents: seq<GeneSentence>, diseaseEnts: seq<DiseaseEntity>,
                         known: string -> set<string>, useHybrid: bool, returnSkipped: bool)
    returns (out: ExtractOutput)
    ensures out.MentionsAndSkipped? <==> returnSkipped
    ensures var ner := NerRun(symbols, aliases, diseaseEnts, Candidates(geneSents));
            && |ner.results| <= |out.results|
            && out.results[..|ner.results|] == ner.results
            && (out.MentionsAndSkipped? ==> out.skipped == ner.skipped)
            && (!useHybrid ==> out.results == ner.results)
            && (useHybrid ==> forall s :: s in SymbolsOf(out.results[|ner.results|..]) <==>
                                s in symbols && s !in ner.seen && FallbackHit(edition, text, s))
            && (forall k :: |ner.results| <= k < |out.results| ==>
                  IsFallbackMention(text, out.results[k], DiseaseMentions(diseaseEnts), known))
    ensures DistinctSymbols(out.results)
    ensures (forall a :: a in aliases ==> aliases[a] in symbols) ==>
              forall r :: r in out.results ==> r.symbol in symbols
  {
    var bySentence, mentions := GroupDiseases(diseaseEnts);
    var ner := NerPass(symbols, aliases, geneSents, bySentence, diseaseEnts);
    var results, skipped, seen := ner.results, ner.skipped, ner.seen;
    ghost var cands := Candidates(geneSents);
    NerDeduplicates(symbols, aliases, diseaseEnts, cands);
    var found: seq<Mention> := [];
    if useHybrid {
      found := FallbackPass(edition, symbols, text, mentions, known, seen);
    }
    DistinctSymbolsAppend(results, found);
    assert (results + found)[..|results|] == results;
    assert (results + found)[|results|..] == found;
    if forall a :: a in aliases ==> aliases[a] in symbols {
      NerSymbolsKnown(symbols, aliases, diseaseEnts, cands);
    }
    if returnSkipped {
      out := MentionsAndSkipped(results + found, skipped);
    } else {
      out := Mentions(results + found);
    }
  }
}
