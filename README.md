# paper2kb core, modelled in Dafny

paper2kb turns biomedical papers into gene–disease knowledge-base records. This
project models its deterministic core and proves properties of that model:

- **Vocabulary loading.** `load_hgnc_reference` builds `HGNC_SYMBOLS` and `HGNC_ALIASES`. The two globals are the fields of the class `Vocabulary.Reference`, and its `Load` method runs the row loop.
- **Gene–disease reconciliation.** `extract_gene_disease_mentions` is modelled in module `Extraction`, with `Matching` for the regular expressions. It has three steps:
  - group the disease entities by sentence;
  - resolve the gene NER tokens against the vocabulary, deduplicating by symbol;
  - optionally run the dictionary fallback pass, with its common-word gate and ±100-character window.

  Both copies of the extractor (`src/paper2kb/extract_genes.py` and `src/extract_genes.py`) are modelled. They differ only in the common-word gate, which the `Edition` parameter selects.
- **Record enrichment passes.** `add_coordinates` with `lift_hg38_to_hg19` is in `Coordinates` (both copies have the same logic). `enrich_with_hgnc` is in `HgncMetadata`. `normalize_diseases` with the result selection of `query_ols_for_disease` is in `NormalizeDiseases`.
  - Each pass is a loop that updates the dictionaries of a list in place. A dictionary object is a `Values.Record`, and the loop is a method that `modifies` those records.
  - The same object may occur twice in the list. Each pass's per-entry update is proved idempotent, so the contracts hold under that aliasing.
- **Output and helpers.**
  - `save_output` and `flatten_value` are in `WriteOutput`.
  - `infer_output_path` and the precedence in `load_text_source` are in `IoUtils`.
  - `split_safe` and `prepare_db_insert_data` are in `DbPrep`.

Python values are the datatype `Values.Value`. Dictionaries are insertion-ordered sequences of (key, value) pairs, with `Lookup`, `Get`, `Put` and `Update` for `d[k]`, `d.get(k)`, `d[k] = v` and `d.update({...})`. Exceptions are the `Failure` side of a `Result`.

The foreign parts are parameters:
- the two spaCy models are sequences of sentences and entities;
- the Open Targets lookup is a function from symbol to disease names;
- the Ensembl, HGNC and OLS requests are functions from the queried value to an outcome datatype;
- pyliftover is a function from (chromosome text, start) to its hits or an exception.

Two behaviours of the code worth knowing:
- **Loading is cumulative.** `load_hgnc_reference` only adds to the two globals and never clears them (`src/paper2kb/extract_genes.py:48-58`), so a second load keeps every symbol and unlisted alias of the first. See `Vocabulary.LoadKeepsUnlisted`.
- **`original_mention` is upper-cased.** An NER record's `original_mention` is the entity text after `.upper()`, not the text as written in the paper (`src/paper2kb/extract_genes.py:102-106,123`). See `Extraction.NerRecordOrigin`.

## Model

| member | source | states |
|---|---|---|
| Vocabulary.Reference.constructor | src/paper2kb/extract_genes.py:13-16 | both globals start empty, which is a closed, upper-cased vocabulary |
| Vocabulary.Reference.Load | src/paper2kb/extract_genes.py:40-58 | the new globals are the old ones with every row applied in order (`LoadRows`); a closed, upper-cased vocabulary stays so; the same loop is in src/extract_genes.py:22-33 |
| Vocabulary.LoadRows | src/paper2kb/extract_genes.py:48-58 | the vocabulary after the rows, in order; `LoadSymbols`, `LastAliasWins`, `LoadKeepsUnlisted` and `LoadKeepsValid` state its symbols and aliases |
| Vocabulary.LoadKeepsValid | src/paper2kb/extract_genes.py:53-58 | after loading, every alias maps to a symbol in `HGNC_SYMBOLS`, and all symbols and aliases are upper-cased |
| Vocabulary.LoadSymbols | src/paper2kb/extract_genes.py:53-54 | the symbols after loading are exactly the old symbols plus each row's upper-cased symbol |
| Vocabulary.LastAliasWins | src/paper2kb/extract_genes.py:55-58 | an alias listed by row k and by no later row maps to row k's upper-cased symbol, whatever earlier rows or loads wrote |
| Vocabulary.LoadKeepsUnlisted | src/paper2kb/extract_genes.py:48-58 | loading never clears: old symbols stay, and an alias that no row lists keeps its old mapping |
| Vocabulary.LoadRowAliases | src/paper2kb/extract_genes.py:55-58 | one row maps each alias of its non-empty alias field to its symbol and leaves every other alias as it was |
| Matching.SearchWord | src/paper2kb/extract_genes.py:144-145 | the result is a whole-word match (case-insensitive or exact) with no match before it; `None` means there is no match at all |
| Matching.FirstMatchIsLeftmost | src/paper2kb/extract_genes.py:144-147 | the span the fallback uses is the leftmost case-insensitive whole-word match |
| Matching.WindowBounds | src/paper2kb/extract_genes.py:146-149 | the inferred sentence is at most 200 characters long, holds no newline, and is as long as the stripped slice it is cut from |
| Matching.GatePasses | src/paper2kb/extract_genes.py:139-141 | the common-word gate of each copy; `PackageGateBlocks`, `PackageGateAdmits` and `LegacyGateNeedsBackslashB` state when it passes |
| Matching.Window | src/paper2kb/extract_genes.py:146-149 | the inferred sentence around a match; `WindowBounds` states its length bound and that it holds no newline |
| Matching.PackageGateBlocks | src/paper2kb/extract_genes.py:139-141 | a common-word symbol with no exact-case whole-word occurrence is never found by the fallback pass |
| Matching.PackageGateAdmits | src/paper2kb/extract_genes.py:139-145 | an exact-case whole-word occurrence passes the gate, and the fallback search then finds the symbol |
| Matching.SetSentenceNotMatched | src/paper2kb/tests/test_extract_genes.py:26-31 | "Set was found to be critical in the process." yields no SET hit |
| Matching.LegacyGateNeedsBackslashB | src/extract_genes.py:93-96 | in the legacy copy, a common-word symbol is found only if the text literally contains `\b` + symbol + `\b` |
| Matching.LegacyGateRejectsCapitalisedSymbol | src/extract_genes.py:93-96 | "The SET gene is not relevant." is a hit for the package gate but not for the legacy gate |
| Extraction.GroupDiseases | src/paper2kb/extract_genes.py:87-94 | the map gives each stripped sentence its DISEASE texts in order (`DiseasesIn`); the set is every DISEASE text, lower-cased |
| Extraction.DiseasesInSound | src/paper2kb/extract_genes.py:90-93 | every text grouped under a sentence comes from a DISEASE entity whose stripped sentence is that sentence |
| Extraction.DiseasesInComplete | src/paper2kb/extract_genes.py:90-93 | every DISEASE entity of a sentence has its text grouped under that sentence |
| Extraction.DiseasesInMembers | src/paper2kb/extract_genes.py:92-93 | a text is grouped under a sentence exactly when a DISEASE entity of that stripped sentence has it; the grouping is empty if there is none |
| Extraction.Resolve | src/paper2kb/extract_genes.py:108-115 | a token resolves iff it is a symbol or an alias; an exact symbol resolves to itself; when every alias maps to a symbol, every resolution is a symbol |
| Extraction.NerRun | src/paper2kb/extract_genes.py:100-128 | the NER pass over the tokens emits at most one record or skipped entry per token; its other properties are the NER lemmas below |
| Extraction.NerVisit | src/paper2kb/extract_genes.py:108-128 | one token does one step of the NER pass: exact symbol first, then alias, otherwise skipped; a symbol already seen adds nothing |
| Extraction.NerSentence | src/paper2kb/extract_genes.py:108-128 | the inner loop continues the NER pass over the sentence's tokens in order |
| Extraction.NerPass | src/paper2kb/extract_genes.py:100-128 | the results, the skipped list and `seen_mentions` equal the NER pass `NerRun` over every gene token of the text, in order |
| Extraction.NerDeduplicates | src/paper2kb/extract_genes.py:117-119 | `seen_mentions` equals the set of emitted symbols, no two NER records share a symbol, and every NER record has source "ner" |
| Extraction.NerSymbolsKnown | src/paper2kb/extract_genes.py:109-112 | when every alias maps to a vocabulary symbol, every NER record's symbol is in `HGNC_SYMBOLS` |
| Extraction.NerSkipsUnresolved | src/paper2kb/extract_genes.py:113-115 | `skipped_genes` is exactly the tokens that are neither symbols nor aliases, in order, duplicates kept |
| Extraction.NerComplete | src/paper2kb/extract_genes.py:108-119 | every token that resolves has its symbol in `seen_mentions` afterwards |
| Extraction.NerRecordOrigin | src/paper2kb/extract_genes.py:121-128 | each NER record comes from the first token that resolves to its symbol. It carries that token upper-cased, its stripped sentence, the DISEASE texts of exactly that sentence, source "ner", and "table" iff the lower-cased sentence contains "table" |
| Extraction.MatchDiseases | src/paper2kb/extract_genes.py:152-153 | the matched diseases are exactly the text's disease mentions that the lookup also knows, each once, in any order |
| Extraction.FallbackVisit | src/paper2kb/extract_genes.py:139-162 | a symbol gets a record iff it passes the gate (common-word symbols only) and is found; the record is a fallback record for that symbol |
| Extraction.FallbackPass | src/paper2kb/extract_genes.py:134-163 | the fallback records' symbols are exactly the vocabulary symbols not yet seen that the pass finds, each once, and every record is a fallback record (`IsFallbackMention`: window, diseases, source, section) |
| Extraction.ExtractMentions | src/paper2kb/extract_genes.py:64-174 | NER records come first, unchanged; fallback records only with `use_hybrid`; no symbol twice; symbols in the vocabulary when it is closed; the pair with skipped tokens iff `return_skipped` |
| Coordinates.FirstMissing | src/paper2kb/get_coordinates.py:18-19 | the index of the first entry without "symbol": every entry before it has the key, and the entry at it (if any) does not |
| Coordinates.VisitEntry | src/paper2kb/get_coordinates.py:18-44 | a missing "symbol" changes nothing and is reported; otherwise the entry gets the hg38 and hg19 updates for its lookup |
| Coordinates.AddCoordinates | src/paper2kb/get_coordinates.py:7-46 | returns the same list, or raises `KeyError('symbol')` at the first entry without a symbol; every entry before that point is updated, the rest are untouched |
| Coordinates.LiftHg38ToHg19 | src/paper2kb/get_coordinates.py:76-104 | the three hg19 fields from the first liftover hit or `None`; `LiftShape` and `LiftStripsPrefix` state its keys and values |
| Coordinates.CoordUpdate | src/paper2kb/get_coordinates.py:18-44 | one entry after the loop body; the `Coordinates` lemmas below state it key by key |
| Coordinates.LookupCoordUpdate | src/paper2kb/get_coordinates.py:23-44 | reading a key after one visit: the coordinate keys the visit writes have their new values, all others read as before |
| Coordinates.OtherKeysUnchanged | src/paper2kb/get_coordinates.py:24-44 | a key other than the six `hg38_*`/`hg19_*` keys reads as before, and no existing key is lost or moved |
| Coordinates.CoordUpdateTwice | src/paper2kb/get_coordinates.py:18-44 | visiting the same dictionary twice equals visiting it once |
| Coordinates.MissingBoth | src/paper2kb/get_coordinates.py:39-44 | a failed lookup with build "both" sets all six coordinate fields to `None` |
| Coordinates.MissingHg38Only | src/paper2kb/get_coordinates.py:41-44 | a failed lookup with build "hg38" sets the three hg38 fields to `None` and leaves the hg19 keys alone |
| Coordinates.Hg38Copied | src/paper2kb/get_coordinates.py:23-29 | with coordinates and build "hg38" or "both", the hg38 chr, start and end are the lookup's values verbatim |
| Coordinates.Hg38BuildLeavesHg19 | src/paper2kb/get_coordinates.py:31-44 | with build "hg38" no hg19 key is written, whatever the lookup returns |
| Coordinates.Hg19WhenLiftable | src/paper2kb/get_coordinates.py:32-38 | with coordinates, the hg19 fields are written iff the build is "hg19" or "both" and `hg38_chr` and `hg38_start` are truthy; they are then the lift's triple |
| Coordinates.UnknownBuildNoOp | src/paper2kb/get_coordinates.py:24-44 | a build other than "hg38", "hg19" and "both" leaves the entry unchanged |
| Coordinates.LiftShape | src/paper2kb/get_coordinates.py:88-104 | the lift writes the three hg19 keys; on a hit `hg19_end == hg19_start + 1`; on an exception or no hit all three are `None` |
| Coordinates.LiftStripsPrefix | src/paper2kb/get_coordinates.py:91-93 | a hit on "chr" + t (t free of "chr") gives `hg19_chr == t` |
| HgncMetadata.VisitGene | src/paper2kb/get_hgnc_metadata.py:21-58 | one entry gets the update its symbol's response selects |
| HgncMetadata.EnrichWithHgnc | src/paper2kb/get_hgnc_metadata.py:3-62 | the result lists the same dictionary objects in the same order, and each one is updated exactly once |
| HgncMetadata.HgncUpdateFor | src/paper2kb/get_hgnc_metadata.py:27-58 | the three fields one response writes; `HgncFound`, `AliasAlwaysList` and `HgncPlaceholders` state them per outcome |
| HgncMetadata.LookupHgncUpdate | src/paper2kb/get_hgnc_metadata.py:33-58 | after the update, `hgnc_id`, `name` and `alias_symbol` read the selected values; other keys read as before |
| HgncMetadata.HgncUpdateTwice | src/paper2kb/get_hgnc_metadata.py:20-58 | updating the same dictionary twice equals updating it once |
| HgncMetadata.HgncFound | src/paper2kb/get_hgnc_metadata.py:27-37 | status 200 with documents: `hgnc_id` and `name` come from the first document |
| HgncMetadata.AliasAlwaysList | src/paper2kb/get_hgnc_metadata.py:32-36 | `alias_symbol` is the first document's value if that is a list, and `[]` in every other case |
| HgncMetadata.HgncPlaceholders | src/paper2kb/get_hgnc_metadata.py:38-58 | empty documents, a non-200 status or an exception give (None, None, []) and raise nothing |
| HgncMetadata.HgncOtherKeysUnchanged | src/paper2kb/get_hgnc_metadata.py:33-58 | keys other than the three written read as before, and no existing key is lost or moved |
| NormalizeDiseases.QueryOls | src/paper2kb/normalize_diseases.py:21-42 | a result iff the search returned documents; it then has exactly the keys `label` and `mondo_id` |
| NormalizeDiseases.Iterate | src/paper2kb/normalize_diseases.py:11 | `for disease in v` fails with `TypeError` iff v is not a list, string or dictionary; a list yields its items |
| NormalizeDiseases.FirstNotIterable | src/paper2kb/normalize_diseases.py:9-11 | the index of the first entry whose diseases cannot be iterated |
| NormalizeDiseases.NormalizeList | src/paper2kb/normalize_diseases.py:10-16 | the inner loop builds one element per disease, in order (`NormalizedList`) |
| NormalizeDiseases.VisitEntry | src/paper2kb/normalize_diseases.py:10-17 | an entry whose diseases iterate gets `normalized_diseases`; any other entry is unchanged and the failure is reported |
| NormalizeDiseases.NormalizeDiseasesPass | src/paper2kb/normalize_diseases.py:3-18 | returns the same list, or raises `TypeError` at the first entry whose diseases cannot be iterated; entries before it are updated, the rest untouched |
| NormalizeDiseases.NormalizeUpdate | src/paper2kb/normalize_diseases.py:10-17 | one entry after the loop body; `NormalizedElements`, `NoDiseasesKey` and `NormalizeOtherKeysUnchanged` state what it writes |
| NormalizeDiseases.NormalizeUpdateTwice | src/paper2kb/normalize_diseases.py:11-17 | updating the same dictionary twice equals updating it once |
| NormalizeDiseases.NormalizedElements | src/paper2kb/normalize_diseases.py:11-16 | `normalized_diseases` matches `diseases` one for one: the top document's label and obo_id on a hit, `{label: disease, mondo_id: None}` otherwise |
| NormalizeDiseases.NoDiseasesKey | src/paper2kb/normalize_diseases.py:11-17 | an entry without `diseases` gets `normalized_diseases == []` |
| NormalizeDiseases.NormalizeOtherKeysUnchanged | src/paper2kb/normalize_diseases.py:17 | only `normalized_diseases` is written; other keys read as before and keep their order |
| WriteOutput.FlattenValue | src/paper2kb/write_output.py:29-43 | only a list can fail, and then with `TypeError`; a value that changes was a list and becomes a string |
| WriteOutput.FlatItem | src/paper2kb/write_output.py:45 | a record flattens iff every value does; the flattened record keeps each key in place with `flatten_value` of its value |
| WriteOutput.FlatData | src/paper2kb/write_output.py:45 | every record is flattened, in order; the first failure propagates |
| WriteOutput.SaveOutput | src/paper2kb/write_output.py:5-54 | empty data writes nothing, even for an unsupported format; "json" writes the data unflattened; other formats raise `ValueError`; "csv" writes exactly the flattened records (`FlatData`) under the flattened first record's keys, which are the first record's keys, and fails iff a value cannot be flattened or a row has a key outside the header |
| WriteOutput.FlattenStrings | src/paper2kb/write_output.py:36-37 | a list of strings becomes the strings joined with "; "; the empty list becomes "" |
| WriteOutput.FlattenLabels | src/paper2kb/write_output.py:38-42 | labelled dictionaries with string labels become "label (mondo_id)", or the bare label when `mondo_id` is missing or falsy, joined with "; " |
| WriteOutput.FlattenKeepsOthers | src/paper2kb/write_output.py:43 | non-lists and mixed lists are returned unchanged |
| WriteOutput.FlattenIdempotent | src/paper2kb/write_output.py:29-43 | flattening a flattened value changes nothing |
| WriteOutput.HeaderIsFirstKeys | src/paper2kb/write_output.py:45-46 | the CSV header is the first record's key order |
| IoUtils.Basename | src/paper2kb/io_utils.py:37 | the base name holds no "/", ends the path, and is either the whole path or starts just after a "/" (so it is the longest such suffix) |
| IoUtils.Stem | src/paper2kb/io_utils.py:37 | the stem is a prefix of the name; it is shorter than the name iff some "." follows a non-dot character, and then it stops at the last "." |
| IoUtils.StemRemovesLastExtension | src/paper2kb/io_utils.py:37 | a name with a non-dot character, followed by "." and a dot-free extension, has that name as its stem |
| IoUtils.InferOutputPath | src/paper2kb/io_utils.py:32-41 | succeeds iff the pmid is truthy or a local file is given, else raises the `ValueError`; a path lies under `outdir` and ends with "." + format |
| IoUtils.LoadTextSource | src/paper2kb/io_utils.py:11-30 | fails iff neither source is given; the PMID is fetched only without a local file; a local file is read as PDF iff its name ends with ".pdf" |
| IoUtils.PathJoinShape | src/paper2kb/io_utils.py:41 | the joined path starts with the directory, ends with the name, and has a "/" just before the name |
| IoUtils.PmidTakesPrecedence | src/paper2kb/io_utils.py:34-35 | a truthy pmid names the output "pmid{pmid}.{format}" whatever `localfile` is |
| IoUtils.LocalfileName | src/paper2kb/io_utils.py:36-38 | with only a local file, the name is its base name without its last extension, then "_parsed." and the format |
| IoUtils.NoSourceRaises | src/paper2kb/io_utils.py:39-40 | with neither source, `ValueError` is raised, by this routine and by `load_text_source` |
| IoUtils.OppositePrecedence | src/paper2kb/io_utils.py:11-41 | given both sources, text comes from the local file but the output is named after the PMID |
| DbPrep.Pieces | scripts/load_sqlite_db.py:10 | every piece is a non-empty string |
| DbPrep.SplitSafe | scripts/load_sqlite_db.py:6-11 | a list is returned as is; a value that is neither list nor string gives []; the same helper is in streamlit_app/app.py:182-187 |
| DbPrep.SplitSafePieces | scripts/load_sqlite_db.py:9-10 | no piece of a split string is empty or holds ";" |
| DbPrep.SplitSafeJoin | scripts/load_sqlite_db.py:6-11 | `split_safe("; ".join(xs)) == xs` when every item is non-empty, stripped and free of ";" |
| DbPrep.FlattenThenSplit | src/paper2kb/write_output.py:36-37 | a list of clean strings written by the CSV flattening reads back as the same list |
| DbPrep.PrepareDbInsertData | streamlit_app/app.py:189-205 | one cleaned record per input record, in order |
| DbPrep.CleanRecord | streamlit_app/app.py:193-204 | one record as inserted into the table; `CleanRecordShape` states its columns and values |
| DbPrep.CleanRecordShape | streamlit_app/app.py:193-204 | each cleaned record has exactly the ten columns, in order, each once; other keys are dropped; `diseases` and `alias_symbol` are lists; a missing column is `None` |

## Left out

- The spaCy models, their sentence segmentation and entity labelling are inputs. The Open Targets, HGNC, Ensembl, OLS and Entrez/Europe PMC requests and pyliftover are oracles. Each is assumed to answer the same query the same way: a dictionary visited twice sees the same answer.
- File and PDF reading, `makedirs` and `mkdir`, JSON and CSV serialisation, TSV parsing, SQLite, the command-line tools, the Streamlit UI, logging and `print` are not modelled.
- A TSV row missing its `alias_symbol` field is read as "". A missing `symbol` column, which raises `KeyError` in the source, is not modelled.
- Python's set iteration order is not modelled. The fallback loop over `HGNC_SYMBOLS` and the disease list built from `disease_mentions` choose their next element nondeterministically. Their contracts hold for every order, so they state set contents, not order.
- Strings are ASCII for case mapping, whitespace and word characters. Unicode case folding and Unicode `\w` are not modelled.
- Values.Repr: `repr` of a string does not escape quotes or control characters. Floats and pandas' NaN are an opaque `VOther` value with its text and truth value.
- Malformed JSON and unexpected response shapes in the HGNC and OLS requests are part of the exception outcome.
- WriteOutput.SaveOutput: the `ValueError` for a row with keys outside the header carries only the fixed text, not the list of offending keys. Rows missing a header key, which `DictWriter` fills with "", are returned as given.
- NormalizeDiseases.NormalizedList: its own contract states only the length. The element-wise content is stated by `NormalizedElements`.
- IoUtils.LoadTextSource: only the choice of source is modelled. The PDF branch passes the path string to `extract_text_from_pdf`, which calls `.read()` on its argument, so reading a local PDF this way would fail. That I/O is outside the model.

## Findings

| source | as written | input that shows it | evidently intended | confidence | as-written member | corrected member |
|---|---|---|---|---|---|---|
| src/extract_genes.py:93-96 | `re.search(rf"\\b{sym}\\b", text)`: in a raw string `\\b` is an escaped backslash followed by `b`, so the gate requires a literal `\b` around the symbol | "The SET gene is not relevant." with SET in the vocabulary: the legacy gate rejects SET, so the fallback never emits it | a case-sensitive whole-word match, `rf"\b{sym}\b"`, as in src/paper2kb/extract_genes.py:140 and as the comment at line 94 says | high (not executed) | Matching.LegacyGateRejectsCapitalisedSymbol | Matching.PackageGateAdmits |
