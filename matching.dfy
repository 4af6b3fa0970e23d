/**
 * The regular-expression searches of the fallback pass in `extract_genes.py`,
 * restricted to ASCII: the whole-word search `\bSYM\b` (case-insensitive or
 * exact), the two editions of the common-word gate, and the ±100-character
 * context window cut around a hit.
 */
module Matching {
  import opened Wrappers
  import opened Text

  /** Position `i` holds a word character; positions outside the text do not. */
  predicate WordAt(text: string, i: int) {
    0 <= i < |text| && IsWordChar(text[i])
  }

  /** `\b` matches at position `i`: a word character on exactly one side. */
  predicate IsBoundary(text: string, i: int) {
    WordAt(text, i - 1) != WordAt(text, i)
  }

  /**
   * `\b` + `sym` + `\b` matches at `s`: case-insensitively (`re.IGNORECASE`)
   * unless `exact`.
   */
  predicate WordMatchAt(text: string, sym: string, s: int, exact: bool) {
    && 0 <= s && s + |sym| <= |text|
    && (if exact then text[s..s + |sym|] == sym else Lower(text[s..s + |sym|]) == Lower(sym))
    && IsBoundary(text, s)
    && IsBoundary(text, s + |sym|)
  }

  /** `re.search`: the leftmost whole-word match at or after `from`. */
  function SearchWord(text: string, sym: string, from: nat, exact: bool): (r: Option<nat>)
    ensures r.Some? ==> from <= r.value && WordMatchAt(text, sym, r.value, exact)
    ensures r.Some? ==> forall s :: from <= s < r.value ==> !WordMatchAt(text, sym, s, exact)
    ensures r.None? ==> forall s :: from <= s ==> !WordMatchAt(text, sym, s, exact)
    decreases |text| - from
  {
    if from + |sym| > |text| then None
    else if WordMatchAt(text, sym, from, exact) then Some(from)
    else SearchWord(text, sym, from + 1, exact)
  }

  /** The start of the leftmost case-insensitive whole-word match of `sym`. */
  function FirstWordMatch(text: string, sym: string): Option<nat> {
    SearchWord(text, sym, 0, false)
  }

  /** The two copies of the extractor, which differ only in the common-word gate. */
  datatype Edition = Package | Legacy

  /** Common short words that are also gene symbols (`COMMON_WORD_GENES`, the same set in both copies). */
  const CommonWordGenes: set<string> := {
    "SET", "SHE", "WAS", "HAS", "AND", "ARE", "ONE", "ANY", "ALL", "ASK",
    "ACT", "CAN", "MAP", "BAM", "BAD", "ITS", "MAN", "MAY", "NOT", "OUT",
    "RUN", "TIP", "TOP", "YET", "TRY", "USE", "YES", "NOW", "NEW", "LET",
    "NET", "GAP", "GAS", "HIT", "TAG", "ZIP", "POP", "BIT", "BAT", "WIN",
    "LOW", "UP", "ON", "OFF", "IN", "IT", "TO", "DO", "BY", "NO", "BE",
    "GO", "SO", "OF", "AT", "IF", "AS", "WE", "HE", "OR", "MY", "ME",
    "MGP", "AR"
  }

  /**
   * The gate a common-word symbol must pass before the fallback search.
   * Package: `re.search(rf"\b{sym}\b", text)`, an exact-case whole-word match.
   * Legacy: `re.search(rf"\\b{sym}\\b", text)`, whose raw-string `\\b` matches a
   * backslash followed by `b`, so the text must literally contain `\b` + sym + `\b`.
   */
  predicate GatePasses(edition: Edition, text: string, sym: string) {
    match edition
    case Package => SearchWord(text, sym, 0, true).Some?
    case Legacy => Contains(text, "\\b" + sym + "\\b")
  }

  /** The fallback pass finds `sym`: the gate (for a common-word symbol) and then the search succeed. */
  predicate FallbackHit(edition: Edition, text: string, sym: string) {
    && (sym in CommonWordGenes ==> GatePasses(edition, text, sym))
    && FirstWordMatch(text, sym).Some?
  }

  function Max(a: int, b: int): int { if a < b then b else a }
  function Min(a: int, b: int): int { if a < b then a else b }

  /** `text[max(0, s - 100):s + 100].strip().replace("\n", " ")` */
  function Window(text: string, s: nat): string
    requires s <= |text|
  {
    Replace(Strip(text[Max(0, s - 100)..Min(|text|, s + 100)]), "\n", " ")
  }

  /** The slice a window is cut from: at most 100 characters on each side of `s`, clipped to the text. */
  function WindowSlice(text: string, s: nat): string
    requires s <= |text|
  {
    text[Max(0, s - 100)..Min(|text|, s + 100)]
  }

  /**
   * A window is at most 200 characters long, holds no newline, and is the stripped
   * slice around the match with newlines turned into spaces, character for character.
   */
  lemma WindowBounds(text: string, s: nat)
    requires s <= |text|
    ensures |Window(text, s)| <= 200
    ensures '\n' !in Window(text, s)
    ensures |Window(text, s)| == |Strip(WindowSlice(text, s))|
  {
    var stripped := Strip(WindowSlice(text, s));
    ReplaceCharLength(stripped, "\n", " ");
  }

  /** Only the leftmost match counts: a match at `s` with none before it is what the search returns. */
  lemma FirstMatchIsLeftmost(text: string, sym: string, s: nat)
    requires WordMatchAt(text, sym, s, false)
    requires forall t :: 0 <= t < s ==> !WordMatchAt(text, sym, t, false)
    ensures FirstWordMatch(text, sym) == Some(s)
  {
  }

  /**
   * Package gate: a common-word symbol with no exact-case whole-word occurrence
   * never reaches the fallback search, however often its lower-case form occurs.
   */
  lemma PackageGateBlocks(text: string, sym: string)
    requires sym in CommonWordGenes
    requires forall s :: !WordMatchAt(text, sym, s, true)
    ensures !FallbackHit(Package, text, sym)
  {
  }

  /**
   * Package gate, other direction: an exact-case whole-word occurrence of a
   * common-word symbol passes the gate and is found by the fallback search.
   */
  lemma PackageGateAdmits(text: string, sym: string, s: nat)
    requires WordMatchAt(text, sym, s, true)
    ensures FallbackHit(Package, text, sym)
  {
    assert WordMatchAt(text, sym, s, false);
  }

  /**
   * Legacy gate: a common-word symbol is found only when the text literally
   * contains a backslash, `b`, the symbol, a backslash and `b`.
   */
  lemma LegacyGateNeedsBackslashB(text: string, sym: string)
    requires sym in CommonWordGenes
    requires FallbackHit(Legacy, text, sym)
    ensures Contains(text, "\\b" + sym + "\\b")
  {
  }

  /** The capitalised word "Set" at the start of a sentence does not admit the symbol SET. */
  lemma SetSentenceNotMatched()
    ensures !FallbackHit(Package, "Set was found to be critical in the process.", "SET")
  {
    var text := "Set was found to be critical in the process.";
    assert forall i | 0 <= i < |text| :: text[i] != 'E';
    forall s ensures !WordMatchAt(text, "SET", s, true) {
      if 0 <= s && s + 3 <= |text| {
        assert text[s..s + 3][1] == text[s + 1];
      }
    }
    PackageGateBlocks(text, "SET");
  }

  /** The prose sentence the finding below is about. */
  const SetProse := "The SET gene is not relevant."

  /** The package gate admits the upper-case word SET in prose. */
  lemma PackageGateAdmitsProse()
    ensures FallbackHit(Package, SetProse, "SET")
  {
    var text := SetProse;
    assert text[4] == 'S' && text[5] == 'E' && text[6] == 'T';
    assert text[4..7] == "SET";
    assert text[3] == ' ' && text[7] == ' ';
    PackageGateAdmits(text, "SET", 4);
  }

  /** The prose sentence holds no backslash, so no `\b`-delimited symbol. */
  lemma ProseLacksBackslashB()
    ensures !Contains(SetProse, "\\bSET\\b")
  {
    var text := SetProse;
    var pat := "\\bSET\\b";
    assert '\\' !in text;
    forall i | 0 <= i <= |text| - |pat|
      ensures !OccursAt(text, pat, i)
    {
      assert text[i..i + |pat|][0] == text[i];
    }
  }

  /**
   * Finding: with the legacy gate, an upper-case common-word symbol in ordinary
   * prose is never found, although the gate's own comment asks only for a fully
   * capitalised occurrence; the package gate admits the same text.
   */
  lemma LegacyGateRejectsCapitalisedSymbol()
    ensures FallbackHit(Package, SetProse, "SET")
    ensures !FallbackHit(Legacy, SetProse, "SET")
  {
    PackageGateAdmitsProse();
    ProseLacksBackslashB();
    assert "\\b" + "SET" + "\\b" == "\\bSET\\b";
    assert !GatePasses(Legacy, SetProse, "SET");
  }
}
