/**
 * The HGNC vocabulary loader, `load_hgnc_reference`: each row of the reference
 * table adds its upper-cased symbol to `HGNC_SYMBOLS` and maps each of its
 * pipe-separated, upper-cased aliases to that symbol in `HGNC_ALIASES`. The two
 * globals are the fields of `Reference`; loading adds to them and never clears them.
 */
module Vocabulary {
  import opened Text

  /** One row of the reference table: its `symbol` and `alias_symbol` columns (a missing field reads as ""). */
  datatype Row = Row(symbol: string, aliasField: string)

  /** A snapshot of the two globals. */
  datatype Vocab = Vocab(symbols: set<string>, aliases: map<string, string>)

  /** The upper-cased aliases a row writes; an empty field writes none. */
  function RowAliases(row: Row): set<string> {
    if row.aliasField != "" then UpperAll(Split(row.aliasField, '|')) else {}
  }

  function UpperAll(parts: seq<string>): set<string> {
    set p | p in parts :: Upper(p)
  }

  /** `HGNC_ALIASES[alias.upper()] = symbol` for each piece, in order. */
  function AddAliases(aliases: map<string, string>, parts: seq<string>, symbol: string): map<string, string>
    decreases |parts|
  {
    if parts == [] then aliases
    else AddAliases(aliases, parts[..|parts| - 1], symbol)[Upper(parts[|parts| - 1]) := symbol]
  }

  /** The effect of one row on the globals. */
  function LoadRow(v: Vocab, row: Row): Vocab {
    var symbol := Upper(row.symbol);
    Vocab(v.symbols + {symbol},
          if row.aliasField != "" then AddAliases(v.aliases, Split(row.aliasField, '|'), symbol)
          else v.aliases)
  }

  /** The effect of loading `rows` in order onto the globals `v`. */
  function LoadRows(v: Vocab, rows: seq<Row>): Vocab
    decreases |rows|
  {
    if rows == [] then v else LoadRow(LoadRows(v, rows[..|rows| - 1]), rows[|rows| - 1])
  }

  /** Every alias names a symbol of the vocabulary. */
  ghost predicate Closed(v: Vocab) {
    forall a :: a in v.aliases ==> v.aliases[a] in v.symbols
  }

  /** Symbols and aliases are stored upper-cased. */
  ghost predicate UpperCased(v: Vocab) {
    && (forall s :: s in v.symbols ==> Upper(s) == s)
    && (forall a :: a in v.aliases ==> Upper(a) == a)
  }

  ghost predicate Valid(v: Vocab) {
    Closed(v) && UpperCased(v)
  }

  /** The process-wide `HGNC_SYMBOLS` and `HGNC_ALIASES`. */
  class Reference {
    var symbols: set<string>
    var aliases: map<string, string>

    function State(): Vocab
      reads this
    {
      Vocab(symbols, aliases)
    }

    /** Both globals start empty. */
    constructor ()
      ensures symbols == {} && aliases == map[]
      ensures Valid(State())
    {
      symbols := {};
      aliases := map[];
    }

    /** `load_hgnc_reference`, with the parsed rows of the file in place of its path. */
    method Load(rows: seq<Row>)
      modifies this
      ensures State() == LoadRows(old(State()), rows)
      ensures Valid(old(State())) ==> Valid(State())
    {
      for i := 0 to |rows|
        invariant State() == LoadRows(old(State()), rows[..i])
      {
        assert rows[..i + 1][..i] == rows[..i];
        ghost var prev := State();
        var row := rows[i];
        var symbol := Upper(row.symbol);
        symbols := symbols + {symbol};
        if row.aliasField != "" {
          var parts := Split(row.aliasField, '|');
          ghost var before := aliases;
          for j := 0 to |parts|
            invariant aliases == AddAliases(before, parts[..j], symbol)
            invariant symbols == prev.symbols + {symbol}
          {
            assert parts[..j + 1][..j] == parts[..j];
            aliases := aliases[Upper(parts[j]) := symbol];
          }
          assert parts[..|parts|] == parts;
        }
        assert State() == LoadRow(prev, row);
      }
      assert rows[..|rows|] == rows;
      if Valid(old(State())) {
        LoadKeepsValid(old(State()), rows);
      }
    }
  }

  /** What one field's aliases do to the map: each listed alias now names `symbol`, the rest are untouched. */
  lemma {:induction false} AddAliasesEffect(aliases: map<string, string>, parts: seq<string>, symbol: string, a: string)
    ensures a in UpperAll(parts) ==> a in AddAliases(aliases, parts, symbol) && AddAliases(aliases, parts, symbol)[a] == symbol
    ensures a !in UpperAll(parts) ==>
              (a in AddAliases(aliases, parts, symbol) <==> a in aliases) &&
              (a in aliases ==> AddAliases(aliases, parts, symbol)[a] == aliases[a])
    decreases |parts|
  {
    if parts != [] {
      var init := parts[..|parts| - 1];
      var last := parts[|parts| - 1];
      AddAliasesEffect(aliases, init, symbol, a);
      assert UpperAll(parts) == UpperAll(init) + {Upper(last)} by {
        assert parts == init + [last];
      }
    }
  }

  /** What one row does to the alias map. */
  lemma LoadRowAliases(v: Vocab, row: Row, a: string)
    ensures a in RowAliases(row) ==> a in LoadRow(v, row).aliases && LoadRow(v, row).aliases[a] == Upper(row.symbol)
    ensures a !in RowAliases(row) ==>
              (a in LoadRow(v, row).aliases <==> a in v.aliases) &&
              (a in v.aliases ==> LoadRow(v, row).aliases[a] == v.aliases[a])
  {
    if row.aliasField != "" {
      AddAliasesEffect(v.aliases, Split(row.aliasField, '|'), Upper(row.symbol), a);
    }
  }

  /**
   * Loading keeps the vocabulary closed and upper-cased: each alias is written
   * together with its row's symbol, which that row has just added.
   */
  lemma {:induction false} LoadKeepsValid(v: Vocab, rows: seq<Row>)
    requires Valid(v)
    ensures Valid(LoadRows(v, rows))
    decreases |rows|
  {
    if rows != [] {
      var w := LoadRows(v, rows[..|rows| - 1]);
      var row := rows[|rows| - 1];
      LoadKeepsValid(v, rows[..|rows| - 1]);
      UpperIdempotent(row.symbol);
      forall a | a in LoadRow(w, row).aliases
        ensures LoadRow(w, row).aliases[a] in LoadRow(w, row).symbols && Upper(a) == a
      {
        LoadRowAliases(w, row, a);
        if a in RowAliases(row) {
          var p :| p in Split(row.aliasField, '|') && Upper(p) == a;
          UpperIdempotent(p);
        }
      }
    }
  }

  /** After loading, the symbols are the old ones plus every row's upper-cased symbol. */
  lemma {:induction false} LoadSymbols(v: Vocab, rows: seq<Row>)
    ensures LoadRows(v, rows).symbols == v.symbols + set r | r in rows :: Upper(r.symbol)
    decreases |rows|
  {
    if rows != [] {
      var init := rows[..|rows| - 1];
      LoadSymbols(v, init);
      assert rows == init + [rows[|rows| - 1]];
      assert (set r | r in rows :: Upper(r.symbol)) ==
             (set r | r in init :: Upper(r.symbol)) + {Upper(rows[|rows| - 1].symbol)};
    }
  }

  /**
   * Last write wins: an alias listed by row `k` and by no later row names row
   * `k`'s symbol after loading, whatever earlier rows or earlier loads said.
   */
  lemma {:induction false} LastAliasWins(v: Vocab, rows: seq<Row>, k: nat, a: string)
    requires k < |rows| && a in RowAliases(rows[k])
    requires forall j :: k < j < |rows| ==> a !in RowAliases(rows[j])
    ensures a in LoadRows(v, rows).aliases && LoadRows(v, rows).aliases[a] == Upper(rows[k].symbol)
    decreases |rows|
  {
    var init := rows[..|rows| - 1];
    LoadRowAliases(LoadRows(v, init), rows[|rows| - 1], a);
    if k < |rows| - 1 {
      LastAliasWins(v, init, k, a);
    }
  }

  /**
   * Loading never clears: an alias no row lists keeps its old mapping, and
   * every old symbol stays.
   */
  lemma {:induction false} LoadKeepsUnlisted(v: Vocab, rows: seq<Row>, a: string)
    requires forall j :: 0 <= j < |rows| ==> a !in RowAliases(rows[j])
    ensures v.symbols <= LoadRows(v, rows).symbols
    ensures a in LoadRows(v, rows).aliases <==> a in v.aliases
    ensures a in v.aliases ==> LoadRows(v, rows).aliases[a] == v.aliases[a]
    decreases |rows|
  {
    if rows != [] {
      var init := rows[..|rows| - 1];
      LoadKeepsUnlisted(v, init, a);
      LoadRowAliases(LoadRows(v, init), rows[|rows| - 1], a);
    }
  }
}
