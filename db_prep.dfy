/**
 * `split_safe` (identical in `scripts/load_sqlite_db.py` and
 * `streamlit_app/app.py`) and `prepare_db_insert_data` (`streamlit_app/app.py`):
 * turning records read back from the CSV output into rows for the database.
 */
module DbPrep {
  import opened Wrappers
  import opened Text
  import opened Values
  import opened WriteOutput

  /** `[s.strip() for s in parts if s.strip()]` */
  function Pieces(parts: seq<string>): (r: seq<Value>)
    ensures forall i :: 0 <= i < |r| ==> r[i].VStr? && r[i].s != []
  {
    if parts == [] then []
    else
      var p := Strip(parts[0]);
      (if p != [] then [VStr(p)] else []) + Pieces(parts[1..])
  }

  /** `split_safe(val)`: a list as it is, a string split on ";" into stripped non-empty pieces, anything else `[]`. */
  function SplitSafe(v: Value): (r: seq<Value>)
    ensures v.VList? ==> r == v.items
    ensures !v.VList? && !v.VStr? ==> r == []
  {
    match v
    case VList(items) => items
    case VStr(s) => Pieces(Split(s, ';'))
    case _ => []
  }

  /** No piece of a split string is empty or holds a ";". */
  lemma SplitSafePieces(s: string)
    ensures forall i :: 0 <= i < |SplitSafe(VStr(s))| ==>
              SplitSafe(VStr(s))[i].VStr? && SplitSafe(VStr(s))[i].s != [] && ';' !in SplitSafe(VStr(s))[i].s
  {
    PiecesFree(Split(s, ';'));
  }

  /** Pieces of separator-free parts are separator-free. */
  lemma {:induction false} PiecesFree(parts: seq<string>)
    requires forall i :: 0 <= i < |parts| ==> ';' !in parts[i]
    ensures forall i :: 0 <= i < |Pieces(parts)| ==> ';' !in Pieces(parts)[i].s
  {
    if parts != [] {
      PiecesFree(parts[1..]);
      StripFree(parts[0], ';');
    }
  }

  /** A value `"; ".join` can round-trip: non-empty, no surrounding whitespace, no ";". */
  predicate Clean(x: string) {
    x != [] && !IsSpace(x[0]) && !IsSpace(x[|x| - 1]) && ';' !in x
  }

  lemma StripClean(x: string)
    requires Clean(x)
    ensures Strip(x) == x && Strip(" " + x) == x
  {
    assert (" " + x)[1..] == x;
  }

  /** Every string behind one space. */
  function Spaced(xs: seq<string>): seq<string> {
    if xs == [] then [] else [" " + xs[0]] + Spaced(xs[1..])
  }

  /** Every string as a `str` value. */
  function Strs(xs: seq<string>): seq<Value> {
    if xs == [] then [] else [VStr(xs[0])] + Strs(xs[1..])
  }

  /** Splitting a "; "-joined list on ";" gives the first item and then every other item behind one space. */
  lemma {:induction false} SplitJoin(xs: seq<string>)
    requires |xs| >= 1 && forall i :: 0 <= i < |xs| ==> ';' !in xs[i]
    ensures Split(Join(xs, "; "), ';') == [xs[0]] + Spaced(xs[1..])
  {
    if |xs| == 1 {
      SplitFree(xs[0], ';');
    } else {
      var rest := Join(xs[1..], "; ");
      SplitJoin(xs[1..]);
      assert Join(xs, "; ") == xs[0] + [';'] + (" " + rest);
      SplitAt(xs[0], " " + rest, ';');
      var r := Split(rest, ';');
      assert (" " + rest)[1..] == rest;
      assert Split(" " + rest, ';') == [" " + r[0]] + r[1..];
    }
  }

  lemma {:induction false} PiecesSpaced(xs: seq<string>)
    requires forall i :: 0 <= i < |xs| ==> Clean(xs[i])
    ensures Pieces(Spaced(xs)) == Strs(xs)
  {
    if xs != [] {
      StripClean(xs[0]);
      PiecesSpaced(xs[1..]);
      assert Spaced(xs)[1..] == Spaced(xs[1..]);
    }
  }

  lemma SplitSafeEmpty()
    ensures SplitSafe(VStr(Join([], "; "))) == Strs([])
  {
    var s := Join([], "; ");
    assert s == [];
    PiecesOfEmpty();
    SplitSafeOfPieces(s, []);
  }

  lemma PiecesOfEmpty()
    ensures Pieces(Split([], ';')) == Strs([])
  {
    var parts := Split([], ';');
    assert parts == [[]];
    assert Strip([]) == [];
    assert parts[1..] == [];
  }

  lemma PiecesCons(p: string, ps: seq<string>)
    requires Clean(p)
    ensures Pieces([p] + ps) == [VStr(p)] + Pieces(ps)
  {
    StripClean(p);
    assert ([p] + ps)[1..] == ps;
  }

  /** `split_safe("; ".join(xs)) == xs` for clean items. */
  lemma SplitSafeJoin(xs: seq<string>)
    requires forall i :: 0 <= i < |xs| ==> Clean(xs[i])
    ensures SplitSafe(VStr(Join(xs, "; "))) == Strs(xs)
  {
    if xs == [] {
      SplitSafeEmpty();
    } else {
      var s := Join(xs, "; ");
      var parts := Split(s, ';');
      SplitJoin(xs);
      PiecesOfParts(parts, xs);
      SplitSafeOfPieces(s, xs);
    }
  }

  lemma SplitSafeOfPieces(s: string, xs: seq<string>)
    requires Pieces(Split(s, ';')) == Strs(xs)
    ensures SplitSafe(VStr(s)) == Strs(xs)
  {
  }

  lemma PiecesOfParts(parts: seq<string>, xs: seq<string>)
    requires xs != [] && forall i :: 0 <= i < |xs| ==> Clean(xs[i])
    requires parts == [xs[0]] + Spaced(xs[1..])
    ensures Pieces(parts) == Strs(xs)
  {
    PiecesCons(xs[0], Spaced(xs[1..]));
    PiecesSpaced(xs[1..]);
  }

  lemma {:induction false} StrsOfStrings(items: seq<Value>)
    requires AllStrings(items)
    ensures Strs(StringsOf(items)) == items
  {
    if items != [] {
      assert StringsOf(items)[1..] == StringsOf(items[1..]);
      StrsOfStrings(items[1..]);
    }
  }

  /** A list of clean strings written by the CSV flattening comes back as the same list. */
  lemma FlattenThenSplit(items: seq<Value>)
    requires AllStrings(items) && forall i :: 0 <= i < |items| ==> Clean(items[i].s)
    ensures FlattenValue(VList(items)).Success?
    ensures SplitSafe(FlattenValue(VList(items)).value) == items
  {
    SplitSafeJoin(StringsOf(items));
    StrsOfStrings(items);
  }

  /** The ten columns of a database row, in order. */
  const DbKeys: seq<string> := ["hgnc_id", "name", "diseases", "alias_symbol",
    "hg38_chr", "hg38_start", "hg38_end", "hg19_chr", "hg19_start", "hg19_end"]

  /** One column's value: the two list columns through `split_safe`, the others `item.get(k)`. */
  function CleanValue(item: Dict, k: string): Value {
    if k == "diseases" || k == "alias_symbol" then VList(SplitSafe(Get(item, k))) else Get(item, k)
  }

  /** The dictionary appended to `cleaned` for one record. */
  function CleanRecord(item: Dict): Dict {
    seq(|DbKeys|, i requires 0 <= i < |DbKeys| => (DbKeys[i], CleanValue(item, DbKeys[i])))
  }

  /** `prepare_db_insert_data`: one cleaned record per input record, in order. */
  method PrepareDbInsertData(records: seq<Dict>) returns (cleaned: seq<Dict>)
    ensures |cleaned| == |records|
    ensures forall i :: 0 <= i < |records| ==> cleaned[i] == CleanRecord(records[i])
  {
    cleaned := [];
    for i := 0 to |records|
      invariant |cleaned| == i
      invariant forall j :: 0 <= j < i ==> cleaned[j] == CleanRecord(records[j])
    {
      var item := records[i];
      cleaned := cleaned + [CleanRecord(item)];
    }
  }

  lemma DbKeysDistinct()
    ensures forall i, j :: 0 <= i < j < |DbKeys| ==> DbKeys[i] != DbKeys[j]
  {
    assert "diseases"[0] != "hg38_chr"[0];
    assert "hg38_chr"[2] != "hg19_chr"[2] && "hg38_end"[2] != "hg19_end"[2];
    assert "hg38_chr"[5] != "hg38_end"[5] && "hg19_chr"[5] != "hg19_end"[5];
    assert "hg38_chr"[5] != "hg19_end"[5] && "hg38_end"[5] != "hg19_chr"[5];
    assert "hg38_start"[2] != "hg19_start"[2];
  }

  /**
   * A cleaned record has exactly the ten columns, in order, each once; the two
   * list columns are lists, and a column the input lacks is `None`. Input keys
   * outside the ten are dropped.
   */
  lemma CleanRecordShape(item: Dict, k: string)
    ensures Keys(CleanRecord(item)) == DbKeys && DistinctKeys(CleanRecord(item))
    ensures k !in DbKeys ==> k !in Keys(CleanRecord(item))
    ensures k in DbKeys ==> Lookup(CleanRecord(item), k) == Some(CleanValue(item, k))
    ensures k == "diseases" || k == "alias_symbol" ==> CleanValue(item, k).VList?
    ensures k != "diseases" && k != "alias_symbol" && k !in Keys(item) ==> CleanValue(item, k) == VNone
  {
    var c := CleanRecord(item);
    assert Keys(c) == DbKeys;
    DbKeysDistinct();
    if k in DbKeys {
      var i :| 0 <= i < |DbKeys| && DbKeys[i] == k;
      LookupOwn(c, i);
    }
  }
}
