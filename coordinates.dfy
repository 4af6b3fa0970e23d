/**
 * `add_coordinates` and `lift_hg38_to_hg19` (both copies of `get_coordinates.py`).
 * The Ensembl lookup is an oracle from a symbol value to the three hg38 values it
 * read, or `None`; pyliftover's `convert_coordinate` is an oracle from the
 * chromosome text and start value to its list of hits, or an exception.
 */
module Coordinates {
  import opened Wrappers
  import opened Text
  import opened Values

  /** What `get_ensembl_coordinates` returns when the lookup succeeds. */
  datatype Coords = Coords(chr: Value, start: Value, end: Value)

  /** What `lo.convert_coordinate(...)` does: raise, or return its hits as (chromosome, position). */
  datatype LiftOutcome = LiftRaised | LiftHits(hits: seq<(string, int)>)

  const Hg38Builds: set<string> := {"hg38", "both"}
  const Hg19Builds: set<string> := {"hg19", "both"}

  /** The six keys this pass may write. */
  const CoordKeys: set<string> := {"hg38_chr", "hg38_start", "hg38_end", "hg19_chr", "hg19_start", "hg19_end"}

  function Hg38Fields(chr: Value, start: Value, end: Value): Dict {
    [("hg38_chr", chr), ("hg38_start", start), ("hg38_end", end)]
  }

  function Hg19Fields(chr: Value, start: Value, end: Value): Dict {
    [("hg19_chr", chr), ("hg19_start", start), ("hg19_end", end)]
  }

  /** `lift_hg38_to_hg19(chrom, start)`: the first hit, or the all-`None` triple on failure. */
  function LiftHg38ToHg19(chrom: Value, start: Value, liftover: (string, Value) -> LiftOutcome): Dict {
    var outcome := liftover("chr" + Display(chrom), start);
    if outcome.LiftHits? && outcome.hits != [] then
      var (chr, pos) := outcome.hits[0];
      Hg19Fields(VStr(Replace(chr, "chr", "")), VInt(pos), VInt(pos + 1))
    else
      Hg19Fields(VNone, VNone, VNone)
  }

  /** The first `gene.update` of the loop body (the hg38 fields), for the lookup result `coords`. */
  function Hg38Part(build: string, coords: Option<Coords>): Dict {
    if build !in Hg38Builds then []
    else match coords
      case Some(c) => Hg38Fields(c.chr, c.start, c.end)
      case None => Hg38Fields(VNone, VNone, VNone)
  }

  /** The second `gene.update` of the loop body (the hg19 fields), for the lookup result `coords`. */
  function Hg19Part(build: string, coords: Option<Coords>, liftover: (string, Value) -> LiftOutcome): Dict {
    if build !in Hg19Builds then []
    else match coords
      case Some(c) => if Truthy(c.chr) && Truthy(c.start) then LiftHg38ToHg19(c.chr, c.start, liftover) else []
      case None => Hg19Fields(VNone, VNone, VNone)
  }

  /** Everything the loop body writes into one entry, in the order of its `gene.update` calls. */
  function CoordFields(build: string, coords: Option<Coords>, liftover: (string, Value) -> LiftOutcome): Dict {
    Hg38Part(build, coords) + Hg19Part(build, coords, liftover)
  }

  /** One entry after the loop body, given its symbol's lookup. */
  function CoordUpdate(d: Dict, build: string, ensembl: Value -> Option<Coords>,
                       liftover: (string, Value) -> LiftOutcome): Dict
  {
    Update(d, CoordFields(build, ensembl(Get(d, "symbol")), liftover))
  }

  /** The index of the first dictionary without key `k`, or the length when every one has it. */
  function FirstMissing(ds: seq<Dict>, k: string): (n: nat)
    ensures n <= |ds|
    ensures forall j :: 0 <= j < n ==> k in Keys(ds[j])
    ensures n < |ds| ==> k !in Keys(ds[n])
  {
    if ds == [] || k !in Keys(ds[0]) then 0 else 1 + FirstMissing(ds[1..], k)
  }

  lemma LookupHg38Fields(x: Value, y: Value, z: Value, k: string)
    ensures Lookup(Hg38Fields(x, y, z), k) ==
            if k == "hg38_chr" then Some(x) else if k == "hg38_start" then Some(y)
            else if k == "hg38_end" then Some(z) else None
  {
    var f := Hg38Fields(x, y, z);
    var f1: Dict := [("hg38_start", y), ("hg38_end", z)];
    var f2: Dict := [("hg38_end", z)];
    assert f[1..] == f1 && f1[1..] == f2 && f2[1..] == [];
    assert Lookup(f2, k) == if k == "hg38_end" then Some(z) else Lookup([], k);
    assert Lookup(f1, k) == if k == "hg38_start" then Some(y) else Lookup(f2, k);
    assert Lookup(f, k) == if k == "hg38_chr" then Some(x) else Lookup(f1, k);
  }

  lemma LookupHg19Fields(x: Value, y: Value, z: Value, k: string)
    ensures Lookup(Hg19Fields(x, y, z), k) ==
            if k == "hg19_chr" then Some(x) else if k == "hg19_start" then Some(y)
            else if k == "hg19_end" then Some(z) else None
  {
    var f := Hg19Fields(x, y, z);
    var f1: Dict := [("hg19_start", y), ("hg19_end", z)];
    var f2: Dict := [("hg19_end", z)];
    assert f[1..] == f1 && f1[1..] == f2 && f2[1..] == [];
    assert Lookup(f2, k) == if k == "hg19_end" then Some(z) else Lookup([], k);
    assert Lookup(f1, k) == if k == "hg19_start" then Some(y) else Lookup(f2, k);
    assert Lookup(f, k) == if k == "hg19_chr" then Some(x) else Lookup(f1, k);
  }

  /** Reading from a concatenated literal: the left part first, then the right part. */
  lemma {:induction false} LookupAppend(a: Dict, b: Dict, k: string)
    ensures Lookup(a + b, k) == if k in Keys(a) then Lookup(a, k) else Lookup(b, k)
  {
    if a != [] {
      assert Keys(a) == [a[0].0] + Keys(a[1..]);
      assert (a + b)[0] == a[0] && (a + b)[1..] == a[1..] + b;
      LookupAppend(a[1..], b, k);
    } else {
      assert a + b == b;
    }
  }

  /** What the two parts write, key by key. */
  lemma LookupCoordFields(build: string, coords: Option<Coords>, liftover: (string, Value) -> LiftOutcome, k: string)
    ensures Lookup(CoordFields(build, coords, liftover), k) ==
            if k in Keys(Hg38Part(build, coords)) then Lookup(Hg38Part(build, coords), k)
            else Lookup(Hg19Part(build, coords, liftover), k)
  {
    LookupAppend(Hg38Part(build, coords), Hg19Part(build, coords, liftover), k);
  }

  /** The body writes only coordinate keys, each once. */
  lemma CoordFieldsShape(build: string, coords: Option<Coords>, liftover: (string, Value) -> LiftOutcome)
    ensures DistinctKeys(CoordFields(build, coords, liftover))
    ensures forall k :: k in Keys(CoordFields(build, coords, liftover)) ==> k in CoordKeys
  {
    var f := CoordFields(build, coords, liftover);
    assert forall i :: 0 <= i < |f| ==> f[i].0 in CoordKeys;
    assert "hg38_chr"[2] != "hg19_chr"[2];
    assert "hg38_start"[2] != "hg19_start"[2];
    assert "hg38_end"[2] != "hg19_end"[2];
  }

  /** Reading a key after the body: a written key has its written value, any other key is untouched. */
  lemma LookupCoordUpdate(d: Dict, build: string, ensembl: Value -> Option<Coords>,
                          liftover: (string, Value) -> LiftOutcome, k: string)
    ensures var f := CoordFields(build, ensembl(Get(d, "symbol")), liftover);
            Lookup(CoordUpdate(d, build, ensembl, liftover), k) == if k in Keys(f) then Lookup(f, k) else Lookup(d, k)
  {
    CoordFieldsShape(build, ensembl(Get(d, "symbol")), liftover);
    LookupUpdate(d, CoordFields(build, ensembl(Get(d, "symbol")), liftover), k);
  }

  /** Every key other than the six coordinate keys reads as before, and the existing key order is kept. */
  lemma OtherKeysUnchanged(d: Dict, build: string, ensembl: Value -> Option<Coords>,
                           liftover: (string, Value) -> LiftOutcome, k: string)
    requires k !in CoordKeys
    ensures Lookup(CoordUpdate(d, build, ensembl, liftover), k) == Lookup(d, k)
    ensures Keys(d) <= Keys(CoordUpdate(d, build, ensembl, liftover))
  {
    LookupCoordUpdate(d, build, ensembl, liftover, k);
    CoordFieldsShape(build, ensembl(Get(d, "symbol")), liftover);
    KeysUpdate(d, CoordFields(build, ensembl(Get(d, "symbol")), liftover));
  }

  /** The symbol is never overwritten, so a second visit of the same dictionary looks up the same symbol. */
  lemma SymbolKept(d: Dict, build: string, ensembl: Value -> Option<Coords>, liftover: (string, Value) -> LiftOutcome)
    ensures Lookup(CoordUpdate(d, build, ensembl, liftover), "symbol") == Lookup(d, "symbol")
  {
    OtherKeysUnchanged(d, build, ensembl, liftover, "symbol");
  }

  /** Visiting the same dictionary twice (it occurs twice in the list) is the same as visiting it once. */
  lemma CoordUpdateTwice(d: Dict, build: string, ensembl: Value -> Option<Coords>,
                         liftover: (string, Value) -> LiftOutcome)
    ensures CoordUpdate(CoordUpdate(d, build, ensembl, liftover), build, ensembl, liftover) ==
            CoordUpdate(d, build, ensembl, liftover)
  {
    SymbolKept(d, build, ensembl, liftover);
    CoordFieldsShape(build, ensembl(Get(d, "symbol")), liftover);
    UpdateIdempotent(d, CoordFields(build, ensembl(Get(d, "symbol")), liftover));
  }

  /**
   * The loop body for one entry: `gene['symbol']` (reporting a missing key),
   * the lookup, and the two `gene.update` calls.
   */
  method VisitEntry(gene: Record, build: string, ensembl: Value -> Option<Coords>,
                    liftover: (string, Value) -> LiftOutcome)
    returns (found: bool)
    modifies gene
    ensures found <==> "symbol" in Keys(old(gene.fields))
    ensures found ==> gene.fields == Update(old(gene.fields), CoordFields(build, ensembl(Get(old(gene.fields), "symbol")), liftover))
    ensures !found ==> gene.fields == old(gene.fields)
  {
    var symbol := Lookup(gene.fields, "symbol");
    if symbol.None? {
      return false;
    }
    var coords := ensembl(symbol.value);
    UpdateAppend(gene.fields, Hg38Part(build, coords), Hg19Part(build, coords, liftover));
    gene.fields := Update(gene.fields, Hg38Part(build, coords));
    gene.fields := Update(gene.fields, Hg19Part(build, coords, liftover));
    return true;
  }

  /**
   * `add_coordinates(gene_entries, build)`. Each dictionary is updated in place
   * and the same list is returned; an entry without "symbol" raises `KeyError`
   * after the entries before it have been updated.
   */
  method AddCoordinates(entries: seq<Record>, build: string, ensembl: Value -> Option<Coords>,
                        liftover: (string, Value) -> LiftOutcome)
    returns (r: Result<seq<Record>, PyError>)
    modifies set e | e in entries
    ensures var n := FirstMissing(old(Contents(entries)), "symbol");
            && (r.Success? <==> n == |entries|)
            && (r.Success? ==> r.value == entries)
            && (r.Failure? ==> r.error == KeyError("symbol"))
            && forall e :: e in entries ==>
                 e.fields == if e in entries[..n] then CoordUpdate(old(e.fields), build, ensembl, liftover)
                             else old(e.fields)
  {
    ghost var ds := Contents(entries);
    ghost var n := FirstMissing(ds, "symbol");
    for i := 0 to |entries|
      invariant i <= n
      invariant forall e :: e in entries ==>
                  e.fields == if e in entries[..i] then CoordUpdate(old(e.fields), build, ensembl, liftover)
                              else old(e.fields)
    {
      var gene := entries[i];
      ghost var before := ds[i];
      ghost var visited := gene in entries[..i];
      ghost var current := gene.fields;
      assert current == if visited then CoordUpdate(before, build, ensembl, liftover) else before;
      SymbolPresence(before, current, visited, build, ensembl, liftover);
      StopsAt(ds, "symbol", i);
      var found := VisitEntry(gene, build, ensembl, liftover);
      if !found {
        assert entries[..n] == entries[..i];
        return Failure(KeyError("symbol"));
      }
      Visit(before, current, visited, build, ensembl, liftover);
      UpdateAppend(current, Hg38Part(build, ensembl(Get(current, "symbol"))),
                   Hg19Part(build, ensembl(Get(current, "symbol")), liftover));
      Advance(entries, i, gene);
      forall e | e in entries
        ensures e.fields == if e in entries[..i + 1] then CoordUpdate(old(e.fields), build, ensembl, liftover)
                            else old(e.fields)
      {
        if e != gene {
          assert e in entries[..i + 1] <==> e in entries[..i];
        }
      }
    }
    assert entries[..|entries|] == entries;
    return Success(entries);
  }

  /** Whether the entry has a symbol does not depend on whether it was visited before. */
  lemma SymbolPresence(before: Dict, current: Dict, visited: bool, build: string, ensembl: Value -> Option<Coords>,
                       liftover: (string, Value) -> LiftOutcome)
    requires current == if visited then CoordUpdate(before, build, ensembl, liftover) else before
    ensures "symbol" in Keys(current) <==> "symbol" in Keys(before)
  {
    SymbolKept(before, build, ensembl, liftover);
  }

  /** Below the first entry missing `k`, the entry at `i` has `k` exactly when the scan goes on past it. */
  lemma StopsAt(ds: seq<Dict>, k: string, i: nat)
    requires i <= FirstMissing(ds, k) && i < |ds|
    ensures k in Keys(ds[i]) <==> i < FirstMissing(ds, k)
  {
  }

  /** The prefix visited grows by the entry just visited. */
  lemma Advance(entries: seq<Record>, i: nat, gene: Record)
    requires i < |entries| && entries[i] == gene
    ensures entries[..i + 1] == entries[..i] + [gene]
  {
  }

  /** One visit of the loop body turns the entry into its updated form, whether or not it was visited before. */
  lemma Visit(before: Dict, current: Dict, visited: bool, build: string, ensembl: Value -> Option<Coords>,
              liftover: (string, Value) -> LiftOutcome)
    requires current == if visited then CoordUpdate(before, build, ensembl, liftover) else before
    ensures var coords := ensembl(Get(current, "symbol"));
            Update(Update(current, Hg38Part(build, coords)), Hg19Part(build, coords, liftover)) ==
            CoordUpdate(before, build, ensembl, liftover)
  {
    var coords := ensembl(Get(current, "symbol"));
    UpdateAppend(current, Hg38Part(build, coords), Hg19Part(build, coords, liftover));
    SymbolKept(before, build, ensembl, liftover);
    if visited {
      CoordUpdateTwice(before, build, ensembl, liftover);
    }
  }

  // ---------------------------------------------------------------------------
  // The field-update rules
  // ---------------------------------------------------------------------------

  /** A failed lookup with build "both" sets all six coordinate fields to `None`. */
  lemma MissingBoth(d: Dict, ensembl: Value -> Option<Coords>, liftover: (string, Value) -> LiftOutcome, k: string)
    requires ensembl(Get(d, "symbol")).None? && k in CoordKeys
    ensures Lookup(CoordUpdate(d, "both", ensembl, liftover), k) == Some(VNone)
  {
    LookupCoordUpdate(d, "both", ensembl, liftover, k);
    LookupCoordFields("both", None, liftover, k);
    LookupHg38Fields(VNone, VNone, VNone, k);
    LookupHg19Fields(VNone, VNone, VNone, k);
    CoordFieldsShape("both", None, liftover);
  }

  /** A failed lookup with build "hg38" sets only the three hg38 fields to `None`; hg19 keys are untouched. */
  lemma MissingHg38Only(d: Dict, ensembl: Value -> Option<Coords>, liftover: (string, Value) -> LiftOutcome, k: string)
    requires ensembl(Get(d, "symbol")).None? && k in CoordKeys
    ensures Lookup(CoordUpdate(d, "hg38", ensembl, liftover), k) ==
            if k in {"hg38_chr", "hg38_start", "hg38_end"} then Some(VNone) else Lookup(d, k)
  {
    LookupCoordUpdate(d, "hg38", ensembl, liftover, k);
    LookupCoordFields("hg38", None, liftover, k);
    LookupHg38Fields(VNone, VNone, VNone, k);
    assert Keys(Hg38Fields(VNone, VNone, VNone)) == ["hg38_chr", "hg38_start", "hg38_end"];
  }

  /** With coordinates and build "hg38" or "both", the hg38 fields are the lookup's values verbatim. */
  lemma Hg38Copied(d: Dict, build: string, ensembl: Value -> Option<Coords>, liftover: (string, Value) -> LiftOutcome)
    requires ensembl(Get(d, "symbol")).Some? && build in Hg38Builds
    ensures var c := ensembl(Get(d, "symbol")).value;
            var u := CoordUpdate(d, build, ensembl, liftover);
            Lookup(u, "hg38_chr") == Some(c.chr) && Lookup(u, "hg38_start") == Some(c.start) &&
            Lookup(u, "hg38_end") == Some(c.end)
  {
    var c := ensembl(Get(d, "symbol")).value;
    assert Keys(Hg38Fields(c.chr, c.start, c.end)) == ["hg38_chr", "hg38_start", "hg38_end"];
    CoordFieldsShape(build, Some(c), liftover);
    forall k | k in {"hg38_chr", "hg38_start", "hg38_end"}
      ensures Lookup(CoordUpdate(d, build, ensembl, liftover), k) == Lookup(Hg38Fields(c.chr, c.start, c.end), k)
    {
      LookupCoordUpdate(d, build, ensembl, liftover, k);
      LookupCoordFields(build, Some(c), liftover, k);
    }
    LookupHg38Fields(c.chr, c.start, c.end, "hg38_chr");
    LookupHg38Fields(c.chr, c.start, c.end, "hg38_start");
    LookupHg38Fields(c.chr, c.start, c.end, "hg38_end");
  }

  /** With build "hg38" no hg19 field is ever written, whatever the lookup returns. */
  lemma Hg38BuildLeavesHg19(d: Dict, ensembl: Value -> Option<Coords>, liftover: (string, Value) -> LiftOutcome,
                            k: string)
    requires k in {"hg19_chr", "hg19_start", "hg19_end"}
    ensures Lookup(CoordUpdate(d, "hg38", ensembl, liftover), k) == Lookup(d, k)
  {
    LookupCoordUpdate(d, "hg38", ensembl, liftover, k);
    LookupCoordFields("hg38", ensembl(Get(d, "symbol")), liftover, k);
    LookupHg38Fields(VNone, VNone, VNone, k);
    var coords := ensembl(Get(d, "symbol"));
    if coords.Some? {
      LookupHg38Fields(coords.value.chr, coords.value.start, coords.value.end, k);
    }
  }

  /**
   * With coordinates, the hg19 fields are written exactly when the build asks
   * for them and the hg38 chromosome and start are both truthy; they are then
   * the lift's triple, and otherwise they read as before.
   */
  lemma Hg19WhenLiftable(d: Dict, build: string, ensembl: Value -> Option<Coords>,
                         liftover: (string, Value) -> LiftOutcome, k: string)
    requires ensembl(Get(d, "symbol")).Some? && k in {"hg19_chr", "hg19_start", "hg19_end"}
    ensures var c := ensembl(Get(d, "symbol")).value;
            Lookup(CoordUpdate(d, build, ensembl, liftover), k) ==
            if build in Hg19Builds && Truthy(c.chr) && Truthy(c.start)
            then Lookup(LiftHg38ToHg19(c.chr, c.start, liftover), k)
            else Lookup(d, k)
  {
    LookupCoordUpdate(d, build, ensembl, liftover, k);
    var c := ensembl(Get(d, "symbol")).value;
    LookupCoordFields(build, Some(c), liftover, k);
    LookupHg38Fields(c.chr, c.start, c.end, k);
    assert Keys(Hg38Fields(c.chr, c.start, c.end)) == ["hg38_chr", "hg38_start", "hg38_end"];
    var lifted := LiftHg38ToHg19(c.chr, c.start, liftover);
    LiftShape(c.chr, c.start, liftover);
  }

  /** A build other than "hg38", "hg19" and "both" leaves every entry as it was. */
  lemma UnknownBuildNoOp(d: Dict, build: string, ensembl: Value -> Option<Coords>,
                         liftover: (string, Value) -> LiftOutcome)
    requires build !in Hg38Builds && build !in Hg19Builds
    ensures CoordUpdate(d, build, ensembl, liftover) == d
  {
    assert CoordFields(build, ensembl(Get(d, "symbol")), liftover) == [];
  }

  /** A lift with a hit gives `hg19_end == hg19_start + 1`; a failed or empty lift gives the all-`None` triple. */
  lemma LiftShape(chrom: Value, start: Value, liftover: (string, Value) -> LiftOutcome)
    ensures var f := LiftHg38ToHg19(chrom, start, liftover);
            var outcome := liftover("chr" + Display(chrom), start);
            && Keys(f) == ["hg19_chr", "hg19_start", "hg19_end"]
            && (if outcome.LiftHits? && outcome.hits != []
                then Lookup(f, "hg19_start") == Some(VInt(outcome.hits[0].1)) &&
                     Lookup(f, "hg19_end") == Some(VInt(outcome.hits[0].1 + 1))
                else Lookup(f, "hg19_chr") == Some(VNone) && Lookup(f, "hg19_start") == Some(VNone) &&
                     Lookup(f, "hg19_end") == Some(VNone))
  {
    var outcome := liftover("chr" + Display(chrom), start);
    if outcome.LiftHits? && outcome.hits != [] {
      var (chr, pos) := outcome.hits[0];
      var f := Hg19Fields(VStr(Replace(chr, "chr", "")), VInt(pos), VInt(pos + 1));
      assert Keys(f) == ["hg19_chr", "hg19_start", "hg19_end"];
      LookupHg19Fields(VStr(Replace(chr, "chr", "")), VInt(pos), VInt(pos + 1), "hg19_start");
      LookupHg19Fields(VStr(Replace(chr, "chr", "")), VInt(pos), VInt(pos + 1), "hg19_end");
    } else {
      assert Keys(Hg19Fields(VNone, VNone, VNone)) == ["hg19_chr", "hg19_start", "hg19_end"];
      LookupHg19Fields(VNone, VNone, VNone, "hg19_chr");
      LookupHg19Fields(VNone, VNone, VNone, "hg19_start");
      LookupHg19Fields(VNone, VNone, VNone, "hg19_end");
    }
  }

  /** The lifted chromosome loses its "chr" prefix: a hit on "chr" + t, with no "chr" in t, reads back as t. */
  lemma LiftStripsPrefix(chrom: Value, start: Value, liftover: (string, Value) -> LiftOutcome, t: string)
    requires var outcome := liftover("chr" + Display(chrom), start);
             outcome.LiftHits? && outcome.hits != [] && outcome.hits[0].0 == "chr" + t
    requires !Contains(t, "chr")
    ensures Lookup(LiftHg38ToHg19(chrom, start, liftover), "hg19_chr") == Some(VStr(t))
  {
    var s := "chr" + t;
    assert s[..3] == "chr" && s[3..] == t;
    ReplaceAbsent(t, "chr", "");
    assert Replace(s, "chr", "") == t;
    var pos := liftover("chr" + Display(chrom), start).hits[0].1;
    LookupHg19Fields(VStr(t), VInt(pos), VInt(pos + 1), "hg19_chr");
  }
}
