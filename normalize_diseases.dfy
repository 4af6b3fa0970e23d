/**
 * `normalize_diseases` and the result selection of `query_ols_for_disease`
 * (`src/paper2kb/normalize_diseases.py`). The OLS search is an oracle from the
 * disease value to its outcome: an exception (raised by the request, the JSON
 * decoding or the response's shape), or the list under `response.docs`.
 */
module NormalizeDiseases {
  import opened Wrappers
  import opened Values

  datatype OlsResponse = OlsRaised | OlsDocs(docs: seq<Dict>)

  /** `query_ols_for_disease`: the top document's `label` and `obo_id`, or `None` for no result or an exception. */
  function QueryOls(response: OlsResponse): (r: Option<Dict>)
    ensures r.Some? <==> response.OlsDocs? && response.docs != []
    ensures r.Some? ==> Keys(r.value) == ["label", "mondo_id"]
  {
    if response.OlsRaised? || response.docs == [] then None
    else
      var top := response.docs[0];
      Some([("label", Get(top, "label")), ("mondo_id", Get(top, "obo_id"))])
  }

  /** The element appended for one disease: the lookup's dictionary, or `{label: disease, mondo_id: None}`. */
  function NormalizeOne(ols: Value -> OlsResponse, disease: Value): Value {
    match QueryOls(ols(disease))
    case Some(mondo) => VDict(mondo)
    case None => VDict([("label", disease), ("mondo_id", VNone)])
  }

  /** `gene.get("diseases", [])` */
  function DiseasesOf(d: Dict): Value {
    match Lookup(d, "diseases")
    case Some(v) => v
    case None => VList([])
  }

  /**
   * `for disease in v`: a list yields its items, a string its characters, a
   * dictionary its keys; anything else raises `TypeError`.
   */
  function Iterate(v: Value): (r: Result<seq<Value>, PyError>)
    ensures r.Failure? <==> !(v.VList? || v.VStr? || v.VDict?)
    ensures v.VList? ==> r == Success(v.items)
  {
    match v
    case VList(items) => Success(items)
    case VStr(s) => Success(seq(|s|, i requires 0 <= i < |s| => VStr([s[i]])))
    case VDict(entries) => Success(seq(|entries|, i requires 0 <= i < |entries| => VStr(entries[i].0)))
    case _ => Failure(TypeError)
  }

  /** Whether the loop can iterate over this entry's diseases. */
  predicate Iterable(d: Dict) {
    Iterate(DiseasesOf(d)).Success?
  }

  /** The `normalized` list built for an entry whose diseases iterate as `items`. */
  function NormalizedList(ols: Value -> OlsResponse, items: seq<Value>): (r: seq<Value>)
    ensures |r| == |items|
  {
    seq(|items|, i requires 0 <= i < |items| => NormalizeOne(ols, items[i]))
  }

  /** One iterable entry after the loop body: `normalized_diseases` set, nothing else changed. */
  function NormalizeUpdate(d: Dict, ols: Value -> OlsResponse): Dict
    requires Iterable(d)
  {
    Put(d, "normalized_diseases", VList(NormalizedList(ols, Iterate(DiseasesOf(d)).value)))
  }

  /** The index of the first dictionary whose diseases cannot be iterated, or the length when all can. */
  function FirstNotIterable(ds: seq<Dict>): (n: nat)
    ensures n <= |ds|
    ensures forall j :: 0 <= j < n ==> Iterable(ds[j])
    ensures n < |ds| ==> !Iterable(ds[n])
  {
    if ds == [] || !Iterable(ds[0]) then 0 else 1 + FirstNotIterable(ds[1..])
  }

  /** The inner loop over one entry's diseases. */
  method NormalizeList(ols: Value -> OlsResponse, items: seq<Value>) returns (normalized: seq<Value>)
    ensures normalized == NormalizedList(ols, items)
  {
    normalized := [];
    for i := 0 to |items|
      invariant normalized == NormalizedList(ols, items[..i])
    {
      var mondo := QueryOls(ols(items[i]));
      if mondo.Some? {
        normalized := normalized + [VDict(mondo.value)];
      } else {
        normalized := normalized + [VDict([("label", items[i]), ("mondo_id", VNone)])];
      }
    }
    assert items[..|items|] == items;
  }

  /** The diseases key is never written, so a second visit recomputes the same list. */
  lemma DiseasesKept(d: Dict, ols: Value -> OlsResponse)
    requires Iterable(d)
    ensures DiseasesOf(NormalizeUpdate(d, ols)) == DiseasesOf(d)
  {
    LookupPut(d, "normalized_diseases", VList(NormalizedList(ols, Iterate(DiseasesOf(d)).value)), "diseases");
  }

  /** Visiting the same dictionary twice is the same as visiting it once. */
  lemma NormalizeUpdateTwice(d: Dict, ols: Value -> OlsResponse)
    requires Iterable(d)
    ensures Iterable(NormalizeUpdate(d, ols))
    ensures NormalizeUpdate(NormalizeUpdate(d, ols), ols) == NormalizeUpdate(d, ols)
  {
    DiseasesKept(d, ols);
    var v := VList(NormalizedList(ols, Iterate(DiseasesOf(d)).value));
    LookupPut(d, "normalized_diseases", v, "normalized_diseases");
    PutPresent(Put(d, "normalized_diseases", v), "normalized_diseases", v);
  }

  /**
   * The loop body for one entry: iterate its diseases (reporting a value that
   * cannot be iterated), build the list, and assign it.
   */
  method VisitEntry(gene: Record, ols: Value -> OlsResponse) returns (ok: bool)
    modifies gene
    ensures ok <==> Iterable(old(gene.fields))
    ensures ok ==> gene.fields == NormalizeUpdate(old(gene.fields), ols)
    ensures !ok ==> gene.fields == old(gene.fields)
  {
    var diseases := Iterate(DiseasesOf(gene.fields));
    if diseases.Failure? {
      return false;
    }
    var normalized := NormalizeList(ols, diseases.value);
    gene.fields := Put(gene.fields, "normalized_diseases", VList(normalized));
    return true;
  }

  /** A visit behaves the same whether or not the entry was visited before. */
  lemma Visit(before: Dict, current: Dict, visited: bool, ols: Value -> OlsResponse)
    requires visited ==> Iterable(before)
    requires current == if visited then NormalizeUpdate(before, ols) else before
    ensures Iterable(current) <==> Iterable(before)
    ensures Iterable(before) ==> NormalizeUpdate(current, ols) == NormalizeUpdate(before, ols)
  {
    if visited {
      DiseasesKept(before, ols);
      NormalizeUpdateTwice(before, ols);
    }
  }

  /** Below the first entry that cannot be iterated, the entry at `i` iterates exactly when the scan goes on past it. */
  lemma StopsAt(ds: seq<Dict>, i: nat)
    requires i <= FirstNotIterable(ds) && i < |ds|
    ensures Iterable(ds[i]) <==> i < FirstNotIterable(ds)
  {
  }

  /** The prefix visited grows by the entry just visited. */
  lemma Advance(entries: seq<Record>, i: nat, gene: Record)
    requires i < |entries| && entries[i] == gene
    ensures entries[..i + 1] == entries[..i] + [gene]
  {
  }

  /**
   * `normalize_diseases(gene_entries)`: each dictionary gets `normalized_diseases`
   * in place and the same list is returned; an entry whose `diseases` value is
   * not iterable raises `TypeError` after the entries before it were updated.
   */
  method NormalizeDiseasesPass(entries: seq<Record>, ols: Value -> OlsResponse)
    returns (r: Result<seq<Record>, PyError>)
    modifies set e | e in entries
    ensures var n := FirstNotIterable(old(Contents(entries)));
            && (r.Success? <==> n == |entries|)
            && (r.Success? ==> r.value == entries)
            && (r.Failure? ==> r.error == TypeError)
            && forall e :: e in entries ==>
                 if e in entries[..n] then Iterable(old(e.fields)) && e.fields == NormalizeUpdate(old(e.fields), ols)
                 else e.fields == old(e.fields)
  {
    ghost var ds := Contents(entries);
    ghost var n := FirstNotIterable(ds);
    for i := 0 to |entries|
      invariant i <= n
      invariant forall e :: e in entries ==>
                  if e in entries[..i] then Iterable(old(e.fields)) && e.fields == NormalizeUpdate(old(e.fields), ols)
                  else e.fields == old(e.fields)
    {
      var gene := entries[i];
      ghost var before := ds[i];
      ghost var visited := gene in entries[..i];
      ghost var current := gene.fields;
      assert (visited ==> Iterable(before)) &&
             current == if visited then NormalizeUpdate(before, ols) else before;
      Visit(before, current, visited, ols);
      StopsAt(ds, i);
      var ok := VisitEntry(gene, ols);
      if !ok {
        assert entries[..n] == entries[..i];
        return Failure(TypeError);
      }
      Advance(entries, i, gene);
      forall e | e in entries
        ensures if e in entries[..i + 1] then Iterable(old(e.fields)) && e.fields == NormalizeUpdate(old(e.fields), ols)
                else e.fields == old(e.fields)
      {
        if e != gene {
          assert e in entries[..i + 1] <==> e in entries[..i];
        }
      }
    }
    assert entries[..|entries|] == entries;
    return Success(entries);
  }

  /** The normalized list matches the diseases one for one, in order: a hit gives the top document, a miss the fallback. */
  lemma NormalizedElements(d: Dict, ols: Value -> OlsResponse, i: nat)
    requires DiseasesOf(d).VList? && i < |DiseasesOf(d).items|
    ensures var disease := DiseasesOf(d).items[i];
            var top := ols(disease);
            Lookup(NormalizeUpdate(d, ols), "normalized_diseases") ==
              Some(VList(NormalizedList(ols, DiseasesOf(d).items))) &&
            NormalizedList(ols, DiseasesOf(d).items)[i] ==
              if top.OlsDocs? && top.docs != []
              then VDict([("label", Get(top.docs[0], "label")), ("mondo_id", Get(top.docs[0], "obo_id"))])
              else VDict([("label", disease), ("mondo_id", VNone)])
  {
    LookupPut(d, "normalized_diseases", VList(NormalizedList(ols, DiseasesOf(d).items)), "normalized_diseases");
  }

  /** An entry without a `diseases` key gets `normalized_diseases == []`. */
  lemma NoDiseasesKey(d: Dict, ols: Value -> OlsResponse)
    requires "diseases" !in Keys(d)
    ensures Iterable(d)
    ensures Lookup(NormalizeUpdate(d, ols), "normalized_diseases") == Some(VList([]))
  {
    LookupPut(d, "normalized_diseases", VList([]), "normalized_diseases");
  }

  /** Only `normalized_diseases` is written: every other key, and the key order, are kept. */
  lemma NormalizeOtherKeysUnchanged(d: Dict, ols: Value -> OlsResponse, k: string)
    requires Iterable(d) && k != "normalized_diseases"
    ensures Lookup(NormalizeUpdate(d, ols), k) == Lookup(d, k)
    ensures Keys(d) <= Keys(NormalizeUpdate(d, ols))
  {
    var v := VList(NormalizedList(ols, Iterate(DiseasesOf(d)).value));
    LookupPut(d, "normalized_diseases", v, k);
    KeysPut(d, "normalized_diseases", v);
  }
}
