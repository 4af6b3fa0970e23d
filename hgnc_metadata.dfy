/**
 * `enrich_with_hgnc` (`src/paper2kb/get_hgnc_metadata.py`). The HGNC REST call
 * is an oracle from the symbol value to its outcome: an exception (raised by
 * the request, the JSON decoding or the response's shape), or a status code
 * with the list of documents under `response.docs`.
 */
module HgncMetadata {
  import opened Wrappers
  import opened Values

  datatype HgncResponse = HgncRaised | HgncReply(status: int, docs: seq<Dict>)

  /** The three keys this pass writes. */
  const HgncKeys: set<string> := {"hgnc_id", "name", "alias_symbol"}

  function HgncFields(id: Value, name: Value, aliases: Value): Dict {
    [("hgnc_id", id), ("name", name), ("alias_symbol", aliases)]
  }

  /** The `gene.update` literal for one response: the first document's fields, or the placeholders. */
  function HgncUpdateFor(response: HgncResponse): Dict {
    if response.HgncReply? && response.status == 200 && response.docs != [] then
      var doc := response.docs[0];
      var aliases := Get(doc, "alias_symbol");
      HgncFields(Get(doc, "hgnc_id"), Get(doc, "name"), if aliases.VList? then aliases else VList([]))
    else
      HgncFields(VNone, VNone, VList([]))
  }

  /** One entry after the loop body; `gene.get('symbol')` gives `None` when the key is missing. */
  function HgncUpdate(d: Dict, hgnc: Value -> HgncResponse): Dict {
    Update(d, HgncUpdateFor(hgnc(Get(d, "symbol"))))
  }

  lemma LookupHgncFields(x: Value, y: Value, z: Value, k: string)
    ensures Lookup(HgncFields(x, y, z), k) ==
            if k == "hgnc_id" then Some(x) else if k == "name" then Some(y)
            else if k == "alias_symbol" then Some(z) else None
  {
    var f := HgncFields(x, y, z);
    var f1: Dict := [("name", y), ("alias_symbol", z)];
    var f2: Dict := [("alias_symbol", z)];
    assert f[1..] == f1 && f1[1..] == f2 && f2[1..] == [];
    assert Lookup(f2, k) == if k == "alias_symbol" then Some(z) else Lookup([], k);
    assert Lookup(f1, k) == if k == "name" then Some(y) else Lookup(f2, k);
    assert Lookup(f, k) == if k == "hgnc_id" then Some(x) else Lookup(f1, k);
  }

  lemma HgncFieldsDistinct(x: Value, y: Value, z: Value)
    ensures DistinctKeys(HgncFields(x, y, z))
  {
  }

  /** Reading a key after the body: the three written keys have their new values, every other key is untouched. */
  lemma LookupHgncUpdate(d: Dict, hgnc: Value -> HgncResponse, k: string)
    ensures Lookup(HgncUpdate(d, hgnc), k) ==
            if k in HgncKeys then Lookup(HgncUpdateFor(hgnc(Get(d, "symbol"))), k) else Lookup(d, k)
  {
    var f := HgncUpdateFor(hgnc(Get(d, "symbol")));
    assert Keys(f) == ["hgnc_id", "name", "alias_symbol"];
    LookupUpdate(d, f, k);
  }

  /** Visiting the same dictionary twice is the same as visiting it once. */
  lemma HgncUpdateTwice(d: Dict, hgnc: Value -> HgncResponse)
    ensures HgncUpdate(HgncUpdate(d, hgnc), hgnc) == HgncUpdate(d, hgnc)
  {
    LookupHgncUpdate(d, hgnc, "symbol");
    var f := HgncUpdateFor(hgnc(Get(d, "symbol")));
    HgncFieldsDistinct(f[0].1, f[1].1, f[2].1);
    UpdateIdempotent(d, f);
  }

  /** The loop body for one entry: the symbol, the request, and the one `gene.update` its outcome selects. */
  method VisitGene(gene: Record, hgnc: Value -> HgncResponse)
    modifies gene
    ensures gene.fields == HgncUpdate(old(gene.fields), hgnc)
  {
    var symbol := Get(gene.fields, "symbol");
    var response := hgnc(symbol);
    if response.HgncReply? && response.status == 200 {
      var docs := response.docs;
      if docs != [] {
        var doc := docs[0];
        var aliases := Get(doc, "alias_symbol");
        gene.fields := Update(gene.fields, HgncFields(Get(doc, "hgnc_id"), Get(doc, "name"),
                                                       if aliases.VList? then aliases else VList([])));
      } else {
        gene.fields := Update(gene.fields, HgncFields(VNone, VNone, VList([])));
      }
    } else {
      gene.fields := Update(gene.fields, HgncFields(VNone, VNone, VList([])));
    }
  }

  /** A visit gives the updated form of the original entry, whether or not the entry was visited before. */
  lemma Visit(before: Dict, current: Dict, visited: bool, hgnc: Value -> HgncResponse)
    requires current == if visited then HgncUpdate(before, hgnc) else before
    ensures HgncUpdate(current, hgnc) == HgncUpdate(before, hgnc)
  {
    if visited {
      HgncUpdateTwice(before, hgnc);
    }
  }

  /** The prefix visited grows by the entry just visited. */
  lemma Advance(entries: seq<Record>, i: nat, gene: Record)
    requires i < |entries| && entries[i] == gene
    ensures entries[..i + 1] == entries[..i] + [gene]
  {
  }

  /**
   * `enrich_with_hgnc(gene_entries)`: every dictionary is updated in place and
   * appended to `enriched`, so the result lists the same objects in the same order.
   */
  method EnrichWithHgnc(entries: seq<Record>, hgnc: Value -> HgncResponse) returns (enriched: seq<Record>)
    modifies set e | e in entries
    ensures enriched == entries
    ensures forall e :: e in entries ==> e.fields == HgncUpdate(old(e.fields), hgnc)
  {
    enriched := [];
    for i := 0 to |entries|
      invariant enriched == entries[..i]
      invariant forall e :: e in entries ==>
                  e.fields == if e in entries[..i] then HgncUpdate(old(e.fields), hgnc) else old(e.fields)
    {
      var gene := entries[i];
      ghost var before := old(gene.fields);
      ghost var visited := gene in entries[..i];
      ghost var current := gene.fields;
      Visit(before, current, visited, hgnc);
      VisitGene(gene, hgnc);
      enriched := enriched + [gene];
      Advance(entries, i, gene);
      forall e | e in entries
        ensures e.fields == if e in entries[..i + 1] then HgncUpdate(old(e.fields), hgnc) else old(e.fields)
      {
        if e != gene {
          assert e in entries[..i + 1] <==> e in entries[..i];
        }
      }
    }
    assert entries[..|entries|] == entries;
  }

  /** Status 200 with documents: `hgnc_id` and `name` come from the first document. */
  lemma HgncFound(d: Dict, hgnc: Value -> HgncResponse)
    requires var r := hgnc(Get(d, "symbol")); r.HgncReply? && r.status == 200 && r.docs != []
    ensures var doc := hgnc(Get(d, "symbol")).docs[0];
            Lookup(HgncUpdate(d, hgnc), "hgnc_id") == Some(Get(doc, "hgnc_id")) &&
            Lookup(HgncUpdate(d, hgnc), "name") == Some(Get(doc, "name"))
  {
    var doc := hgnc(Get(d, "symbol")).docs[0];
    var aliases := Get(doc, "alias_symbol");
    var alias := if aliases.VList? then aliases else VList([]);
    LookupHgncUpdate(d, hgnc, "hgnc_id");
    LookupHgncUpdate(d, hgnc, "name");
    LookupHgncFields(Get(doc, "hgnc_id"), Get(doc, "name"), alias, "hgnc_id");
    LookupHgncFields(Get(doc, "hgnc_id"), Get(doc, "name"), alias, "name");
  }

  /**
   * `alias_symbol` is always a list: the first document's value when that is a
   * list, and `[]` in every other case.
   */
  lemma AliasAlwaysList(d: Dict, hgnc: Value -> HgncResponse)
    ensures var r := hgnc(Get(d, "symbol"));
            Lookup(HgncUpdate(d, hgnc), "alias_symbol") ==
            if r.HgncReply? && r.status == 200 && r.docs != [] && Get(r.docs[0], "alias_symbol").VList?
            then Some(Get(r.docs[0], "alias_symbol"))
            else Some(VList([]))
  {
    var f := HgncUpdateFor(hgnc(Get(d, "symbol")));
    LookupHgncUpdate(d, hgnc, "alias_symbol");
    LookupHgncFields(f[0].1, f[1].1, f[2].1, "alias_symbol");
  }

  /**
   * An exception, a status other than 200, or an empty document list all give
   * the placeholders (None, None, []); nothing is raised.
   */
  lemma HgncPlaceholders(d: Dict, hgnc: Value -> HgncResponse)
    requires var r := hgnc(Get(d, "symbol")); r.HgncRaised? || r.status != 200 || r.docs == []
    ensures Lookup(HgncUpdate(d, hgnc), "hgnc_id") == Some(VNone)
    ensures Lookup(HgncUpdate(d, hgnc), "name") == Some(VNone)
    ensures Lookup(HgncUpdate(d, hgnc), "alias_symbol") == Some(VList([]))
  {
    LookupHgncUpdate(d, hgnc, "hgnc_id");
    LookupHgncUpdate(d, hgnc, "name");
    LookupHgncUpdate(d, hgnc, "alias_symbol");
    LookupHgncFields(VNone, VNone, VList([]), "hgnc_id");
    LookupHgncFields(VNone, VNone, VList([]), "name");
    LookupHgncFields(VNone, VNone, VList([]), "alias_symbol");
  }

  /** Only `hgnc_id`, `name` and `alias_symbol` are written: every other key, and the key order, are kept. */
  lemma HgncOtherKeysUnchanged(d: Dict, hgnc: Value -> HgncResponse, k: string)
    requires k !in HgncKeys
    ensures Lookup(HgncUpdate(d, hgnc), k) == Lookup(d, k)
    ensures Keys(d) <= Keys(HgncUpdate(d, hgnc))
  {
    LookupHgncUpdate(d, hgnc, k);
    KeysUpdate(d, HgncUpdateFor(hgnc(Get(d, "symbol"))));
  }
}
