/**
 * The Python values the records carry, and dictionaries as the source uses them:
 * insertion-ordered, read with `d[k]` or `d.get(k)`, written with `d[k] = v` and
 * `d.update({...})`. A dictionary object that the source mutates in place is a
 * `Record`, whose one field is the dictionary's current contents.
 */
module Values {
  import opened Wrappers
  import opened Text

  datatype Value =
    | VNone
    | VBool(b: bool)
    | VInt(i: int)
    | VStr(s: string)
    | VList(items: seq<Value>)
    | VDict(entries: seq<(string, Value)>)
      /** Any other scalar (a float, pandas' NaN), with its `str()` text and truth value. */
    | VOther(text: string, truthy: bool)

  /** A dictionary with string keys, in insertion order. */
  type Dict = seq<(string, Value)>

  /** The exceptions the modelled code raises. */
  datatype PyError = KeyError(key: string) | TypeError | ValueError(message: string)

  /** Python's truth value of `v` (`if v:`). */
  predicate Truthy(v: Value) {
    match v
    case VNone => false
    case VBool(b) => b
    case VInt(i) => i != 0
    case VStr(s) => s != []
    case VList(items) => items != []
    case VDict(entries) => entries != []
    case VOther(_, t) => t
  }

  /** `list(d.keys())` */
  function Keys(d: Dict): seq<string> {
    seq(|d|, i requires 0 <= i < |d| => d[i].0)
  }

  /** `d[k]`, with `None` for the `KeyError` case. */
  function Lookup(d: Dict, k: string): (r: Option<Value>)
    ensures r.Some? <==> k in Keys(d)
  {
    if d == [] then None
    else
      assert Keys(d) == [d[0].0] + Keys(d[1..]);
      if d[0].0 == k then Some(d[0].1) else Lookup(d[1..], k)
  }

  /** `d.get(k)` */
  function Get(d: Dict, k: string): Value {
    match Lookup(d, k)
    case Some(v) => v
    case None => VNone
  }

  /** `d[k] = v`: an existing key keeps its place, a new key goes last. */
  function Put(d: Dict, k: string, v: Value): Dict {
    if d == [] then [(k, v)]
    else if d[0].0 == k then [(k, v)] + d[1..]
    else [d[0]] + Put(d[1..], k, v)
  }

  /** `d.update(kvs)` for a dictionary literal `kvs`, written in its order. */
  function Update(d: Dict, kvs: Dict): Dict
    decreases |kvs|
  {
    if kvs == [] then d else Update(Put(d, kvs[0].0, kvs[0].1), kvs[1..])
  }

  predicate DistinctKeys(d: Dict) {
    forall i, j :: 0 <= i < j < |d| ==> d[i].0 != d[j].0
  }

  /** The three dictionary objects `d`, `gene` and `item` that the passes mutate in place. */
  class Record {
    var fields: Dict

    constructor (d: Dict)
      ensures fields == d
    {
      fields := d;
    }
  }

  /** The current contents of each record, in list order. */
  function Contents(rs: seq<Record>): (ds: seq<Dict>)
    reads set r | r in rs
    ensures |ds| == |rs| && forall i :: 0 <= i < |rs| ==> ds[i] == rs[i].fields
  {
    seq(|rs|, i reads set r | r in rs requires 0 <= i < |rs| => rs[i].fields)
  }

  /** `str(i)` */
  function IntToDecimal(i: int): string
    decreases if i < 0 then 1 - i else i
  {
    if i < 0 then "-" + IntToDecimal(-i)
    else if i < 10 then [('0' as int + i) as char]
    else IntToDecimal(i / 10) + IntToDecimal(i % 10)
  }

  /**
   * `repr(v)`. Strings are quoted with `'`, without Python's escaping of quotes
   * and control characters.
   */
  function Repr(v: Value): string
    decreases v
  {
    match v
    case VNone => "None"
    case VBool(b) => if b then "True" else "False"
    case VInt(i) => IntToDecimal(i)
    case VStr(s) => "'" + s + "'"
    case VOther(t, _) => t
    case VList(items) =>
      "[" + Join(seq(|items|, i requires 0 <= i < |items| => Repr(items[i])), ", ") + "]"
    case VDict(entries) =>
      "{" + Join(seq(|entries|, i requires 0 <= i < |entries| =>
                        "'" + entries[i].0 + "': " + Repr(entries[i].1)), ", ") + "}"
  }

  /** `str(v)`, as an f-string renders it: `repr(v)` except that a string is its own text. */
  function Display(v: Value): string {
    if v.VStr? then v.s else Repr(v)
  }

  /** Reading after `d[k] = v`: the key written has the new value, every other key is untouched. */
  lemma {:induction false} LookupPut(d: Dict, k: string, v: Value, k': string)
    ensures Lookup(Put(d, k, v), k') == if k' == k then Some(v) else Lookup(d, k')
  {
    if d != [] && d[0].0 != k {
      LookupPut(d[1..], k, v, k');
    }
  }

  /** `d[k] = v` keeps the key order, appending `k` only when it is new. */
  lemma {:induction false} KeysPut(d: Dict, k: string, v: Value)
    ensures Keys(Put(d, k, v)) == if k in Keys(d) then Keys(d) else Keys(d) + [k]
  {
    if d != [] {
      KeysCons(d);
      KeysCons(Put(d, k, v));
      if d[0].0 != k {
        KeysPut(d[1..], k, v);
        assert Put(d, k, v)[1..] == Put(d[1..], k, v);
      } else {
        assert Put(d, k, v)[1..] == d[1..];
      }
    }
  }

  lemma KeysCons(d: Dict)
    requires d != []
    ensures Keys(d) == [d[0].0] + Keys(d[1..])
  {
  }

  /** Reading after `d.update(kvs)`: keys of `kvs` have their new values, others are untouched. */
  lemma {:induction false} LookupUpdate(d: Dict, kvs: Dict, k: string)
    requires DistinctKeys(kvs)
    ensures Lookup(Update(d, kvs), k) == if k in Keys(kvs) then Lookup(kvs, k) else Lookup(d, k)
    decreases |kvs|
  {
    if kvs != [] {
      assert Keys(kvs) == [kvs[0].0] + Keys(kvs[1..]);
      LookupUpdate(Put(d, kvs[0].0, kvs[0].1), kvs[1..], k);
      LookupPut(d, kvs[0].0, kvs[0].1, k);
      if k == kvs[0].0 {
        assert k !in Keys(kvs[1..]);
      }
    }
  }

  /** `d.update(kvs)` keeps the existing key order and appends only keys of `kvs`. */
  lemma {:induction false} KeysUpdate(d: Dict, kvs: Dict)
    ensures |Keys(Update(d, kvs))| >= |Keys(d)|
    ensures Keys(Update(d, kvs))[..|Keys(d)|] == Keys(d)
    ensures forall k :: k in Keys(Update(d, kvs)) <==> k in Keys(d) || k in Keys(kvs)
    decreases |kvs|
  {
    if kvs != [] {
      var d' := Put(d, kvs[0].0, kvs[0].1);
      var u := Update(d', kvs[1..]);
      assert Update(d, kvs) == u;
      KeysPut(d, kvs[0].0, kvs[0].1);
      KeysUpdate(d', kvs[1..]);
      KeysCons(kvs);
      PrefixOfPrefix(Keys(u), Keys(d'), Keys(d));
    }
  }

  lemma PrefixOfPrefix(a: seq<string>, b: seq<string>, c: seq<string>)
    requires |a| >= |b| >= |c| && a[..|b|] == b && b[..|c|] == c
    ensures a[..|c|] == c
  {
    assert a[..|c|] == a[..|b|][..|c|];
  }

  /** Two updates in a row are one update with both literals. */
  lemma {:induction false} UpdateAppend(d: Dict, a: Dict, b: Dict)
    ensures Update(Update(d, a), b) == Update(d, a + b)
    decreases |a|
  {
    if a != [] {
      assert a + b != [] && (a + b)[0] == a[0] && (a + b)[1..] == a[1..] + b;
      var d' := Put(d, a[0].0, a[0].1);
      UpdateAppend(d', a[1..], b);
      assert Update(d, a) == Update(d', a[1..]);
      assert Update(d, a + b) == Update(d', a[1..] + b);
    } else {
      assert a + b == b;
    }
  }

  /** Writing a key with the value it already has changes nothing. */
  lemma {:induction false} PutPresent(d: Dict, k: string, v: Value)
    requires Lookup(d, k) == Some(v)
    ensures Put(d, k, v) == d
  {
    if d != [] && d[0].0 != k {
      PutPresent(d[1..], k, v);
    }
  }

  /** An update whose every pair is already present changes nothing. */
  lemma {:induction false} UpdatePresent(d: Dict, kvs: Dict)
    requires forall i :: 0 <= i < |kvs| ==> Lookup(d, kvs[i].0) == Some(kvs[i].1)
    ensures Update(d, kvs) == d
    decreases |kvs|
  {
    if kvs != [] {
      PutPresent(d, kvs[0].0, kvs[0].1);
      UpdatePresent(d, kvs[1..]);
    }
  }

  /** Applying the same literal update twice is the same as applying it once. */
  lemma UpdateIdempotent(d: Dict, kvs: Dict)
    requires DistinctKeys(kvs)
    ensures Update(Update(d, kvs), kvs) == Update(d, kvs)
  {
    forall i | 0 <= i < |kvs|
      ensures Lookup(Update(d, kvs), kvs[i].0) == Some(kvs[i].1)
    {
      LookupUpdate(d, kvs, kvs[i].0);
      LookupOwn(kvs, i);
    }
    UpdatePresent(Update(d, kvs), kvs);
  }

  /** In a dictionary with distinct keys, each key reads back its own entry. */
  lemma {:induction false} LookupOwn(d: Dict, i: nat)
    requires DistinctKeys(d) && i < |d|
    ensures d[i].0 in Keys(d) && Lookup(d, d[i].0) == Some(d[i].1)
  {
    assert Keys(d) == [d[0].0] + Keys(d[1..]);
    if i > 0 {
      LookupOwn(d[1..], i - 1);
      assert d[1..][i - 1] == d[i];
      assert d[0].0 != d[i].0;
    }
  }
}
