/**
 * `save_output` and its `flatten_value` helper (`src/paper2kb/write_output.py`).
 * Files are not written: the outcome records what would be written (the JSON
 * data, or the CSV header and flattened rows) or the exception raised.
 */
module WriteOutput {
  import opened Wrappers
  import opened Text
  import opened Values

  /** What `save_output` does with non-failing input. */
  datatype SaveOutcome =
    | SkippedEmpty
    | WroteJson(data: seq<Dict>)
    | WroteCsv(header: seq<string>, rows: seq<Dict>)

  predicate AllStrings(items: seq<Value>) {
    forall i :: 0 <= i < |items| ==> items[i].VStr?
  }

  /** `all(isinstance(x, dict) and "label" in x for x in val)` */
  predicate AllLabelled(items: seq<Value>) {
    forall i :: 0 <= i < |items| ==> items[i].VDict? && "label" in Keys(items[i].entries)
  }

  function StringsOf(items: seq<Value>): seq<string>
    requires AllStrings(items)
  {
    seq(|items|, i requires 0 <= i < |items| => items[i].s)
  }

  /** One item of the labelled join: `f"{label} ({mondo_id})"` when `mondo_id` is truthy, else the label itself. */
  function LabelPiece(d: Dict): Value {
    var lbl := Get(d, "label");
    var mondo := Get(d, "mondo_id");
    if Truthy(mondo) then VStr(Display(lbl) + " (" + Display(mondo) + ")") else lbl
  }

  function LabelPieces(items: seq<Value>): seq<Value>
    requires AllLabelled(items)
  {
    seq(|items|, i requires 0 <= i < |items| => LabelPiece(items[i].entries))
  }

  /**
   * `flatten_value(val)`: a list of strings is joined with "; ", a list of
   * labelled dictionaries is rendered item by item and joined (raising
   * `TypeError` when a bare label is not a string), and any other value is
   * returned unchanged.
   */
  function FlattenValue(v: Value): (r: Result<Value, PyError>)
    ensures r.Failure? ==> v.VList? && r.error == TypeError
    ensures r.Success? && r.value != v ==> v.VList? && r.value.VStr?
  {
    if v.VList? && AllStrings(v.items) then Success(VStr(Join(StringsOf(v.items), "; ")))
    else if v.VList? && AllLabelled(v.items) then
      var pieces := LabelPieces(v.items);
      if AllStrings(pieces) then Success(VStr(Join(StringsOf(pieces), "; "))) else Failure(TypeError)
    else Success(v)
  }

  /** `{k: flatten_value(v) for k, v in item.items()}` */
  function FlatItem(item: Dict): (r: Result<Dict, PyError>)
    ensures r.Success? <==> forall i :: 0 <= i < |item| ==> FlattenValue(item[i].1).Success?
    ensures r.Success? ==> Keys(r.value) == Keys(item)
    ensures r.Success? ==> |r.value| == |item|
    ensures r.Success? ==> forall i :: 0 <= i < |item| ==> r.value[i] == (item[i].0, FlattenValue(item[i].1).value)
  {
    if forall i :: 0 <= i < |item| ==> FlattenValue(item[i].1).Success? then
      var flat := seq(|item|, i requires 0 <= i < |item| => (item[i].0, FlattenValue(item[i].1).value));
      assert Keys(flat) == Keys(item);
      Success(flat)
    else Failure(TypeError)
  }

  /** `flat_data`: every record flattened, in order; the first failure propagates. */
  function FlatData(data: seq<Dict>): (r: Result<seq<Dict>, PyError>)
    ensures r.Success? <==> forall i :: 0 <= i < |data| ==> FlatItem(data[i]).Success?
    ensures r.Success? ==> |r.value| == |data| && forall i :: 0 <= i < |data| ==> r.value[i] == FlatItem(data[i]).value
  {
    if forall i :: 0 <= i < |data| ==> FlatItem(data[i]).Success? then
      Success(seq(|data|, i requires 0 <= i < |data| => FlatItem(data[i]).value))
    else Failure(TypeError)
  }

  /** `csv.DictWriter.writerows` accepts a row only when all its keys are among the field names. */
  predicate RowsFit(header: seq<string>, rows: seq<Dict>) {
    forall i, k :: 0 <= i < |rows| && k in Keys(rows[i]) ==> k in header
  }

  const ExtraFieldsMessage := "dict contains fields not in fieldnames"

  /** `save_output(data, path, fmt)`, with the file contents abstracted to the outcome. */
  method SaveOutput(data: seq<Dict>, fmt: string) returns (r: Result<SaveOutcome, PyError>)
    ensures data == [] ==> r == Success(SkippedEmpty)
    ensures data != [] && fmt == "json" ==> r == Success(WroteJson(data))
    ensures data != [] && fmt != "json" && fmt != "csv" ==> r == Failure(ValueError("Unsupported format: " + fmt))
    ensures data != [] && fmt == "csv" ==>
              && (r.Success? <==> FlatData(data).Success? && RowsFit(Keys(data[0]), FlatData(data).value))
              && (r.Failure? ==> r.error == TypeError || r.error == ValueError(ExtraFieldsMessage))
              && (r.Success? ==> r.value.WroteCsv? && r.value.rows == FlatData(data).value &&
                                 r.value.header == Keys(FlatData(data).value[0]) &&
                                 r.value.header == Keys(data[0]) &&
                                 |r.value.rows| == |data| &&
                                 forall i :: 0 <= i < |data| ==> Keys(r.value.rows[i]) == Keys(data[i]))
  {
    if data == [] {
      return Success(SkippedEmpty);
    }
    if fmt == "json" {
      r := Success(WroteJson(data));
    } else if fmt == "csv" {
      var flat := FlatData(data);
      if flat.Failure? {
        return Failure(flat.error);
      }
      var flatData := flat.value;
      var fieldnames := Keys(flatData[0]);
      if !RowsFit(fieldnames, flatData) {
        return Failure(ValueError(ExtraFieldsMessage));
      }
      r := Success(WroteCsv(fieldnames, flatData));
    } else {
      r := Failure(ValueError("Unsupported format: " + fmt));
    }
  }

  /** A list of strings flattens to the strings joined with "; "; the empty list to "". */
  lemma FlattenStrings(items: seq<Value>)
    requires AllStrings(items)
    ensures FlattenValue(VList(items)) == Success(VStr(Join(StringsOf(items), "; ")))
    ensures items == [] ==> FlattenValue(VList(items)) == Success(VStr(""))
  {
  }

  /**
   * A non-empty list of labelled dictionaries whose labels are strings flattens
   * to "label (mondo_id)" per item, or the bare label when `mondo_id` is missing
   * or falsy, joined with "; ".
   */
  lemma FlattenLabels(items: seq<Value>)
    requires items != [] && AllLabelled(items)
    requires forall i :: 0 <= i < |items| ==> Get(items[i].entries, "label").VStr?
    ensures var r := FlattenValue(VList(items));
            && r.Success? && r.value.VStr?
            && r.value.s == Join(seq(|items|, i requires 0 <= i < |items| =>
                 var lbl := Get(items[i].entries, "label").s;
                 var mondo := Get(items[i].entries, "mondo_id");
                 if Truthy(mondo) then lbl + " (" + Display(mondo) + ")" else lbl), "; ")
  {
    assert !AllStrings(items) by {
      assert !items[0].VStr?;
    }
    var pieces := LabelPieces(items);
    assert AllStrings(pieces);
    var expected := seq(|items|, i requires 0 <= i < |items| =>
                     var lbl := Get(items[i].entries, "label").s;
                     var mondo := Get(items[i].entries, "mondo_id");
                     if Truthy(mondo) then lbl + " (" + Display(mondo) + ")" else lbl);
    assert StringsOf(pieces) == expected;
  }

  /** Anything other than a list, and a list that is neither all strings nor all labelled dictionaries, is kept. */
  lemma FlattenKeepsOthers(v: Value)
    requires !v.VList? || (!AllStrings(v.items) && !AllLabelled(v.items))
    ensures FlattenValue(v) == Success(v)
  {
  }

  /** Flattening a flattened value changes nothing more. */
  lemma FlattenIdempotent(v: Value)
    requires FlattenValue(v).Success?
    ensures FlattenValue(FlattenValue(v).value) == FlattenValue(v)
  {
  }

  /** The header is the first flattened record's key order, which is the first record's key order. */
  lemma HeaderIsFirstKeys(data: seq<Dict>)
    requires data != [] && FlatData(data).Success?
    ensures Keys(FlatData(data).value[0]) == Keys(data[0])
  {
  }
}
