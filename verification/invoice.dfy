/**
 The record pipeline: a record's fields are renamed, then its date fields
 and its amount fields are normalized; a batch is a list of records, a
 single record is processed alone, and any other value is handed back.
 */
module Invoice {
  import opened Wrappers
  import opened Text
  import opened Json
  import opened Keys
  import opened Dates
  import opened Amounts

  /** The canonical fields `process_invoice` reads as dates. */
  const DateFields: set<string> := {"invoice_date", "due_date"}

  /** The canonical fields `process_invoice` reads as amounts. */
  const AmountFields: set<string> := {"amount", "tax", "subtotal"}

  /** No field is both a date and an amount. */
  lemma FieldKindsAreDisjoint()
    ensures DateFields !! AmountFields
  {
    assert "invoice_date"[0] == 'i' && "due_date"[0] == 'd';
    assert "amount"[0] == 'a' && "tax"[0] == 't' && "subtotal"[0] == 's';
  }

  /** A processed record: its fields by canonical name. */
  type Record = map<string, Json>

  /** What a field's value becomes, by the field's canonical name. */
  function NormalizeField(k: string, v: Json, show: Json -> string): Json {
    if k in DateFields then NormalizeDate(v)
    else if k in AmountFields then NormalizeAmount(v, show)
    else v
  }

  /** `process_invoice`: the record's fields under their canonical names, each
      value normalized as its name says; no field is added or dropped. The
      five `if` statements of the source touch five distinct names, so they
      amount to one pass over the renamed record. */
  function ProcessInvoice(fields: seq<(string, Json)>, show: Json -> string): (m: Record)
    ensures forall k :: k in m <==> Renamed(fields, k)
    ensures forall k :: k in m ==> exists v :: LastWriteWins(fields, k, v) && m[k] == NormalizeField(k, v, show)
  {
    var n := NormalizeKeys(fields);
    map k | k in n :: NormalizeField(k, n[k], show)
  }

  /** The value a processed record holds under a name is the last value
      written under that name, normalized as the name says. */
  lemma ProcessedField(fields: seq<(string, Json)>, show: Json -> string, k: string, v: Json)
    requires LastWriteWins(fields, k, v)
    ensures k in ProcessInvoice(fields, show)
    ensures ProcessInvoice(fields, show)[k] == NormalizeField(k, v, show)
  {
    var m := ProcessInvoice(fields, show);
    assert Renamed(fields, k);
    var w :| LastWriteWins(fields, k, w) && m[k] == NormalizeField(k, w, show);
    LastWriteIsUnique(fields, k, v, w);
  }

  /** A date field holds `None` exactly when its value is not a truthy string
      or integer, and otherwise text: the stripped original or text of the
      canonical shape. */
  lemma DateFieldValue(fields: seq<(string, Json)>, show: Json -> string, k: string, v: Json)
    requires LastWriteWins(fields, k, v) && k in DateFields
    ensures k in ProcessInvoice(fields, show)
    ensures var r := ProcessInvoice(fields, show)[k];
            && (r.JNull? <==> !IsDateInput(v)) && (r.JNull? || r.JStr?)
            && (r.JStr? ==> IsDateInput(v) && (IsoShaped(r.s) || r.s == Trim(DateText(v))))
  {
    ProcessedField(fields, show, k, v);
    assert NormalizeField(k, v, show) == NormalizeDate(v);
  }

  /** An amount field holds `None`, a number, or its value unchanged. */
  lemma AmountFieldValue(fields: seq<(string, Json)>, show: Json -> string, k: string, v: Json)
    requires LastWriteWins(fields, k, v) && k in AmountFields
    ensures k in ProcessInvoice(fields, show)
    ensures var r := ProcessInvoice(fields, show)[k];
            r.JNull? || r.JNum? || r == v
  {
    ProcessedField(fields, show, k, v);
    assert k !in DateFields by {
      FieldKindsAreDisjoint();
    }
    assert NormalizeField(k, v, show) == NormalizeAmount(v, show);
  }

  /** Any other field keeps its value. */
  lemma OtherFieldValue(fields: seq<(string, Json)>, show: Json -> string, k: string, v: Json)
    requires LastWriteWins(fields, k, v) && k !in DateFields && k !in AmountFields
    ensures k in ProcessInvoice(fields, show) && ProcessInvoice(fields, show)[k] == v
  {
    ProcessedField(fields, show, k, v);
  }

  /** Only one value is the last written under a name. */
  lemma LastWriteIsUnique(fields: seq<(string, Json)>, k: string, v: Json, w: Json)
    requires LastWriteWins(fields, k, v) && LastWriteWins(fields, k, w)
    ensures v == w
  {
    var i :| 0 <= i < |fields| && CanonicalKey(fields[i].0) == k && fields[i].1 == v
             && forall j :: i < j < |fields| ==> CanonicalKey(fields[j].0) != k;
    var i' :| 0 <= i' < |fields| && CanonicalKey(fields[i'].0) == k && fields[i'].1 == w
              && forall j :: i' < j < |fields| ==> CanonicalKey(fields[j].0) != k;
    assert i == i';
  }

  /** A record already under canonical, distinct names keeps its names, and
      each value is normalized as its name says. */
  lemma CanonicalInvoice(fields: seq<(string, Json)>, show: Json -> string)
    requires forall i :: 0 <= i < |fields| ==> fields[i].0 in CanonicalNames
    requires forall i, j :: 0 <= i < j < |fields| ==> fields[i].0 != fields[j].0
    ensures forall k :: k in ProcessInvoice(fields, show) <==> exists i :: 0 <= i < |fields| && fields[i].0 == k
    ensures forall i :: 0 <= i < |fields| ==>
              ProcessInvoice(fields, show)[fields[i].0] == NormalizeField(fields[i].0, fields[i].1, show)
  {
    var n := NormalizeKeys(fields);
    var m := ProcessInvoice(fields, show);
    CanonicalRecordIsUnchanged(fields);
    forall i | 0 <= i < |fields| ensures m[fields[i].0] == NormalizeField(fields[i].0, fields[i].1, show) {
      var k := fields[i].0;
      assert k in n;
      assert LastWriteWins(fields, k, n[k]);
      var w :| LastWriteWins(fields, k, w) && m[k] == NormalizeField(k, w, show);
      LastWriteIsUnique(fields, k, n[k], w);
    }
  }

  /** Processing never adds fields: a record has at most as many fields as
      its input. */
  lemma ProcessedSize(fields: seq<(string, Json)>, show: Json -> string)
    ensures |ProcessInvoice(fields, show)| <= |fields|
  {
    var m, n := ProcessInvoice(fields, show), NormalizeKeys(fields);
    assert m.Keys == n.Keys;
    NormalizeKeysSize(fields);
  }

  /** Normalizing an amount field a second time changes nothing. */
  lemma AmountFieldIdempotent(k: string, v: Json, show: Json -> string)
    requires k in AmountFields
    ensures NormalizeField(k, NormalizeField(k, v, show), show) == NormalizeField(k, v, show)
  {
    assert k !in DateFields by {
      FieldKindsAreDisjoint();
    }
    var r := NormalizeAmount(v, show);
    assert NormalizeField(k, v, show) == r;
    assert NormalizeField(k, r, show) == NormalizeAmount(r, show);
    AmountIdempotent(v, show);
  }

  // ---------------------------------------------------------------------------
  // normalize_invoice_data

  /** What `normalize_invoice_data` returns: a list of records, one record, or
      the input itself. */
  datatype Output =
    | Records(records: seq<Record>)
    | OneRecord(record: Record)
    | Unchanged(value: Json)

  /** `process_invoice` raises on the list element at `index`, which is not an
      object: it has no `items()`. */
  datatype Error = NotAnObject(index: nat)

  /** The index of the first element that is not an object, or the length
      when every element is one. */
  function FirstNonObject(elems: seq<Json>): (k: nat)
    ensures k <= |elems|
    ensures k < |elems| ==> !elems[k].JObj?
    ensures forall j :: 0 <= j < k ==> elems[j].JObj?
    decreases |elems|
  {
    if elems == [] || !elems[0].JObj? then 0
    else 1 + FirstNonObject(elems[1..])
  }

  /** The list branch: every element processed in order by `process`, or
      the error raised at the first element that is not an object. */
  function ProcessAll(elems: seq<Json>, process: seq<(string, Json)> -> Record): (r: Result<seq<Record>, Error>)
    ensures r.Success? <==> forall i :: 0 <= i < |elems| ==> elems[i].JObj?
    ensures r.Success? ==> |r.value| == |elems|
    ensures r.Success? ==> forall i :: 0 <= i < |elems| ==> r.value[i] == process(elems[i].fields)
    ensures r.Failure? ==> r.error.index < |elems| && !elems[r.error.index].JObj?
    ensures r.Failure? ==> forall j :: 0 <= j < r.error.index ==> elems[j].JObj?
  {
    var k := FirstNonObject(elems);
    if k < |elems| then Failure(NotAnObject(k))
    else Success(seq(|elems|, i requires 0 <= i < |elems| && elems[i].JObj? => process(elems[i].fields)))
  }

  /** `normalize_invoice_data`: a list is processed element by element, a
      dict as one record, and anything else is returned as it came. */
  function NormalizeInvoiceData(v: Json, show: Json -> string): (r: Result<Output, Error>)
    ensures r.Failure? ==> v.JArr? && r.error.index < |v.elems| && !v.elems[r.error.index].JObj?
    ensures r.Failure? ==> forall j :: 0 <= j < r.error.index ==> v.elems[j].JObj?
    ensures v.JArr? ==> (r.Success? <==> forall i :: 0 <= i < |v.elems| ==> v.elems[i].JObj?)
    ensures v.JArr? && r.Success? ==> r.value.Records? && |r.value.records| == |v.elems|
    ensures v.JArr? && r.Success? ==>
              forall i :: 0 <= i < |v.elems| ==> r.value.records[i] == ProcessInvoice(v.elems[i].fields, show)
    ensures v.JObj? ==> r == Success(OneRecord(ProcessInvoice(v.fields, show)))
    ensures !v.JArr? && !v.JObj? ==> r == Success(Unchanged(v))
  {
    match v
    case JArr(elems) =>
      (match ProcessAll(elems, f => ProcessInvoice(f, show))
       case Success(rs) => Success(Records(rs))
       case Failure(e) => Failure(e))
    case JObj(fields) => Success(OneRecord(ProcessInvoice(fields, show)))
    case _ => Success(Unchanged(v))
  }

  /** A batch processes each of its records exactly as it would be processed
      alone. */
  lemma BatchIsElementwise(elems: seq<Json>, show: Json -> string)
    requires NormalizeInvoiceData(JArr(elems), show).Success?
    ensures forall i :: 0 <= i < |elems| ==>
              NormalizeInvoiceData(elems[i], show)
              == Success(OneRecord(NormalizeInvoiceData(JArr(elems), show).value.records[i]))
  {
  }

  /** The error is raised at the first element that is not an object. */
  lemma FirstFailure(elems: seq<Json>, process: seq<(string, Json)> -> Record, k: nat)
    requires k < |elems| && !elems[k].JObj? && forall j :: 0 <= j < k ==> elems[j].JObj?
    ensures ProcessAll(elems, process) == Failure(NotAnObject(k))
  {
  }

  /** Objects at the front of two batches make objects at the front of their
      concatenation. */
  lemma ObjectsOfAppend(a: seq<Json>, b: seq<Json>, n: nat)
    requires n <= |b|
    requires forall j :: 0 <= j < |a| ==> a[j].JObj?
    requires forall j :: 0 <= j < n ==> b[j].JObj?
    ensures forall j :: 0 <= j < |a| + n ==> (a + b)[j].JObj?
  {
    forall j | 0 <= j < |a| + n ensures (a + b)[j].JObj? {
      if j < |a| { assert (a + b)[j] == a[j]; } else { assert (a + b)[j] == b[j - |a|]; }
    }
  }

  /** Records processed from two batches, joined, are the records of the
      joined batch. */
  lemma RecordsOfAppend(a: seq<Json>, b: seq<Json>, ra: seq<Record>, rb: seq<Record>,
                        process: seq<(string, Json)> -> Record)
    requires |ra| == |a| && |rb| == |b|
    requires forall i :: 0 <= i < |a| ==> a[i].JObj? && ra[i] == process(a[i].fields)
    requires forall i :: 0 <= i < |b| ==> b[i].JObj? && rb[i] == process(b[i].fields)
    ensures forall i :: 0 <= i < |a + b| ==> (a + b)[i].JObj? && (ra + rb)[i] == process((a + b)[i].fields)
  {
    forall i | 0 <= i < |a + b| ensures (a + b)[i].JObj? && (ra + rb)[i] == process((a + b)[i].fields) {
      if i < |a| {
        assert (a + b)[i] == a[i] && (ra + rb)[i] == ra[i];
      } else {
        assert (a + b)[i] == b[i - |a|] && (ra + rb)[i] == rb[i - |a|];
      }
    }
  }

  /** Two batches that both succeed: processing their concatenation gives
      the two lists of records, one after the other. */
  lemma AppendBothSucceed(a: seq<Json>, b: seq<Json>, process: seq<(string, Json)> -> Record)
    requires ProcessAll(a, process).Success? && ProcessAll(b, process).Success?
    ensures ProcessAll(a + b, process) == Success(ProcessAll(a, process).value + ProcessAll(b, process).value)
  {
    var ra, rb := ProcessAll(a, process).value, ProcessAll(b, process).value;
    RecordsOfAppend(a, b, ra, rb, process);
    var r := ProcessAll(a + b, process).value;
    assert r == ra + rb;
  }

  /** A failing first batch: its error is the concatenation's error. */
  lemma AppendFirstFails(a: seq<Json>, b: seq<Json>, process: seq<(string, Json)> -> Record)
    requires ProcessAll(a, process).Failure?
    ensures ProcessAll(a + b, process) == ProcessAll(a, process)
  {
    var i := ProcessAll(a, process).error.index;
    assert (a + b)[i] == a[i];
    assert forall j :: 0 <= j < i ==> (a + b)[j] == a[j];
    FirstFailure(a + b, process, i);
  }

  /** A successful first batch and a failing second one: the second batch's
      error, shifted past the first batch. */
  lemma AppendSecondFails(a: seq<Json>, b: seq<Json>, process: seq<(string, Json)> -> Record)
    requires ProcessAll(a, process).Success? && ProcessAll(b, process).Failure?
    ensures ProcessAll(a + b, process) == Failure(NotAnObject(|a| + ProcessAll(b, process).error.index))
  {
    var i := ProcessAll(b, process).error.index;
    assert !b[i].JObj? && forall j :: 0 <= j < i ==> b[j].JObj?;
    assert forall j :: 0 <= j < |a| ==> a[j].JObj?;
    assert ProcessAll(a + b, process) == Failure(NotAnObject(|a| + i)) by {
      assert (a + b)[|a| + i] == b[i];
      ObjectsOfAppend(a, b, i);
      FirstFailure(a + b, process, |a| + i);
    }
  }
}
