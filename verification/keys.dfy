/**
 The key mapper: renames each field of a raw invoice record to its canonical
 name through a fixed alias table, lower-casing names the table does not know.
 */
module Keys {
  import opened Text
  import opened Json

  /** The alias table. Lookups are exact and case-sensitive. */
  const KeyMappings: map<string, string> := map[
    // invoice number variations
    "inv_no" := "invoice_number",
    "invoice_no" := "invoice_number",
    "InvoiceNumber" := "invoice_number",
    "invoice_num" := "invoice_number",
    "inv_id" := "invoice_number",
    // date variations
    "inv_date" := "invoice_date",
    "date" := "invoice_date",
    "InvoiceDate" := "invoice_date",
    "issue_date" := "invoice_date",
    // amount variations
    "amt" := "amount",
    "total" := "amount",
    "InvoiceAmount" := "amount",
    "invoice_amt" := "amount",
    "price" := "amount",
    // customer variations
    "cust" := "customer",
    "client" := "customer",
    "CustomerName" := "customer",
    "buyer" := "customer"
  ]

  /** The field names the normalizer recognises. */
  const CanonicalNames: set<string> :=
    {"invoice_number", "invoice_date", "due_date", "amount", "tax", "subtotal", "customer"}

  /** `KEY_MAPPINGS.get(key, key.lower())`. */
  function CanonicalKey(key: string): string {
    if key in KeyMappings then KeyMappings[key] else Lower(key)
  }

  /** `v` is the value of the last field of `fields` whose name maps to `k`. */
  ghost predicate LastWriteWins(fields: seq<(string, Json)>, k: string, v: Json) {
    exists i :: 0 <= i < |fields| && CanonicalKey(fields[i].0) == k && fields[i].1 == v
      && forall j :: i < j < |fields| ==> CanonicalKey(fields[j].0) != k
  }

  /** Some field of `fields` has a name that maps to `k`. */
  ghost predicate Renamed(fields: seq<(string, Json)>, k: string) {
    exists i :: 0 <= i < |fields| && CanonicalKey(fields[i].0) == k
  }

  /** `normalize_keys`: every field is stored under its canonical name, in
      iteration order, so a later field overwrites an earlier one that maps to
      the same name. */
  function NormalizeKeys(fields: seq<(string, Json)>): (m: map<string, Json>)
    ensures forall k :: k in m <==> Renamed(fields, k)
    ensures forall k :: k in m ==> LastWriteWins(fields, k, m[k])
    decreases |fields|
  {
    if fields == [] then map[]
    else
      var init := fields[..|fields| - 1];
      var last := fields[|fields| - 1];
      var prev := NormalizeKeys(init);
      assert fields == init + [last];
      RenamedStep(init, last);
      LastWriteStep(init, last, prev);
      prev[CanonicalKey(last.0) := last.1]
  }

  /** Renaming can merge fields but never adds any: the result has at most
      as many names as the input has fields. */
  lemma {:induction false} NormalizeKeysSize(fields: seq<(string, Json)>)
    ensures |NormalizeKeys(fields)| <= |fields|
    decreases |fields|
  {
    if fields != [] {
      var init := fields[..|fields| - 1];
      NormalizeKeysSize(init);
      var prev := NormalizeKeys(init);
      var last := fields[|fields| - 1];
      assert NormalizeKeys(fields) == prev[CanonicalKey(last.0) := last.1];
      assert NormalizeKeys(fields).Keys == prev.Keys + {CanonicalKey(last.0)};
    }
  }

  lemma RenamedStep(init: seq<(string, Json)>, last: (string, Json))
    ensures forall k :: Renamed(init + [last], k) <==> Renamed(init, k) || k == CanonicalKey(last.0)
  {
    var fields := init + [last];
    forall k ensures Renamed(fields, k) <==> Renamed(init, k) || k == CanonicalKey(last.0) {
      if Renamed(fields, k) {
        var i :| 0 <= i < |fields| && CanonicalKey(fields[i].0) == k;
        if i < |init| { assert fields[i] == init[i]; }
      }
      if Renamed(init, k) {
        var i :| 0 <= i < |init| && CanonicalKey(init[i].0) == k;
        assert fields[i] == init[i];
      }
      if k == CanonicalKey(last.0) {
        assert fields[|init|] == last;
      }
    }
  }

  lemma LastWriteStep(init: seq<(string, Json)>, last: (string, Json), prev: map<string, Json>)
    requires forall k :: k in prev ==> LastWriteWins(init, k, prev[k])
    ensures var m := prev[CanonicalKey(last.0) := last.1];
            forall k :: k in m ==> LastWriteWins(init + [last], k, m[k])
  {
    var fields := init + [last];
    var key := CanonicalKey(last.0);
    var m := prev[key := last.1];
    forall k | k in m ensures LastWriteWins(fields, k, m[k]) {
      if k == key {
        assert fields[|init|] == last;
      } else {
        var i :| 0 <= i < |init| && CanonicalKey(init[i].0) == k && init[i].1 == prev[k]
                 && forall j :: i < j < |init| ==> CanonicalKey(init[j].0) != k;
        assert fields[i] == init[i];
        forall j | i < j < |fields| ensures CanonicalKey(fields[j].0) != k {
          if j < |init| { assert fields[j] == init[j]; }
        }
      }
    }
  }

  /** Every alias in the table maps to one of four canonical names. */
  lemma TableTargetsAreCanonical()
    ensures forall k :: k in KeyMappings ==>
      KeyMappings[k] in {"invoice_number", "invoice_date", "amount", "customer"}
  {
  }

  /** No canonical name is an alias and all are lower case, so the mapper
      leaves every canonical name as it is. */
  lemma CanonicalNamesAreFixedPoints()
    ensures forall c :: c in CanonicalNames ==> c !in KeyMappings && CanonicalKey(c) == c
  {
    CanonicalNamesAreNotAliases();
    forall c | c in CanonicalNames ensures CanonicalKey(c) == c {
      CanonicalNameIsLowerCase(c);
      LowerFixedPoint(c);
    }
  }

  lemma CanonicalNamesAreNotAliases()
    ensures forall c :: c in CanonicalNames ==> c !in KeyMappings
  {
  }

  lemma CanonicalNameIsLowerCase(c: string)
    requires c in CanonicalNames
    ensures NoUpper(c)
  {
  }

  /** Mapping is not idempotent in general: "DATE" lower-cases to "date",
      which is itself an alias of "invoice_date". */
  lemma MappingIsNotIdempotent()
    ensures CanonicalKey("DATE") == "date"
    ensures CanonicalKey(CanonicalKey("DATE")) == "invoice_date"
  {
    assert Lower("DATE") == "date";
  }

  /** A name outside the table is lower-cased, e.g. "Notes" becomes "notes". */
  lemma UnknownKeyIsLowerCased()
    ensures CanonicalKey("Notes") == "notes"
  {
    assert Lower("Notes") == "notes";
  }

  /** A record whose names are already canonical, and distinct, keeps exactly
      its names and values. */
  lemma {:induction false} CanonicalRecordIsUnchanged(fields: seq<(string, Json)>)
    requires forall i :: 0 <= i < |fields| ==> fields[i].0 in CanonicalNames
    requires forall i, j :: 0 <= i < j < |fields| ==> fields[i].0 != fields[j].0
    ensures forall k :: k in NormalizeKeys(fields) <==> exists i :: 0 <= i < |fields| && fields[i].0 == k
    ensures forall i :: 0 <= i < |fields| ==> NormalizeKeys(fields)[fields[i].0] == fields[i].1
  {
    CanonicalNamesAreFixedPoints();
    var m := NormalizeKeys(fields);
    forall i | 0 <= i < |fields| ensures m[fields[i].0] == fields[i].1 {
      var k := fields[i].0;
      assert CanonicalKey(k) == k;
      assert k in m;
      var i' :| 0 <= i' < |fields| && CanonicalKey(fields[i'].0) == k && fields[i'].1 == m[k]
                && forall j :: i' < j < |fields| ==> CanonicalKey(fields[j].0) != k;
      assert CanonicalKey(fields[i'].0) == fields[i'].0;
    }
  }
}
