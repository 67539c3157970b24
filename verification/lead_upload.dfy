/** The lead-import session of the campaign wizard: a parsed CSV file is mapped
    column by column onto the fixed lead schema, optional columns are routed
    into `enriched_data`, every row's email is validated, and the rows without
    an error are handed to the caller as lead records. */
module LeadUpload {
  import opened Wrappers
  import opened Text
  import opened EmailFormat

  /** One parsed CSV record: column header to cell text. */
  type Row = map<string, string>

  /** Field key to the CSV column it is read from, `""` for "Select column". */
  type Mapping = map<string, string>

  /** CSV column to "include in enriched_data". */
  type Enrichment = map<string, bool>

  /** Row index to the problems found in that row. */
  type RowErrors = map<nat, seq<string>>

  datatype FieldDef = FieldDef(key: string, caption: string, required: bool)

  /** The lead schema, in display order. */
  const LeadFields: seq<FieldDef> := [
    FieldDef("email", "Email", true),
    FieldDef("first_name", "First Name", false),
    FieldDef("last_name", "Last Name", false),
    FieldDef("title", "Title", false),
    FieldDef("company", "Company", false)
  ]

  const EmailKey: string := "email"
  const InvalidEmail: string := "Invalid email"

  datatype Stage = Upload | Map | Preview

  /** A file chosen by the user; only its name is inspected before parsing. */
  datatype CsvFile = CsvFile(name: string)

  /** An output record: the mapped schema fields and, when some column is
      flagged, the `enriched_data` bag (a flagged column missing from the row
      gives an `undefined` value, here `None`). */
  datatype Lead = Lead(fields: map<string, string>, enrichedData: Option<map<string, Option<string>>>)

  function KeysOf(fields: seq<FieldDef>): set<string> {
    set f | f in fields :: f.key
  }

  function FieldKeys(): set<string> {
    KeysOf(LeadFields)
  }

  /** `row[col]`. */
  function Cell(row: Row, col: string): Option<string> {
    if col in row then Some(row[col]) else None
  }

  /** JavaScript truthiness of a cell: present and not the empty string. */
  predicate Filled(cell: Option<string>) {
    cell.Some? && cell.value != ""
  }

  /** `mapping[field]` is truthy. */
  predicate IsMapped(m: Mapping, field: string) {
    field in m && m[field] != ""
  }

  /** Every field key present and unassigned. */
  function InitialMapping(): Mapping {
    map k | k in FieldKeys() :: ""
  }

  /** No non-empty column is read by two different fields. */
  ghost predicate ColumnsDistinct(m: Mapping) {
    forall f, g :: f in m && g in m && f != g && m[f] != "" ==> m[f] != m[g]
  }

  // ---------------------------------------------------------------------------
  // Column mapping

  /** Every field that reads `col` becomes unassigned. */
  function ClearColumn(m: Mapping, col: string): Mapping {
    map k | k in m :: if m[k] == col then "" else m[k]
  }

  /** Assign `value` to `field`, taking it away from any other field. */
  function Reassign(m: Mapping, field: string, value: string): Mapping {
    ClearColumn(m, value)[field := value]
  }

  /** The state updater of `handleMappingChange`: a pass over the keys clears
      every other field holding `value`, then `field` is set. */
  method ReassignedMapping(prev: Mapping, field: string, value: string) returns (updated: Mapping)
    ensures updated.Keys == prev.Keys + {field}
    ensures updated[field] == value
    ensures forall k :: k in prev && k != field && prev[k] == value ==> updated[k] == ""
    ensures forall k :: k in prev && k != field && prev[k] != value ==> updated[k] == prev[k]
    ensures updated == Reassign(prev, field, value)
  {
    updated := prev;
    var keys := prev.Keys;
    while keys != {}
      invariant keys <= prev.Keys && updated.Keys == prev.Keys
      invariant forall k :: k in keys ==> updated[k] == prev[k]
      invariant forall k :: k in prev && k !in keys ==>
        updated[k] == if k != field && prev[k] == value then "" else prev[k]
      decreases keys
    {
      var k :| k in keys;
      if k != field && updated[k] == value {
        updated := updated[k := ""];
      }
      keys := keys - {k};
    }
    updated := updated[field := value];
  }

  /** The state updater of `handleEnrichedMappingChange` when a column is
      checked: every field that reads `col` becomes unassigned. */
  method ClearedMapping(prev: Mapping, col: string) returns (updated: Mapping)
    ensures updated.Keys == prev.Keys
    ensures forall k :: k in prev && prev[k] == col ==> updated[k] == ""
    ensures forall k :: k in prev && prev[k] != col ==> updated[k] == prev[k]
    ensures updated == ClearColumn(prev, col)
  {
    updated := prev;
    var keys := prev.Keys;
    while keys != {}
      invariant keys <= prev.Keys && updated.Keys == prev.Keys
      invariant forall k :: k in keys ==> updated[k] == prev[k]
      invariant forall k :: k in prev && k !in keys ==>
        updated[k] == if prev[k] == col then "" else prev[k]
      decreases keys
    {
      var k :| k in keys;
      if updated[k] == col {
        updated := updated[k := ""];
      }
      keys := keys - {k};
    }
  }

  /** After a reassignment a non-empty column is read by `field` alone, and
      no two fields share a column if none did before. */
  lemma ReassignKeepsColumnsDistinct(m: Mapping, field: string, value: string)
    requires ColumnsDistinct(m)
    ensures ColumnsDistinct(Reassign(m, field, value))
    ensures value != "" ==> forall k :: k in Reassign(m, field, value) && k != field ==>
      Reassign(m, field, value)[k] != value
  {
    var r := Reassign(m, field, value);
    forall f, g | f in r && g in r && f != g && r[f] != "" ensures r[f] != r[g] {
      if f != field && g != field {
        assert r[f] == m[f] && r[g] != m[f];
      }
    }
  }

  /** Clearing a column keeps columns distinct, and a non-empty cleared
      column is read by no field afterwards. */
  lemma ClearColumnKeepsColumnsDistinct(m: Mapping, col: string)
    requires ColumnsDistinct(m)
    ensures ColumnsDistinct(ClearColumn(m, col))
    ensures col != "" ==> col !in ClearColumn(m, col).Values
  {
  }

  /** Mapping a column to field `a` and then to field `b` leaves `a`
      unassigned and `b` reading the column. */
  lemma {:induction false} RemapMovesColumn(m: Mapping, a: string, b: string, col: string)
    requires a != b && col != ""
    ensures var r := Reassign(Reassign(m, a, col), b, col);
      r[b] == col && a in r && r[a] == ""
  {
    var r1 := Reassign(m, a, col);
    assert r1[a] == col;
    var r := Reassign(r1, b, col);
    assert a in ClearColumn(r1, col) && ClearColumn(r1, col)[a] == "";
  }

  /** The headers offered in field `field`'s select box: those read by no
      field, plus the one `field` itself reads, in header order. */
  function SelectableHeaders(headers: seq<string>, m: Mapping, field: string): (r: seq<string>)
    ensures |r| <= |headers|
    ensures forall h :: h in r <==> h in headers && (h !in m.Values || (field in m && m[field] == h))
  {
    if headers == [] then []
    else
      var rest := SelectableHeaders(headers[1..], m, field);
      var h := headers[0];
      assert forall x :: x in headers <==> x == h || x in headers[1..];
      if h !in m.Values || (field in m && m[field] == h) then [h] + rest else rest
  }

  /** Choosing an offered header (or "Select column") never takes a column
      away from another field: the select boxes prevent collisions. */
  lemma SelectingOfferedHeaderClearsNothing(headers: seq<string>, m: Mapping, field: string, h: string)
    requires ColumnsDistinct(m)
    requires h == "" || h in SelectableHeaders(headers, m, field)
    ensures Reassign(m, field, h) == m[field := h]
  {
  }

  /** The enrichment checkbox of header `h` is disabled while a field reads `h`. */
  predicate EnrichmentDisabled(m: Mapping, h: string) {
    h in m.Values
  }

  /** The checkbox and the select boxes agree: a header whose checkbox is
      enabled is offered to every field, and one whose checkbox is disabled
      is offered only to a field that reads it. */
  lemma CheckboxMatchesSelectOptions(headers: seq<string>, m: Mapping, field: string, h: string)
    ensures !EnrichmentDisabled(m, h) ==> (h in SelectableHeaders(headers, m, field) <==> h in headers)
    ensures EnrichmentDisabled(m, h) ==>
      (h in SelectableHeaders(headers, m, field) <==> h in headers && field in m && m[field] == h)
  {
  }

  /** Checking an enabled checkbox leaves the mapping as it is: no field
      reads that column, so clearing it changes nothing. */
  lemma EnabledCheckboxKeepsMapping(m: Mapping, h: string)
    requires !EnrichmentDisabled(m, h)
    ensures ClearColumn(m, h) == m
  {
  }

  // ---------------------------------------------------------------------------
  // Required fields

  /** Every required field of the schema has a column. */
  predicate RequiredMapped(m: Mapping) {
    forall f :: f in LeadFields && f.required ==> IsMapped(m, f.key)
  }

  /** Email is the one required field, so the gate of `handleMapConfirm`
      passes exactly when email is mapped. */
  lemma RequiredMappedIffEmail(m: Mapping)
    ensures RequiredMapped(m) <==> IsMapped(m, EmailKey)
  {
    assert LeadFields[0].required;
    forall f | f in LeadFields && f.required ensures f.key == EmailKey {
      var i :| 0 <= i < |LeadFields| && LeadFields[i] == f;
    }
  }

  // ---------------------------------------------------------------------------
  // Row validation

  /** The mapped email cell of a row is present, non-empty and matches
      `^[^@\s]+@[^@\s]+\.[^@\s]+$`. */
  ghost predicate EmailCellOk(row: Row, col: string) {
    col in row && row[col] != "" && MatchesEmailPattern(row[col])
  }

  /** The error map `validateRows` produces: `["Invalid email"]` for every row
      whose email cell is not well formed, nothing for the others. */
  ghost function ExpectedErrors(rows: seq<Row>, col: string): RowErrors {
    map i: nat | i < |rows| && !EmailCellOk(rows[i], col) :: [InvalidEmail]
  }

  /** The loop of `validateRows`, building the new error map row by row. */
  method ComputeRowErrors(rows: seq<Row>, col: string) returns (newErrors: RowErrors)
    ensures forall i: nat :: i in newErrors <==> i < |rows| && !EmailCellOk(rows[i], col)
    ensures forall i :: i in newErrors ==> newErrors[i] == [InvalidEmail]
  {
    newErrors := map[];
    var idx := 0;
    while idx < |rows|
      invariant idx <= |rows|
      invariant forall i: nat :: i in newErrors <==> i < idx && !EmailCellOk(rows[i], col)
      invariant forall i :: i in newErrors ==> newErrors[i] == [InvalidEmail]
    {
      var rowErrors: seq<string> := [];
      var cell := Cell(rows[idx], col);
      if !Filled(cell) || !ValidEmail(cell.value) {
        rowErrors := rowErrors + [InvalidEmail];
      }
      if cell.Some? {
        ValidEmailIffPattern(cell.value);
      }
      if |rowErrors| > 0 {
        newErrors := newErrors[idx := rowErrors];
      }
      idx := idx + 1;
    }
  }

  // ---------------------------------------------------------------------------
  // Building the leads

  /** The schema fields of one lead: key `f` exactly when `f` is mapped, with
      the mapped cell or `""` when the row lacks that column. */
  function LeadFieldsOf(row: Row, m: Mapping): map<string, string> {
    MappedAmong(FieldKeys(), row, m)
  }

  /** The fields among `keys` that are mapped, each with its mapped cell or `""`. */
  function MappedAmong(keys: set<string>, row: Row, m: Mapping): map<string, string> {
    map k | k in keys && IsMapped(m, k) :: Cell(row, m[k]).GetOr("")
  }

  /** Adding one key to the field set adds its entry exactly when it is mapped. */
  lemma MappedAmongAdd(keys: set<string>, key: string, row: Row, m: Mapping)
    ensures MappedAmong(keys + {key}, row, m) ==
      if IsMapped(m, key) then MappedAmong(keys, row, m)[key := Cell(row, m[key]).GetOr("")]
      else MappedAmong(keys, row, m)
  {
  }

  lemma KeysOfAppend(fields: seq<FieldDef>, f: FieldDef)
    ensures KeysOf(fields + [f]) == KeysOf(fields) + {f.key}
  {
    assert forall g :: g in fields + [f] <==> g in fields || g == f;
  }

  /** The enrichment bag of one row: exactly the flagged columns. */
  function EnrichedOf(row: Row, e: Enrichment): map<string, Option<string>> {
    map col | col in e && e[col] :: Cell(row, col)
  }

  function LeadOf(row: Row, m: Mapping, e: Enrichment): Lead {
    var enriched := EnrichedOf(row, e);
    Lead(LeadFieldsOf(row, m), if |enriched| > 0 then Some(enriched) else None)
  }

  /** A lead carries `enriched_data` exactly when some column is flagged, and
      then it holds exactly the flagged columns. */
  lemma EnrichedDataIffFlagged(row: Row, m: Mapping, e: Enrichment)
    ensures LeadOf(row, m, e).enrichedData.Some? <==> exists col :: col in e && e[col]
    ensures LeadOf(row, m, e).enrichedData.Some? ==>
      LeadOf(row, m, e).enrichedData.value.Keys == set col | col in e && e[col]
  {
    var enriched := EnrichedOf(row, e);
    if col :| col in e && e[col] {
      assert col in enriched;
    }
  }

  /** The `for (const f of LEAD_FIELDS)` loop of `handleConfirm`. */
  method MappedFields(row: Row, m: Mapping) returns (fields: map<string, string>)
    ensures fields.Keys == set k | k in FieldKeys() && IsMapped(m, k)
    ensures forall k :: k in fields ==> fields[k] == Cell(row, m[k]).GetOr("")
    ensures fields == LeadFieldsOf(row, m)
  {
    fields := map[];
    for i := 0 to |LeadFields|
      invariant fields == MappedAmong(KeysOf(LeadFields[..i]), row, m)
    {
      var f := LeadFields[i];
      assert LeadFields[..i + 1] == LeadFields[..i] + [f];
      KeysOfAppend(LeadFields[..i], f);
      MappedAmongAdd(KeysOf(LeadFields[..i]), f.key, row, m);
      if IsMapped(m, f.key) {
        fields := fields[f.key := Cell(row, m[f.key]).GetOr("")];
      }
    }
    assert LeadFields[..|LeadFields|] == LeadFields;
  }

  /** The `Object.keys(enrichedMapping).forEach` loop of `handleConfirm`. */
  method FlaggedCells(row: Row, e: Enrichment) returns (enriched: map<string, Option<string>>)
    ensures enriched.Keys == set col | col in e && e[col]
    ensures forall col :: col in enriched ==> enriched[col] == Cell(row, col)
    ensures enriched == EnrichedOf(row, e)
  {
    enriched := map[];
    var cols := e.Keys;
    while cols != {}
      invariant cols <= e.Keys
      invariant enriched == map c | c in e && c !in cols && e[c] :: Cell(row, c)
      decreases cols
    {
      var col :| col in cols;
      if e[col] {
        enriched := enriched[col := Cell(row, col)];
      }
      cols := cols - {col};
    }
  }

  /** The lead built for one row. */
  method MakeLead(row: Row, m: Mapping, e: Enrichment) returns (lead: Lead)
    ensures lead == LeadOf(row, m, e)
  {
    var fields := MappedFields(row, m);
    var enriched := FlaggedCells(row, e);
    lead := Lead(fields, if |enriched| > 0 then Some(enriched) else None);
  }

  /** The `filter(...).map(...)` of `handleConfirm`. */
  method CollectLeads(rows: seq<Row>, errors: RowErrors, m: Mapping, e: Enrichment) returns (leads: seq<Lead>)
    ensures leads == ExpectedLeads(rows, errors, m, e)
  {
    ghost var all := seq(|rows|, i requires 0 <= i < |rows| => LeadOf(rows[i], m, e));
    leads := [];
    var idx := 0;
    while idx < |rows|
      invariant idx <= |rows|
      invariant leads == Unflagged(all, idx, errors)
    {
      UnflaggedStep(all, idx, errors);
      if idx !in errors {
        var lead := MakeLead(rows[idx], m, e);
        leads := leads + [lead];
      }
      idx := idx + 1;
    }
  }

  /** The indices below `n` without an error entry, in increasing order. */
  function KeptIndices(n: nat, errors: RowErrors): (r: seq<nat>)
    ensures forall j :: 0 <= j < |r| ==> r[j] < n && r[j] !in errors
  {
    if n == 0 then []
    else KeptIndices(n - 1, errors) + (if n - 1 in errors then [] else [n - 1])
  }

  /** Every index below `n` without an error entry is kept, and the kept
      indices are strictly increasing. */
  lemma KeptIndicesComplete(n: nat, errors: RowErrors)
    ensures forall i: nat :: i < n && i !in errors ==> i in KeptIndices(n, errors)
    ensures forall j, k :: 0 <= j < k < |KeptIndices(n, errors)| ==>
      KeptIndices(n, errors)[j] < KeptIndices(n, errors)[k]
  {
    KeptIndicesCover(n, errors);
    KeptIndicesIncrease(n, errors);
  }

  lemma {:induction false} KeptIndicesCover(n: nat, errors: RowErrors)
    ensures forall i: nat :: i < n && i !in errors ==> i in KeptIndices(n, errors)
  {
    if n > 0 {
      KeptIndicesCover(n - 1, errors);
      var k := KeptIndices(n - 1, errors);
      if n - 1 !in errors {
        assert KeptIndices(n, errors) == k + [n - 1];
        forall i: nat | i < n && i !in errors ensures i in k + [n - 1] {
          if i < n - 1 {
            assert i in k;
          }
        }
      } else {
        assert KeptIndices(n, errors) == k;
      }
    }
  }

  lemma {:induction false} KeptIndicesIncrease(n: nat, errors: RowErrors)
    ensures forall j, k :: 0 <= j < k < |KeptIndices(n, errors)| ==>
      KeptIndices(n, errors)[j] < KeptIndices(n, errors)[k]
  {
    if n > 0 {
      KeptIndicesIncrease(n - 1, errors);
      var k := KeptIndices(n - 1, errors);
      if n - 1 !in errors {
        var k' := k + [n - 1];
        assert KeptIndices(n, errors) == k';
        forall a, b | 0 <= a < b < |k'| ensures k'[a] < k'[b] {
          assert k'[a] == k[a];
          if b < |k| {
            assert k'[b] == k[b];
          }
        }
      } else {
        assert KeptIndices(n, errors) == k;
      }
    }
  }

  /** The elements among the first `n` of `xs` whose index has no error
      entry, in order: the `filter((_, idx) => !errors[idx])` of `handleConfirm`. */
  function Unflagged<T>(xs: seq<T>, n: nat, errors: RowErrors): seq<T>
    requires n <= |xs|
  {
    if n == 0 then []
    else Unflagged(xs, n - 1, errors) + (if n - 1 in errors then [] else [xs[n - 1]])
  }

  /** One more element is kept exactly when its index has no error entry. */
  lemma UnflaggedStep<T>(xs: seq<T>, n: nat, errors: RowErrors)
    requires n < |xs|
    ensures Unflagged(xs, n + 1, errors) == Unflagged(xs, n, errors) + (if n in errors then [] else [xs[n]])
  {
  }

  /** The leads `handleConfirm` builds: one per row without an error entry,
      in row order. */
  function ExpectedLeads(rows: seq<Row>, errors: RowErrors, m: Mapping, e: Enrichment): seq<Lead> {
    Unflagged(seq(|rows|, i requires 0 <= i < |rows| => LeadOf(rows[i], m, e)), |rows|, errors)
  }

  /** The `j`-th kept element is the element at the `j`-th unflagged index. */
  lemma {:induction false} UnflaggedFollowsKeptIndices<T>(xs: seq<T>, n: nat, errors: RowErrors)
    requires n <= |xs|
    ensures |Unflagged(xs, n, errors)| == |KeptIndices(n, errors)|
    ensures forall j :: 0 <= j < |KeptIndices(n, errors)| ==>
      Unflagged(xs, n, errors)[j] == xs[KeptIndices(n, errors)[j]]
  {
    if n > 0 {
      UnflaggedFollowsKeptIndices(xs, n - 1, errors);
      var u, k := Unflagged(xs, n - 1, errors), KeptIndices(n - 1, errors);
      if n - 1 in errors {
        assert Unflagged(xs, n, errors) == u && KeptIndices(n, errors) == k;
      } else {
        var u', k' := u + [xs[n - 1]], k + [n - 1];
        assert Unflagged(xs, n, errors) == u' && KeptIndices(n, errors) == k';
        forall j | 0 <= j < |k'| ensures u'[j] == xs[k'[j]] {
          if j < |k| {
            assert u'[j] == u[j] && k'[j] == k[j];
          }
        }
      }
    }
  }

  /** The `j`-th lead is built from the `j`-th row without an error entry. */
  lemma LeadsFollowKeptRows(rows: seq<Row>, errors: RowErrors, m: Mapping, e: Enrichment)
    ensures |ExpectedLeads(rows, errors, m, e)| == |KeptIndices(|rows|, errors)|
    ensures forall j :: 0 <= j < |KeptIndices(|rows|, errors)| ==>
      ExpectedLeads(rows, errors, m, e)[j] == LeadOf(rows[KeptIndices(|rows|, errors)[j]], m, e)
  {
    UnflaggedFollowsKeptIndices(seq(|rows|, i requires 0 <= i < |rows| => LeadOf(rows[i], m, e)), |rows|, errors);
  }

  /** With no error recorded, every row gives a lead. */
  lemma NoErrorsKeepsEveryRow(rows: seq<Row>, m: Mapping, e: Enrichment)
    ensures |ExpectedLeads(rows, map[], m, e)| == |rows|
  {
    LeadsFollowKeptRows(rows, map[], m, e);
    KeptIndicesNoErrors(|rows|);
  }

  /** With no error recorded, every row is kept. */
  lemma {:induction false} KeptIndicesNoErrors(n: nat)
    ensures KeptIndices(n, map[]) == seq(n, i => i)
  {
    if n > 0 {
      KeptIndicesNoErrors(n - 1);
    }
  }

  /** A row whose email cell is well formed gives a lead whose email is
      that cell. */
  lemma LeadCopiesEmail(row: Row, m: Mapping, e: Enrichment)
    requires IsMapped(m, EmailKey) && EmailCellOk(row, m[EmailKey])
    ensures EmailKey in LeadOf(row, m, e).fields
    ensures LeadOf(row, m, e).fields[EmailKey] == row[m[EmailKey]]
  {
    assert EmailKey in FieldKeys() by {
      assert LeadFields[0].key == EmailKey;
    }
  }

  /** Once the error map is the one validation computed, every lead handed
      off carries a well-formed email copied from its row. */
  lemma HandedOffLeadsHaveValidEmail(rows: seq<Row>, m: Mapping, e: Enrichment)
    requires IsMapped(m, EmailKey)
    ensures forall lead :: lead in ExpectedLeads(rows, ExpectedErrors(rows, m[EmailKey]), m, e) ==>
      EmailKey in lead.fields && MatchesEmailPattern(lead.fields[EmailKey])
  {
    var errors := ExpectedErrors(rows, m[EmailKey]);
    var kept := KeptIndices(|rows|, errors);
    var leads := ExpectedLeads(rows, errors, m, e);
    LeadsFollowKeptRows(rows, errors, m, e);
    forall lead | lead in leads
      ensures EmailKey in lead.fields && MatchesEmailPattern(lead.fields[EmailKey])
    {
      var j :| 0 <= j < |leads| && leads[j] == lead;
      var i := kept[j];
      assert i < |rows| && i !in errors;
      assert EmailCellOk(rows[i], m[EmailKey]);
      LeadCopiesEmail(rows[i], m, e);
    }
  }

  const ScenarioRows: seq<Row> := [map["Email" := "a@b.com", "Name" := "X"], map["Email" := "bad", "Name" := "Y"]]
  const ScenarioMapping: Mapping :=
    map["email" := "Email", "first_name" := "Name", "last_name" := "", "title" := "", "company" := ""]

  /** In the two-row example only row 1, whose email is "bad", is flagged. */
  lemma ScenarioErrors()
    ensures ExpectedErrors(ScenarioRows, "Email") == map[1 := [InvalidEmail]]
  {
    assert MatchesEmailPattern("a@b.com") by {
      var s := "a@b.com";
      assert s[1] == '@' && s[3] == '.';
      assert s[..1] == "a" && s[2..3] == "b" && s[4..] == "com";
      assert PlainRun(s[..1]) && PlainRun(s[2..3]) && PlainRun(s[4..]);
    }
    assert !MatchesEmailPattern("bad") by {
      ValidEmailIffPattern("bad");
      assert IndexOf("bad", '@') == 3;
    }
    var errors := ExpectedErrors(ScenarioRows, "Email");
    assert errors.Keys == {1};
  }

  /** The five keys of the lead schema. */
  lemma FieldKeysListed()
    ensures FieldKeys() == {"email", "first_name", "last_name", "title", "company"}
  {
    assert LeadFields[0].key == "email" && LeadFields[1].key == "first_name" && LeadFields[2].key == "last_name";
    assert LeadFields[3].key == "title" && LeadFields[4].key == "company";
  }

  /** In the two-row example only email and first name are mapped. */
  lemma ScenarioMappedKeys()
    ensures LeadFieldsOf(ScenarioRows[0], ScenarioMapping).Keys == {"email", "first_name"}
  {
    FieldKeysListed();
    assert IsMapped(ScenarioMapping, "email") && IsMapped(ScenarioMapping, "first_name");
    assert !IsMapped(ScenarioMapping, "last_name") && !IsMapped(ScenarioMapping, "title");
    assert !IsMapped(ScenarioMapping, "company");
  }

  /** In the two-row example row 0 gives a lead with its email and first name. */
  lemma ScenarioFirstLead()
    ensures LeadOf(ScenarioRows[0], ScenarioMapping, map[]) == Lead(map["email" := "a@b.com", "first_name" := "X"], None)
  {
    var row := ScenarioRows[0];
    var fields := LeadFieldsOf(row, ScenarioMapping);
    var want := map["email" := "a@b.com", "first_name" := "X"];
    ScenarioMappedKeys();
    assert fields.Keys == want.Keys;
    assert fields["email"] == want["email"] && fields["first_name"] == want["first_name"];
    assert fields == want;
    assert EnrichedOf(row, map[]).Keys == {};
  }

  /** Two rows, the second with a malformed email: `handleConfirm`'s filter
      and map would yield the one lead built from row 0. The "Import Leads"
      button is disabled in this state, since an error entry exists. */
  lemma TwoRowScenario()
    ensures ExpectedLeads(ScenarioRows, ExpectedErrors(ScenarioRows, "Email"), ScenarioMapping, map[])
      == [Lead(map["email" := "a@b.com", "first_name" := "X"], None)]
  {
    var errors := ExpectedErrors(ScenarioRows, "Email");
    ScenarioErrors();
    assert 0 !in errors && 1 in errors;
    var xs := seq(2, i requires 0 <= i < 2 => LeadOf(ScenarioRows[i], ScenarioMapping, map[]));
    assert Unflagged(xs, 1, errors) == [xs[0]];
    ScenarioFirstLead();
  }

  // ---------------------------------------------------------------------------
  // The session

  function EndsWith(s: string, suffix: string): bool {
    |suffix| <= |s| && s[|s| - |suffix|..] == suffix
  }

  /** The state of one `LeadUpload` component. The stage requirements on the
      handlers say which stage renders the control that calls them. */
  class Session {
    var stage: Stage
    var csvRows: seq<Row>
    var headers: seq<string>
    var mapping: Mapping
    var enrichedMapping: Enrichment
    var errors: RowErrors
    var selectedFile: Option<CsvFile>
    var pendingFile: Option<CsvFile>

    /** Every schema field has an entry, no column is read by two fields, and
        in the preview the error map is the one validation gives for the
        current rows and email column. */
    ghost predicate Valid()
      reads this
    {
      && FieldKeys() <= mapping.Keys
      && ColumnsDistinct(mapping)
      && (stage == Preview ==>
            IsMapped(mapping, EmailKey) && errors == ExpectedErrors(csvRows, mapping[EmailKey]))
    }

    /** True when the session is what a fresh component (or "Back" from the
        map stage) shows. */
    ghost predicate Initial()
      reads this
    {
      && stage == Upload && csvRows == [] && headers == []
      && mapping == InitialMapping() && enrichedMapping == map[] && errors == map[]
      && selectedFile == None && pendingFile == None
    }

    constructor ()
      ensures Valid() && Initial()
    {
      stage := Upload;
      csvRows := [];
      headers := [];
      mapping := InitialMapping();
      enrichedMapping := map[];
      errors := map[];
      selectedFile := None;
      pendingFile := None;
    }

    /** `handleDrop` and `handleFileInput`: the first offered file becomes the
        pending file when its name ends in `.csv`; otherwise nothing changes
        and the user is told why. */
    method SelectFile(files: seq<CsvFile>) returns (notice: Option<string>)
      requires stage == Upload
      modifies this`pendingFile
      ensures files == [] ==> notice == None && pendingFile == old(pendingFile)
      ensures files != [] && !EndsWith(files[0].name, ".csv") ==>
        notice == Some("Please upload a CSV file") && pendingFile == old(pendingFile)
      ensures files != [] && EndsWith(files[0].name, ".csv") ==>
        notice == None && pendingFile == Some(files[0])
    {
      notice := None;
      if |files| > 0 {
        var file := files[0];
        if !EndsWith(file.name, ".csv") {
          notice := Some("Please upload a CSV file");
          return;
        }
        pendingFile := Some(file);
      }
    }

    /** `handleUploadContinue`: commits the pending file and returns the file
        handed to the parser, if any. */
    method UploadContinue() returns (parse: Option<CsvFile>)
      requires stage == Upload
      modifies this`selectedFile
      ensures parse == old(pendingFile)
      ensures selectedFile == if parse.Some? then parse else old(selectedFile)
    {
      parse := None;
      if pendingFile.Some? {
        selectedFile := pendingFile;
        parse := pendingFile;
      }
    }

    /** The parser's `complete` callback. `keysOfFirst` is `Object.keys` of the
        first record: its column names, each once. An empty result leaves the
        session alone. */
    method ParseComplete(data: seq<Row>, keysOfFirst: seq<string>) returns (notice: Option<string>)
      requires Valid()
      requires data != [] ==> (forall h :: h in keysOfFirst <==> h in data[0])
      requires forall i, j :: 0 <= i < j < |keysOfFirst| ==> keysOfFirst[i] != keysOfFirst[j]
      modifies this`headers, this`csvRows, this`stage
      ensures Valid()
      ensures data == [] ==>
        notice == Some("No data found in CSV") &&
        headers == old(headers) && csvRows == old(csvRows) && stage == old(stage)
      ensures data != [] ==>
        notice == None && headers == keysOfFirst && csvRows == data && stage == Map
    {
      if |data| == 0 {
        notice := Some("No data found in CSV");
        return;
      }
      notice := None;
      headers := keysOfFirst;
      csvRows := data;
      stage := Map;
    }

    /** The parser's `error` callback: only a notice. */
    method ParseFailed() returns (notice: Option<string>)
      ensures notice == Some("Failed to parse CSV")
    {
      notice := Some("Failed to parse CSV");
    }

    /** `handleMappingChange`. */
    method MappingChange(field: string, value: string)
      requires Valid() && stage == Map
      modifies this`mapping
      ensures Valid()
      ensures mapping.Keys == old(mapping.Keys) + {field}
      ensures mapping[field] == value
      ensures forall k :: k in old(mapping) && k != field && old(mapping[k]) == value ==> mapping[k] == ""
      ensures forall k :: k in old(mapping) && k != field && old(mapping[k]) != value ==> mapping[k] == old(mapping[k])
    {
      ReassignKeepsColumnsDistinct(mapping, field, value);
      mapping := ReassignedMapping(mapping, field, value);
    }

    /** `handleEnrichedMappingChange`. The mapping is cleared of `col` only when
        it is checked; unchecking leaves the mapping as it is. */
    method EnrichedMappingChange(col: string, checked: bool)
      requires Valid() && stage == Map
      modifies this`enrichedMapping, this`mapping
      ensures Valid()
      ensures enrichedMapping == old(enrichedMapping)[col := checked]
      ensures mapping.Keys == old(mapping.Keys)
      ensures checked ==> forall k :: k in mapping ==>
        mapping[k] == if old(mapping[k]) == col then "" else old(mapping[k])
      ensures !checked ==> mapping == old(mapping)
      ensures !old(CheckboxDisabled(col)) ==> mapping == old(mapping)
    {
      enrichedMapping := enrichedMapping[col := checked];
      if !CheckboxDisabled(col) {
        EnabledCheckboxKeepsMapping(mapping, col);
      }
      if checked {
        ClearColumnKeepsColumnsDistinct(mapping, col);
        mapping := ClearedMapping(mapping, col);
      }
    }

    /** `validateRows`: the error map is replaced as a whole. */
    method ValidateRows()
      requires EmailKey in mapping
      modifies this`errors
      ensures errors == ExpectedErrors(csvRows, mapping[EmailKey])
    {
      var newErrors := ComputeRowErrors(csvRows, mapping[EmailKey]);
      assert newErrors.Keys == ExpectedErrors(csvRows, mapping[EmailKey]).Keys;
      errors := newErrors;
    }

    /** `handleMapConfirm`: with email unmapped nothing changes; otherwise the
        stage becomes the preview and every row is validated. */
    method MapConfirm() returns (notice: Option<string>)
      requires Valid() && stage == Map
      modifies this`stage, this`errors
      ensures Valid()
      ensures !IsMapped(mapping, EmailKey) ==>
        notice == Some("Please map the required field: Email") &&
        stage == Map && errors == old(errors)
      ensures IsMapped(mapping, EmailKey) ==>
        notice == None && stage == Preview && errors == ExpectedErrors(csvRows, mapping[EmailKey])
    {
      RequiredMappedIffEmail(mapping);
      for i := 0 to |LeadFields|
        invariant forall j :: 0 <= j < i && LeadFields[j].required ==> IsMapped(mapping, LeadFields[j].key)
      {
        var f := LeadFields[i];
        if f.required && !IsMapped(mapping, f.key) {
          assert i == 0 && f.caption == "Email";
          assert "Please map the required field: " + f.caption == "Please map the required field: Email";
          notice := Some("Please map the required field: " + f.caption);
          return;
        }
      }
      notice := None;
      stage := Preview;
      ValidateRows();
    }

    /** The "Import Leads" button is enabled only while no row has an error. */
    predicate ImportEnabled()
      reads this
    {
      |errors| == 0
    }

    /** `handleConfirm`: builds one lead per row without an error entry, in row
        order, and hands the list to `onLeadsReady` (the returned value) unless
        it is empty. */
    method Confirm() returns (handoff: Option<seq<Lead>>, notice: Option<string>)
      requires Valid() && stage == Preview
      ensures handoff.None? <==> ExpectedLeads(csvRows, errors, mapping, enrichedMapping) == []
      ensures notice == if handoff.None? then Some("No valid leads to import") else None
      ensures handoff.Some? ==> handoff.value == ExpectedLeads(csvRows, errors, mapping, enrichedMapping)
      ensures handoff.Some? ==> forall lead :: lead in handoff.value ==>
        EmailKey in lead.fields && MatchesEmailPattern(lead.fields[EmailKey])
      ensures ImportEnabled() && csvRows != [] ==> handoff.Some? && |handoff.value| == |csvRows|
    {
      var validLeads := CollectLeads(csvRows, errors, mapping, enrichedMapping);
      HandedOffLeadsHaveValidEmail(csvRows, mapping, enrichedMapping);
      if |errors| == 0 {
        assert errors == map[];
        NoErrorsKeepsEveryRow(csvRows, mapping, enrichedMapping);
      }
      if |validLeads| == 0 {
        handoff, notice := None, Some("No valid leads to import");
        return;
      }
      handoff, notice := Some(validLeads), None;
    }

    /** "Back" in the preview: the rows, headers and both mappings stay. */
    method PreviewBack()
      requires Valid() && stage == Preview
      modifies this`stage
      ensures Valid() && stage == Map
    {
      stage := Map;
    }

    /** `handleMapBack`: everything returns to the initial state. */
    method MapBack()
      requires stage == Map
      modifies this
      ensures Valid() && Initial()
    {
      stage := Upload;
      selectedFile := None;
      pendingFile := None;
      csvRows := [];
      headers := [];
      mapping := InitialMapping();
      enrichedMapping := map[];
      errors := map[];
    }

    /** The options of field `field`'s select box. */
    function OptionsFor(field: string): (r: seq<string>)
      reads this
      ensures forall h :: h in r <==> h in headers && (h !in mapping.Values || (field in mapping && mapping[field] == h))
    {
      SelectableHeaders(headers, mapping, field)
    }

    /** Whether header `h`'s enrichment checkbox is disabled. */
    predicate CheckboxDisabled(h: string)
      reads this
    {
      EnrichmentDisabled(mapping, h)
    }
  }
}
