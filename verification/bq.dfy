/** The warehouse side (bq_nvd/bq.py): turning the JSON schema description into
    schema fields, counting the loaded CVEs and listing their identifiers.
    What a query returns is a parameter (its rows, or the exception it
    raises); the client object keeps the queries it was sent and the datasets
    it was asked to create. */
module Bq {
  import opened Runtime

  // ---------------------------------------------------------------------------
  // Schema tree (parse_bq_json_schema and its inner _get_field_schema)
  // ---------------------------------------------------------------------------

  /** One field object of the JSON schema file; a key that is absent is None,
      except 'fields', whose absence reads as the empty list. */
  datatype FieldSpec = FieldSpec(
    name: Option<string>,
    fieldType: Option<string>,
    mode: Option<string>,
    fields: seq<FieldSpec>)

  /** A bigquery.SchemaField. */
  datatype SchemaField = SchemaField(
    name: string,
    fieldType: string,
    mode: string,
    fields: seq<SchemaField>)

  const DefaultType := "STRING"
  const DefaultMode := "NULLABLE"

  /** Every field object of the tree has a name. */
  ghost predicate Named(f: FieldSpec)
  {
    f.name.Some? && forall g :: g in f.fields ==> Named(g)
  }

  /** _get_field_schema: converts one field and, recursively, its children.
      A field without a name raises KeyError. */
  function FieldSchema(f: FieldSpec): (r: Result<SchemaField>)
    decreases f, 1
    ensures r.Success? <==> Named(f)
    ensures r.Failure? ==> r.error == KeyError
    ensures r.Success? ==>
      && r.value.name == f.name.value
      && r.value.fieldType == (if f.fieldType.Some? then f.fieldType.value else DefaultType)
      && r.value.mode == (if f.mode.Some? then f.mode.value else DefaultMode)
      && |r.value.fields| == |f.fields|
      && forall i :: 0 <= i < |f.fields| ==> FieldSchema(f.fields[i]) == Success(r.value.fields[i])
  {
    if f.name.None? then Failure(KeyError)
    else
      var subschema := if f.fields != [] then FieldSchemas(f.fields) else Success([]);
      if subschema.Failure? then Failure(subschema.error)
      else Success(SchemaField(f.name.value, f.fieldType.GetOr(DefaultType),
                               f.mode.GetOr(DefaultMode), subschema.value))
  }

  /** Converts a list of fields in order; the first failure is the result. */
  function FieldSchemas(fs: seq<FieldSpec>): (r: Result<seq<SchemaField>>)
    decreases fs, 0
    ensures r.Success? <==> forall g :: g in fs ==> Named(g)
    ensures r.Failure? ==> r.error == KeyError
    ensures r.Success? ==>
      |r.value| == |fs| && forall i :: 0 <= i < |fs| ==> FieldSchema(fs[i]) == Success(r.value[i])
  {
    if fs == [] then Success([])
    else
      var head := FieldSchema(fs[0]);
      if head.Failure? then assert fs[0] in fs; Failure(head.error)
      else
        var tail := FieldSchemas(fs[1..]);
        if tail.Failure? then
          assert forall g :: g in fs[1..] ==> g in fs;
          Failure(tail.error)
        else
          assert forall g :: g in fs ==> g == fs[0] || g in fs[1..];
          Success([head.value] + tail.value)
  }

  /** parse_bq_json_schema: `schemaFile` is what json.load made of the schema
      file. A TypeError or JSONDecodeError from loading is raised again; the
      schema is one converted field per top-level entry, in order. */
  function ParseBqJsonSchema(schemaFile: Result<seq<FieldSpec>>): (r: Result<seq<SchemaField>>)
    ensures schemaFile.Failure? ==> r == Failure(schemaFile.error)
    ensures schemaFile.Success? ==>
      (r.Success? <==> forall g :: g in schemaFile.value ==> Named(g))
    ensures r.Success? ==>
      && |r.value| == |schemaFile.value|
      && forall i :: 0 <= i < |r.value| ==> FieldSchema(schemaFile.value[i]) == Success(r.value[i])
  {
    match schemaFile
    case Failure(e) => Failure(e)
    case Success(jsonschema) => FieldSchemas(jsonschema)
  }

  /** The schema file entry that describes `s` with every key written out. */
  function ToFieldSpec(s: SchemaField): FieldSpec
    decreases s, 1
  {
    FieldSpec(Some(s.name), Some(s.fieldType), Some(s.mode),
              ToFieldSpecs(s.fields))
  }

  function ToFieldSpecs(ss: seq<SchemaField>): (r: seq<FieldSpec>)
    decreases ss, 0
    ensures |r| == |ss|
  {
    if ss == [] then [] else [ToFieldSpec(ss[0])] + ToFieldSpecs(ss[1..])
  }

  /** Converting the written-out description of a schema field gives that
      field back: the builder loses nothing and invents nothing. */
  lemma {:induction false} FieldSchemaRoundTrip(s: SchemaField)
    decreases s, 1
    ensures FieldSchema(ToFieldSpec(s)) == Success(s)
  {
    if s.fields != [] {
      FieldSchemasRoundTrip(s.fields);
    }
  }

  lemma {:induction false} FieldSchemasRoundTrip(ss: seq<SchemaField>)
    decreases ss, 0
    ensures FieldSchemas(ToFieldSpecs(ss)) == Success(ss)
  {
    if ss != [] {
      var fs := ToFieldSpecs(ss);
      assert fs[0] == ToFieldSpec(ss[0]) && fs[1..] == ToFieldSpecs(ss[1..]);
      FieldSchemaRoundTrip(ss[0]);
      FieldSchemasRoundTrip(ss[1..]);
      assert FieldSchemas(fs) == Success([ss[0]] + ss[1..]);
      assert ss == [ss[0]] + ss[1..];
    }
  }

  // ---------------------------------------------------------------------------
  // Queries (count_cves, get_cve_ids, make_dataset)
  // ---------------------------------------------------------------------------

  const CountSelect := "SELECT   COUNT(cve.CVE_data_meta.ID) AS Count FROM "
  const IdsSelect := "SELECT   cve.CVE_data_meta.ID AS ID FROM "
  /** Both queries read the table 'nvd' of the dataset. */
  const TableSuffix := ".nvd"

  /** The statement count_cves sends: a count of the CVE ids in the dataset's
      nvd table. */
  function CountQuery(dataset: string): (r: string)
    ensures |r| == |CountSelect| + |dataset| + |TableSuffix|
    ensures r[..|CountSelect|] == CountSelect
    ensures r[|CountSelect|..|r| - |TableSuffix|] == dataset
    ensures r[|r| - |TableSuffix|..] == TableSuffix
  {
    CountSelect + dataset + TableSuffix
  }

  /** The statement get_cve_ids sends: the CVE ids in the dataset's nvd table. */
  function IdsQuery(dataset: string): (r: string)
    ensures |r| == |IdsSelect| + |dataset| + |TableSuffix|
    ensures r[..|IdsSelect|] == IdsSelect
    ensures r[|IdsSelect|..|r| - |TableSuffix|] == dataset
    ensures r[|r| - |TableSuffix|..] == TableSuffix
  {
    IdsSelect + dataset + TableSuffix
  }

  /** Each query names the dataset it reads, and the two queries never
      coincide: a count is never sent as an id listing. */
  lemma QueriesNameTheirDataset(a: string, b: string)
    ensures CountQuery(a) == CountQuery(b) ==> a == b
    ensures IdsQuery(a) == IdsQuery(b) ==> a == b
    ensures CountQuery(a) != IdsQuery(b)
  {
    assert CountQuery(a)[9] == CountSelect[9] == 'C';
    assert IdsQuery(b)[9] == IdsSelect[9] == 'c';
  }

  /** The BQ object: its client's observable effects. */
  class BigQuery {
    /** Statements passed to client.query, in order. */
    var queries: seq<string>
    /** Datasets passed to make_dataset, in order. */
    var created: seq<string>

    constructor ()
      ensures queries == [] && created == []
    {
      queries := [];
      created := [];
    }

    /** make_dataset: asks for the dataset (and its 'nvd' table) to be created;
        how that ends is the parameter `outcome`. */
    method MakeDataset(dataset: string, outcome: Outcome) returns (o: Outcome)
      modifies this
      ensures created == old(created) + [dataset] && queries == old(queries)
      ensures o == outcome
    {
      created := created + [dataset];
      o := outcome;
    }

    /** count_cves: the Count of the last row the query yields. A missing
        dataset (NotFound) is created and counts as 0; any other error of the
        query, TypeError included, reaches the caller unchanged. A query that
        yields no row leaves the count unbound (UnboundLocalError). */
    method CountCves(dataset: string, answer: Result<seq<int>>, makeOutcome: Outcome)
      returns (r: Result<int>)
      modifies this
      ensures queries == old(queries) + [CountQuery(dataset)]
      ensures created == (if answer == Failure(NotFound) then old(created) + [dataset] else old(created))
      ensures answer.Success? && answer.value != [] ==> r == Success(answer.value[|answer.value| - 1])
      ensures answer == Success([]) ==> r == Failure(UnboundLocalError)
      ensures answer == Failure(NotFound) ==>
        r == (if makeOutcome.Normal? then Success(0) else Failure(makeOutcome.error))
      ensures answer.Failure? && answer.error != NotFound ==> r == Failure(answer.error)
    {
      queries := queries + [CountQuery(dataset)];
      match answer {
        case Failure(e) =>
          if e == NotFound {
            var made := MakeDataset(dataset, makeOutcome);
            r := if made.Normal? then Success(0) else Failure(made.error);
          } else {
            r := Failure(e);
          }
        case Success(rows) =>
          var count: Option<int> := None;
          var i := 0;
          while i < |rows|
            invariant 0 <= i <= |rows|
            invariant count == if i == 0 then None else Some(rows[i - 1])
          {
            count := Some(rows[i]);
            i := i + 1;
          }
          r := if count.Some? then Success(count.value) else Failure(UnboundLocalError);
      }
    }

    /** get_cve_ids: one identifier per row, in the order of the rows,
        duplicates kept; any error of the query reaches the caller unchanged. */
    method GetCveIds(dataset: string, answer: Result<seq<string>>)
      returns (r: Result<seq<string>>)
      modifies this
      ensures queries == old(queries) + [IdsQuery(dataset)] && created == old(created)
      ensures r == answer
    {
      queries := queries + [IdsQuery(dataset)];
      match answer {
        case Failure(e) =>
          r := Failure(e);
        case Success(rows) =>
          var ids: seq<string> := [];
          var i := 0;
          while i < |rows|
            invariant 0 <= i <= |rows|
            invariant ids == rows[..i]
          {
            ids := ids + [rows[i]];
            i := i + 1;
          }
          assert rows[..|rows|] == rows;
          r := Success(ids);
      }
    }
  }
}
