/** `make_partition`: derive a partition record of a table from one value per
    partition key. The records are values here, so the table a caller passes
    in cannot be changed by the call; the deep copy of the storage descriptor
    that the Python code makes becomes a record update. */
module PartitionBuilder {
  import opened Wrappers
  import opened Text
  import opened SchemaCodec

  datatype SerDeInfo = SerDeInfo(name: string, serializationLib: string, parameters: map<string, string>)

  /** The physical layout of a table or partition; `location` is the path of its data. */
  datatype StorageDescriptor = StorageDescriptor(
    cols: seq<FieldSchema>,
    location: string,
    inputFormat: string,
    outputFormat: string,
    compressed: bool,
    numBuckets: int,
    serdeInfo: SerDeInfo,
    bucketCols: seq<string>,
    parameters: map<string, string>)

  datatype Table = Table(
    tableName: string,
    dbName: string,
    owner: string,
    partitionKeys: seq<FieldSchema>,
    sd: StorageDescriptor,
    parameters: map<string, string>,
    tableType: string)

  datatype Partition = Partition(values: seq<string>, dbName: string, tableName: string, sd: StorageDescriptor)

  /** The `ValueError` raised on an arity mismatch. */
  datatype PartitionError = ValueError(message: string)

  const MISMATCH_MESSAGE := "Partition values do not match table schema"

  /** The names of the partition keys, in order. */
  function KeyNames(keys: seq<FieldSchema>): (names: seq<string>)
    ensures |names| == |keys|
    ensures forall i :: 0 <= i < |keys| ==> names[i] == keys[i].name
  {
    if keys == [] then [] else [keys[0].name] + KeyNames(keys[1..])
  }

  /** The "key=value" path segments, pairing names and values by position. */
  function KeyValueSegments(names: seq<string>, values: seq<string>): (kv: seq<string>)
    requires |names| == |values|
    ensures |kv| == |names|
    ensures forall i :: 0 <= i < |kv| ==> kv[i] == names[i] + "=" + values[i]
  {
    if names == [] then [] else [names[0] + "=" + values[0]] + KeyValueSegments(names[1..], values[1..])
  }

  /** The location of the partition of `table` with `values`. */
  function PartitionLocation(table: Table, values: seq<string>): string
    requires |table.partitionKeys| == |values|
  {
    table.sd.location + "/" + Join(KeyValueSegments(KeyNames(table.partitionKeys), values), "/")
  }

  /** `make_partition`: an error exactly when the number of values is not the
      number of partition keys; otherwise a partition with the given values,
      the table's database and table names, and a storage descriptor equal to
      the table's except that its location has the "key=value" segments
      appended. */
  function MakePartition(table: Table, values: seq<string>): (r: Result<Partition, PartitionError>)
    ensures r.Failure? <==> |table.partitionKeys| != |values|
    ensures r.Failure? ==> r.error == ValueError(MISMATCH_MESSAGE)
    ensures r.Success? ==>
              r.value.values == values && r.value.dbName == table.dbName && r.value.tableName == table.tableName
    ensures r.Success? ==> r.value.sd.(location := table.sd.location) == table.sd
    ensures r.Success? ==> r.value.sd.location == PartitionLocation(table, values)
  {
    var names := KeyNames(table.partitionKeys);
    if |names| != |values| then
      Failure(ValueError(MISMATCH_MESSAGE))
    else
      var kv := KeyValueSegments(names, values);
      var sd := table.sd.(location := table.sd.location + "/" + Join(kv, "/"));
      Success(Partition(values, table.dbName, table.tableName, sd))
  }

  /** The location starts with the table's location and a slash. */
  lemma LocationExtendsTable(table: Table, values: seq<string>)
    requires |table.partitionKeys| == |values|
    ensures var loc := PartitionLocation(table, values);
            |loc| > |table.sd.location| && loc[..|table.sd.location| + 1] == table.sd.location + "/"
  {
    var base := table.sd.location;
    var loc := PartitionLocation(table, values);
    assert loc == (base + "/") + Join(KeyValueSegments(KeyNames(table.partitionKeys), values), "/");
    assert loc[..|base| + 1] == base + "/";
  }

  /** A table without partition keys takes no values, and its "partition"
      lives at the table's location followed by a lone slash. */
  lemma NoPartitionKeys(table: Table)
    requires table.partitionKeys == []
    ensures MakePartition(table, []).Success?
    ensures MakePartition(table, []).value.sd.location == table.sd.location + "/"
  {
    assert KeyValueSegments(KeyNames(table.partitionKeys), []) == [];
  }

  /** Keys and values are paired strictly by position: when no key name holds
      '=' or '/' and no value holds '/', the part of the location after the
      table's location splits on '/' into one segment per key, the i-th
      segment being the i-th key name, '=', and the i-th value. So the
      location determines the values. */
  lemma {:induction false} LocationDecodes(table: Table, values: seq<string>)
    requires |table.partitionKeys| == |values| >= 1
    requires forall i :: 0 <= i < |values| ==> '/' !in values[i]
    requires forall i :: 0 <= i < |values| ==> '/' !in table.partitionKeys[i].name && '=' !in table.partitionKeys[i].name
    ensures var loc := PartitionLocation(table, values);
            var suffix := loc[|table.sd.location| + 1..];
            var segments := Split(suffix, '/');
            |segments| == |values| &&
            forall i :: 0 <= i < |values| ==>
              Before(segments[i], '=') == table.partitionKeys[i].name && After(segments[i], '=') == values[i]
  {
    var base := table.sd.location;
    var names := KeyNames(table.partitionKeys);
    var kv := KeyValueSegments(names, values);
    var loc := PartitionLocation(table, values);
    assert loc == (base + "/") + Join(kv, "/");
    assert loc[|base| + 1..] == Join(kv, "/");
    forall k | 0 <= k < |kv|
      ensures '/' !in kv[k]
    {
      assert kv[k] == names[k] + "=" + values[k];
    }
    SplitJoin(kv, '/');
    forall i | 0 <= i < |values|
      ensures Before(kv[i], '=') == table.partitionKeys[i].name && After(kv[i], '=') == values[i]
    {
      SegmentDecodes(names[i], values[i]);
    }
  }

  /** One segment "k=v" with an '='-free key gives back k and v. */
  lemma SegmentDecodes(k: string, v: string)
    requires '=' !in k
    ensures Before(k + "=" + v, '=') == k && After(k + "=" + v, '=') == v
  {
    FirstSeparator(k, '=', v);
  }
}
