# hmsclient helpers in Dafny

A model of the local logic of `HMSClient`, the Python convenience client of
the Hive Metastore Thrift service. Everything the client does through the
network is left to the generated Thrift stub. What remains, and is modelled
here, is:

- **Schema codec** (`schema.dfy`, module `SchemaCodec`). `make_schema` turns
  compact `"name:type"` column specifications into `FieldSchema` records.
  `parse_schema` renders records as `"name<TAB>type"` lines. `make_schema`
  is a loop that appends to a list, so it is the method `MakeSchema`, proved
  against `ParseParam`, which defines what one specification means.
  `parse_schema` is a function.
- **Partition builder** (`partition.dfy`, module `PartitionBuilder`).
  `make_partition` checks the arity, pairs partition keys with values by
  position into `key=value` segments, joins them with `/` and appends them
  to a copy of the table's storage location. `Table`, `StorageDescriptor`
  and `Partition` are datatypes. The deep copy becomes value semantics, so
  the caller's table cannot change (see "Left out" for the one list the
  result shares with the caller). The contract states that the new
  storage descriptor equals the table's in every field except `location`.
- **Endpoint resolution** (`endpoint.dfy`, module `EndpointResolution`).
  This is the non-`iprot` branch of the constructor. `ResolveEndpoint`
  reassigns `host` and `port` step by step, as the constructor does, and is
  proved equal to `Resolve`. `Resolve` states the precedence directly:
  argument, then `HMS_HOST`, then `localhost`; an embedded `host:port`;
  argument, then `HMS_PORT`, then 9083. The process environment is a
  `map<string, string>` parameter.
- **Drop planning and the existence check** (`drop.dfy`, module
  `DropPlanner`). `drop_partitions` sends no request for an empty name list
  and exactly one batched request otherwise. `drop_all_partitions` lists
  the names and then drops them. `check_for_named_partition` maps the
  outcome of a lookup to a boolean or to the error it passes on. Remote calls
  are represented by their answers (`listed`, `LookupOutcome`) or as a
  trace of `RemoteCall` values.
- `text.dfy` (module `Text`) holds the Python string operations these rely
  on: `in`, `split`, `join`, and `int` on decimal text. `Split` and `Join`
  are proved inverse to each other (`JoinSplit`, `SplitJoin`).
  `wrappers.dfy` holds `Option` and `Result`.

Three consequences of the code a caller may not expect:

- A chosen host that starts with a colon (`":123"`) gives an empty host
  (`EmptyHostFromLeadingColon`).
- An embedded port 0 (`"bar:0"`) is falsy in Python. It therefore overwrites
  any explicit port and then falls back to `HMS_PORT` or 9083
  (`ZeroEmbeddedPort`).
- The port is not always positive. An explicit negative port, or
  `HMS_PORT=0`, is passed through unchanged (`NegativeExplicitPort`,
  `ZeroEnvironmentPort`).

## Model

| member | source | states |
|---|---|---|
| Text.Split | hmsclient/hmsclient.py:95 | `str.split` keeps empty pieces: the first piece is the text before the first separator, there are at least two pieces exactly when the separator occurs |
| Text.SplitPiecesFree | hmsclient/hmsclient.py:95 | no piece of a split contains the separator |
| Text.Join | hmsclient/hmsclient.py:134 | `'/'.join`: the first piece, when there is one, is a prefix of the result |
| Text.JoinSplit | hmsclient/hmsclient.py:134 | joining the pieces of a split with the same separator gives back the original text |
| Text.SplitJoin | hmsclient/hmsclient.py:134 | splitting a join of separator-free pieces gives back exactly those pieces |
| Text.ParseDecimal | hmsclient/hmsclient.py:52 | `int` of port text succeeds exactly on non-empty all-digit text; otherwise it is the `ValueError` case |
| Text.ParseShowDecimal | hmsclient/hmsclient.py:60 | parsing the decimal spelling of a number gives back that number |
| SchemaCodec.ParseParam | hmsclient/hmsclient.py:93-99 | one specification without a colon is a column of that name with type `string`. With a colon, the name is the colon-free prefix before the first colon. The type is never empty and the comment is empty |
| SchemaCodec.SplitParam | hmsclient/hmsclient.py:94-97 | for a specification with a colon, `parts[0]` of its split is the name and `parts[1]`, or `string` when empty, is the type that `ParseParam` gives |
| SchemaCodec.MakeSchema | hmsclient/hmsclient.py:91-103 | the loop returns one field schema per input, in input order, each the meaning `ParseParam` gives its specification, each with an empty comment; so the result is `SchemaOf(params)` |
| SchemaCodec.ParseSchema | hmsclient/hmsclient.py:114 | one line per field schema, same length and order, each the name, a tab and the type |
| SchemaCodec.LineSplits | hmsclient/hmsclient.py:114 | a rendered line of tab-free name and type splits back on the tab into exactly that name and type |
| SchemaCodec.TypedParam | hmsclient/hmsclient.py:94-97 | `"n:t"` with colon-free `n` and non-empty colon-free `t` is column `n` of type `t` |
| SchemaCodec.EmptyTypeParam | hmsclient/hmsclient.py:97 | `"n:"` is column `n` of type `string` |
| SchemaCodec.ExtraColonsIgnored | hmsclient/hmsclient.py:95-97 | only the second colon-separated piece is the type: `"n:t:rest"` is column `n` of type `t` |
| SchemaCodec.ThreePieces | hmsclient/hmsclient.py:95-97 | `"a:b:c"` is column `a` of type `b` |
| SchemaCodec.RoundTrip | hmsclient/hmsclient.py:92-114 | through both helpers, `"n:t"` with colon-free `n` and non-empty colon-free `t` becomes `"n\tt"` |
| SchemaCodec.UntypedRoundTrip | hmsclient/hmsclient.py:92-114 | through both helpers, both `"n"` and `"n:"` with colon-free `n` become `"n\tstring"` |
| SchemaCodec.RoundTripAll | hmsclient/hmsclient.py:91-114 | a whole list of typed specifications `n_i:t_i` round-trips to the list of `n_i\tt_i`, in order |
| PartitionBuilder.KeyNames | hmsclient/hmsclient.py:128 | the partition key names, one per key, in key order |
| PartitionBuilder.KeyValueSegments | hmsclient/hmsclient.py:131 | one segment per key; the i-th is the i-th key name, `=`, and the i-th value |
| PartitionBuilder.MakePartition | hmsclient/hmsclient.py:128-136 | fails with `ValueError` exactly when the value count differs from the key count. On success: the values, database and table names are the inputs; the storage descriptor equals the table's in every field but `location`; the location is the table's location, `/`, and the `/`-joined segments |
| PartitionBuilder.LocationExtendsTable | hmsclient/hmsclient.py:134 | a partition location always starts with the table location followed by `/` |
| PartitionBuilder.NoPartitionKeys | hmsclient/hmsclient.py:131-134 | a table without partition keys accepts the empty value list, and the location is the table location plus a lone `/` |
| PartitionBuilder.LocationDecodes | hmsclient/hmsclient.py:131-134 | pairing is strictly positional: with `/`- and `=`-free key names and `/`-free values, the location suffix splits into one segment per key, giving back the i-th key name and the i-th value |
| PartitionBuilder.SegmentDecodes | hmsclient/hmsclient.py:131 | a segment `k=v` with `=`-free `k` gives back `k` before the first `=` and `v` after it |
| EndpointResolution.EnvGet | hmsclient/hmsclient.py:44 | `environ.get`: the variable's value when it is set, nothing otherwise |
| EndpointResolution.ChosenHost | hmsclient/hmsclient.py:43-47 | the host text is never empty. It is the host argument when that is set and non-empty, else `HMS_HOST` when that is set and non-empty, else `localhost` |
| EndpointResolution.PortChoice | hmsclient/hmsclient.py:54-58 | the port value after the fallbacks: the given one when truthy, else `HMS_PORT` as text when set and non-empty, else 9083; always truthy |
| EndpointResolution.PortNumber | hmsclient/hmsclient.py:60 | `int(port)` returns an integer port unchanged, and the value of port text that is a number. It fails exactly on port text that is not a number, and reports that text |
| EndpointResolution.WithPort | hmsclient/hmsclient.py:54-60 | the endpoint keeps the given host; a failure reports port text that is not a number |
| EndpointResolution.Resolve | hmsclient/hmsclient.py:42-60 | the reference meaning of the constructor's resolution: the host is the chosen text up to its first colon, and every error reports text that `int` rejects |
| EndpointResolution.ResolveEndpoint | hmsclient/hmsclient.py:42-60 | the step-by-step reassignment of `host` and `port` yields exactly the endpoint, or the `ValueError` from `int`, that `Resolve` defines |
| EndpointResolution.HostBeforeColon | hmsclient/hmsclient.py:49-51 | the resolved host is empty exactly when the chosen text starts with a colon |
| EndpointResolution.EmbeddedPort | hmsclient/hmsclient.py:49-58 | with a colon in the chosen host, text after it that is not a number is an error. A non-zero number is the port, whatever the port argument says. A zero falls back as if no port were given |
| EndpointResolution.PlainHost | hmsclient/hmsclient.py:54-60 | without a colon, the port is the port argument when set, else the parsed `HMS_PORT` (or its `ValueError`), else 9083 |
| EndpointResolution.DefaultEndpoint | hmsclient/hmsclient.py:43-58 | no arguments and an empty environment give `localhost:9083` |
| EndpointResolution.HostWithPort | hmsclient/hmsclient.py:49-52 | a chosen host `h:n` with a non-zero `n` gives `(h, n)`, whatever the port argument and `HMS_PORT` say |
| EndpointResolution.ExplicitHostPort | hmsclient/hmsclient.py:49-52 | an explicit `host:port` argument decides the endpoint regardless of the environment |
| EndpointResolution.EnvironmentHostPort | hmsclient/hmsclient.py:43-52 | `HMS_HOST=foo:123` and no arguments give `(foo, 123)` |
| EndpointResolution.ZeroEmbeddedPort | hmsclient/hmsclient.py:49-58 | `"bar:0"` with explicit port 1234 gives `(bar, 9083)`: the embedded 0 overwrites the argument and then counts as unset |
| EndpointResolution.EmptyHostFromLeadingColon | hmsclient/hmsclient.py:49-51 | `":123"` gives the empty host with port 123 |
| EndpointResolution.ZeroEnvironmentPort | hmsclient/hmsclient.py:54-60 | `HMS_PORT=0` is non-empty text, so host `h` gets port 0 |
| EndpointResolution.NegativeExplicitPort | hmsclient/hmsclient.py:54-60 | an explicit port -1 is truthy and is kept as it is |
| DropPlanner.PositionalRequest | hmsclient/hmsclient.py:171-172 | four positional constructor arguments fill `dbName`, `tblName`, `parts` and `deleteData`; `ifExists` and `needResult` keep their default of true |
| DropPlanner.PlanDropAsWritten | hmsclient/hmsclient.py:169-172 | as written: no request for an empty name list, otherwise the positional request with `need_result` in the fourth slot |
| DropPlanner.AsWrittenMisplacesNeedResult | hmsclient/hmsclient.py:171-172 | as written, `need_result=False` yields a request with `needResult` true and `deleteData` false |
| DropPlanner.PlanDropPartitions | hmsclient/hmsclient.py:169-172 | no request exactly when the name list is empty. Otherwise one request carrying the database, the table, the names unchanged and `need_result`; `deleteData` is unset |
| DropPlanner.PlansDifferOnlyInFlags | hmsclient/hmsclient.py:169-172 | the as-written and corrected plans send a request in the same cases. Their requests differ only in `deleteData` and `needResult` |
| DropPlanner.DropPartitionsCalls | hmsclient/hmsclient.py:169-172 | an empty name list issues no remote call; a non-empty one issues exactly one batched drop |
| DropPlanner.DropAllPartitionsCalls | hmsclient/hmsclient.py:174-177 | one listing call for the database and table, then exactly the calls `drop_partitions` makes for the same database, table, listed names and `need_result`: one drop of the listed names, or none when none were listed |
| DropPlanner.CheckForNamedPartition | hmsclient/hmsclient.py:149-154 | true exactly on a successful lookup and false exactly on "no such object". Any other error is propagated unchanged |

## Findings

| source | as written | input that shows it | evidently intended | confidence | as-written member | corrected member |
|---|---|---|---|---|---|---|
| hmsclient/hmsclient.py:171-172 | `DropPartitionsRequest(db_name, table_name, RequestPartsSpec(names), need_result)` passes `need_result` as the fourth positional argument. In the Hive 2.3.3 metastore interface that `generate.py` compiles, the fourth field is `deleteData`; `needResult` is the eighth | `drop_partitions("db", "t", ["p=1"], need_result=False)` | `need_result` sets `needResult`, as the docstring ("If true, return drop results") says | medium, not executed; the field order comes from `hive_metastore.thrift` of Hive release 2.3.3, which is not part of this model | DropPlanner.PlanDropAsWritten, DropPlanner.AsWrittenMisplacesNeedResult | DropPlanner.PlanDropPartitions |

`DropPartitionsCalls` and `DropAllPartitionsCalls` use the corrected plan
(see their lines under "Left out").

## Left out

- The Thrift socket, buffered transport and binary protocol built from the resolved endpoint, and the whole `iprot` branch of the constructor: calls into the Thrift library.
- `open`, `close`, `__enter__` and `__exit__`: they only forward to the transport. `__isOpened` is set on open and never reset, so there is no state to model.
- `add_partition`: it forwards the result of `make_partition` through a client attribute that is always `None`. `get_current_notification_id` and every inherited remote method are generated network calls.
- The remote calls `get_partition_by_name`, `get_partition_names` and `drop_partitions_req`: their answers are parameters (`LookupOutcome`, `listed`), or the call appears as a `RemoteCall` value. The result `drop_partitions` returns from the server is not modelled.
- Text.ParseDecimal: Python's `int` also accepts a sign, surrounding whitespace, underscores between digits, and non-ASCII Unicode decimal digits. The model treats those forms as the `ValueError` case. An explicit port argument may be a number (`IntPort`) or text (`TextPort`); text is parsed the way `HMS_PORT` is.
- DropPlanner.DropPartitionsCalls: the drop it records is the corrected request of `PlanDropPartitions`, not the positional one the code sends (`PlanDropAsWritten`, with `need_result` in `deleteData` and `needResult` true); only the number of calls is as written.
- DropPlanner.DropAllPartitionsCalls: the drop it records is the corrected request, as for `DropPartitionsCalls`. It also assumes the two-argument `get_partition_names(db_name, table_name)` call answers with `listed`. In the Hive 2.3.3 interface that call has a third parameter, `max_parts`; if the generated client method gives it no default, the code raises `TypeError` before any drop. The generated client is not part of this model.
- `make_partition` passes the caller's `values` list into the result without copying it, so in Python the partition and the caller share that list and a later change to one shows in the other. Values here cannot alias, so the model does not capture this.
- EndpointResolution.HostBeforeColon: does not promise a non-empty host, because the code returns an empty host for a chosen host such as `":123"`.
- `parse_schema` returns a lazy, one-shot `map` object. The model returns the sequence it would produce.
- Python's dynamic typing: values of other types (for example a `None` type in a `FieldSchema`) are not modelled. Fields are strings. `Table` and `StorageDescriptor` carry a subset of the Hive metastore's fields (for example `sortCols`, `skewedInfo` and `storedAsSubDirectories` are omitted); `MakePartition`'s ensures that every storage-descriptor field other than `location` equals the table's is stated by a record update, so it holds whatever the fields are.
- The constants `SIMPLE_SERDE`, `INPUT_FORMAT` and `OUTPUT_FORMAT` are declared and never used by the modelled code.
- `generate.py` (downloading the interface files, rewriting imports, running the Thrift compiler) and `setup.py` (packaging): offline tooling, not runtime logic.
