/** The decisions HMSClient takes before dropping partitions or probing for a
    named one: whether a drop request is sent at all, what that one request
    carries, and how the outcome of a lookup becomes a boolean. The remote
    calls themselves are parameters or traces of calls. */
module DropPlanner {
  import opened Wrappers
  import opened PartitionBuilder

  /** Which partitions a drop request names; only the list-of-names form is used. */
  datatype RequestPartsSpec = Names(names: seq<string>)

  /** The drop request of the Hive 2.3.3 metastore interface, with its fields
      in declared order (the environment context, always left unset here, is
      omitted). `None` is a field left unset. */
  datatype DropPartitionsRequest = DropPartitionsRequest(
    dbName: string,
    tblName: string,
    parts: RequestPartsSpec,
    deleteData: Option<bool>,
    ifExists: Option<bool>,
    ignoreProtection: Option<bool>,
    needResult: Option<bool>)

  /** The request built from four positional constructor arguments: the
      fourth fills `deleteData`; `ifExists` and `needResult` keep their
      declared default of true. */
  function PositionalRequest(dbName: string, tblName: string, parts: RequestPartsSpec, fourth: Option<bool>): (q: DropPartitionsRequest)
    ensures q.deleteData == fourth && q.needResult == Some(true) && q.ifExists == Some(true)
    ensures q.dbName == dbName && q.tblName == tblName && q.parts == parts && q.ignoreProtection == None
  {
    DropPartitionsRequest(dbName, tblName, parts, fourth, Some(true), None, Some(true))
  }

  /** `drop_partitions` as written: the caller's `need_result` is passed as
      the fourth positional argument. */
  function PlanDropAsWritten(dbName: string, tblName: string, names: seq<string>, needResult: Option<bool>)
    : (r: Option<DropPartitionsRequest>)
    ensures r.None? <==> names == []
    ensures r.Some? ==> r.value == PositionalRequest(dbName, tblName, Names(names), needResult)
  {
    if names == [] then None
    else Some(PositionalRequest(dbName, tblName, Names(names), needResult))
  }

  /** As written, asking for no drop result sends a request that asks for
      the result and tells the metastore not to delete the data. */
  lemma AsWrittenMisplacesNeedResult()
    ensures var r := PlanDropAsWritten("db", "t", ["p=1"], Some(false));
            r.Some? && r.value.needResult == Some(true) && r.value.deleteData == Some(false)
  {
  }

  /** `drop_partitions` with `need_result` in its own field: no request for an
      empty name list; otherwise exactly one request carrying the database,
      the table, the names unchanged and `need_result`, with `deleteData`
      left unset. */
  function PlanDropPartitions(dbName: string, tblName: string, names: seq<string>, needResult: Option<bool>)
    : (r: Option<DropPartitionsRequest>)
    ensures r.None? <==> names == []
    ensures r.Some? ==>
              r.value.dbName == dbName && r.value.tblName == tblName && r.value.parts == Names(names) &&
              r.value.needResult == needResult && r.value.deleteData == None &&
              r.value.ifExists == Some(true) && r.value.ignoreProtection == None
  {
    if names == [] then None
    else Some(DropPartitionsRequest(dbName, tblName, Names(names), None, Some(true), None, needResult))
  }

  /** The written and the corrected plan agree on when a request is sent and
      on everything but the two boolean fields involved. */
  lemma PlansDifferOnlyInFlags(dbName: string, tblName: string, names: seq<string>, needResult: Option<bool>)
    ensures PlanDropAsWritten(dbName, tblName, names, needResult).None?
        <==> PlanDropPartitions(dbName, tblName, names, needResult).None?
    ensures names != [] ==>
              PlanDropAsWritten(dbName, tblName, names, needResult).value
              == PlanDropPartitions(dbName, tblName, names, needResult).value.(deleteData := needResult, needResult := Some(true))
  {
  }

  /** A remote call the planner issues. */
  datatype RemoteCall =
    | GetPartitionNames(dbName: string, tblName: string)
    | DropPartitionsReq(request: DropPartitionsRequest)

  /** The remote calls of `drop_partitions`: none for an empty list, else one. */
  function DropPartitionsCalls(dbName: string, tblName: string, names: seq<string>, needResult: Option<bool>)
    : (calls: seq<RemoteCall>)
    ensures names == [] <==> calls == []
    ensures names != [] ==> calls == [DropPartitionsReq(PlanDropPartitions(dbName, tblName, names, needResult).value)]
  {
    match PlanDropPartitions(dbName, tblName, names, needResult)
    case None => []
    case Some(q) => [DropPartitionsReq(q)]
  }

  /** The remote calls of `drop_all_partitions`, where `listed` is what the
      listing call answered: first the listing, then the drop of exactly the
      listed names, or nothing more when none were listed. Partitions created
      between the two calls are not dropped. */
  function DropAllPartitionsCalls(dbName: string, tblName: string, listed: seq<string>, needResult: Option<bool>)
    : (calls: seq<RemoteCall>)
    ensures 1 <= |calls| <= 2 && calls[0] == GetPartitionNames(dbName, tblName)
    ensures |calls| == 1 <==> listed == []
    ensures |calls| == 2 ==> calls[1].DropPartitionsReq? && calls[1].request.parts == Names(listed)
    ensures calls[1..] == DropPartitionsCalls(dbName, tblName, listed, needResult)
  {
    [GetPartitionNames(dbName, tblName)] + DropPartitionsCalls(dbName, tblName, listed, needResult)
  }

  /** A failure the metastore or the transport reports, other than "no such object". */
  datatype RemoteError = RemoteError(kind: string, message: string)

  /** How the lookup of a partition by name ended. */
  datatype LookupOutcome = Found(partition: Partition) | NoSuchObject(message: string) | OtherError(error: RemoteError)

  /** `check_for_named_partition`: true when the lookup finds the partition,
      false when the metastore says there is no such object, and any other
      error passed on unchanged. */
  function CheckForNamedPartition(outcome: LookupOutcome): (r: Result<bool, RemoteError>)
    ensures r == Success(true) <==> outcome.Found?
    ensures r == Success(false) <==> outcome.NoSuchObject?
    ensures r.Failure? <==> outcome.OtherError?
    ensures r.Failure? ==> r.error == outcome.error
  {
    match outcome
    case Found(_) => Success(true)
    case NoSuchObject(_) => Success(false)
    case OtherError(e) => Failure(e)
  }
}
