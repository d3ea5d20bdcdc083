/**
 * `deleteFilesInPath(prefix)` of delete.js: one listing of the bucket under
 * `prefix`, then one delete per listed object, each failure caught into that
 * object's outcome record, then the two counts. The S3 client is the pair of
 * functions `list` and `del`: how the list call and each delete call settle.
 * The deletes run concurrently in the source; their records are gathered in
 * listing order, as `Promise.all` does, so order of completion is immaterial.
 */
module BulkDelete {
  import opened Common

  const BUCKET := "sf2-assets"
  const PREFIX := "jay-test/"

  /** The parameters of the `ListObjectsV2Command`. */
  datatype ListRequest = ListRequest(bucket: string, prefix: string)

  datatype ListedObject = ListedObject(key: string)

  /** The list call's response; `contents` is absent when nothing matched. */
  datatype ListResponse = ListResponse(contents: Option<seq<ListedObject>>)

  /** The parameters of one `DeleteObjectCommand`. */
  datatype DeleteRequest = DeleteRequest(bucket: string, key: string)

  /** `{ success, key, error }` as built for each object. */
  datatype DeleteRecord = DeleteRecord(success: bool, key: string, error: Option<string>)

  /** A delete run that got past the listing: the early return, or the deletes issued, their records and the counts. */
  datatype DeleteRun =
    | NothingToDelete(listing: ListRequest)
    | Completed(listing: ListRequest, deletes: seq<DeleteRequest>, results: seq<DeleteRecord>, successful: nat, failed: nat)

  /** The listed objects: none when `Contents` is missing. */
  function Listed(response: ListResponse): seq<ListedObject>
  {
    match response.contents
    case None => []
    case Some(objects) => objects
  }

  /** The record for one object: success when its delete returned, else failure with the error's message. */
  function Record<R>(key: string, sent: Attempt<R, Error>): (rec: DeleteRecord)
    ensures rec.key == key
    ensures rec.success <==> sent.Sent?
    ensures rec.error == if sent.Sent? then None else Some(sent.error.message)
  {
    match sent
    case Sent(_) => DeleteRecord(true, key, None)
    case Threw(e) => DeleteRecord(false, key, Some(e.message))
  }

  /** One delete request per listed object, in listing order. */
  function DeleteRequests(objects: seq<ListedObject>): (requests: seq<DeleteRequest>)
    ensures |requests| == |objects|
    ensures forall k :: 0 <= k < |objects| ==> requests[k] == DeleteRequest(BUCKET, objects[k].key)
  {
    if objects == [] then [] else [DeleteRequest(BUCKET, objects[0].key)] + DeleteRequests(objects[1..])
  }

  /** The outcome records of `Promise.all(deletePromises)`: each object's record depends on its own delete only. */
  function Records<R>(objects: seq<ListedObject>, del: DeleteRequest -> Attempt<R, Error>): (results: seq<DeleteRecord>)
    ensures |results| == |objects|
    ensures forall k :: 0 <= k < |objects| ==>
      results[k] == Record(objects[k].key, del(DeleteRequest(BUCKET, objects[k].key)))
  {
    if objects == [] then []
    else [Record(objects[0].key, del(DeleteRequest(BUCKET, objects[0].key)))] + Records(objects[1..], del)
  }

  /** The `success` flags of the records, in order. */
  function Flags(results: seq<DeleteRecord>): (flags: seq<bool>)
    ensures |flags| == |results|
    ensures forall k :: 0 <= k < |results| ==> flags[k] == results[k].success
  {
    seq(|results|, k requires 0 <= k < |results| => results[k].success)
  }

  /**
   * `deleteFilesInPath(prefix)`: a failed listing is rethrown unchanged and
   * nothing is deleted; an empty or missing listing returns early; otherwise
   * every listed object gets one delete and one record, and the counts are
   * `results.filter(r => r.success).length` and its complement.
   */
  function DeleteFilesInPath<R>(prefix: string, list: ListRequest -> Result<ListResponse, Error>,
                                del: DeleteRequest -> Attempt<R, Error>): (r: Result<DeleteRun, Error>)
    ensures list(ListRequest(BUCKET, prefix)).Err? <==> r.Err?
    ensures r.Err? ==> r.error == list(ListRequest(BUCKET, prefix)).error
    ensures r.Ok? ==> r.value.listing == ListRequest(BUCKET, prefix)
    ensures r.Ok? ==> (r.value.NothingToDelete? <==> Listed(list(ListRequest(BUCKET, prefix)).value) == [])
    ensures r.Ok? && r.value.Completed? ==>
      var objects := Listed(list(ListRequest(BUCKET, prefix)).value);
      && |r.value.deletes| == |r.value.results| == |objects|
      && (forall k :: 0 <= k < |objects| ==>
            r.value.deletes[k] == DeleteRequest(BUCKET, objects[k].key) &&
            r.value.results[k] == Record(objects[k].key, del(r.value.deletes[k])))
      && r.value.successful == Count(Flags(r.value.results), true)
      && r.value.failed == Count(Flags(r.value.results), false)
  {
    var listing := ListRequest(BUCKET, prefix);
    match list(listing)
    case Err(e) => Err(e)
    case Ok(response) =>
      var objects := Listed(response);
      if objects == [] then Ok(NothingToDelete(listing))
      else
        var results := Records(objects, del);
        Ok(Completed(listing, DeleteRequests(objects), results,
                     Count(Flags(results), true), Count(Flags(results), false)))
  }

  /** Every record is either a success or a failure: the two counts add up to the number of listed objects. */
  lemma CountsAddUp<R>(prefix: string, list: ListRequest -> Result<ListResponse, Error>, del: DeleteRequest -> Attempt<R, Error>)
    requires DeleteFilesInPath(prefix, list, del).Ok?
    ensures var run := DeleteFilesInPath(prefix, list, del).value;
      run.Completed? ==>
        run.successful + run.failed == |run.results| == |Listed(list(ListRequest(BUCKET, prefix)).value)|
  {
    var run := DeleteFilesInPath(prefix, list, del).value;
    if run.Completed? {
      CountBothFlags(Flags(run.results));
    }
  }

  /**
   * Only listed keys are deleted, and only in the bucket; when the store
   * honours the prefix of the list request, no key outside `prefix` is deleted.
   */
  lemma DeletesOnlyListed<R>(prefix: string, list: ListRequest -> Result<ListResponse, Error>, del: DeleteRequest -> Attempt<R, Error>)
    requires DeleteFilesInPath(prefix, list, del).Ok?
    ensures var run := DeleteFilesInPath(prefix, list, del).value;
      var objects := Listed(list(ListRequest(BUCKET, prefix)).value);
      run.Completed? ==> forall d :: d in run.deletes ==>
        d.bucket == BUCKET && (exists o :: o in objects && o.key == d.key) &&
        ((forall o :: o in objects ==> |prefix| <= |o.key| && o.key[..|prefix|] == prefix) ==>
           |prefix| <= |d.key| && d.key[..|prefix|] == prefix)
  {
  }

  /** One object whose delete throws does not stop the others: its failure is the only one counted. */
  lemma SingleFailureIsolated<R>(prefix: string, list: ListRequest -> Result<ListResponse, Error>,
                                 del: DeleteRequest -> Attempt<R, Error>, k0: nat)
    requires DeleteFilesInPath(prefix, list, del).Ok? && DeleteFilesInPath(prefix, list, del).value.Completed?
    requires var objects := Listed(list(ListRequest(BUCKET, prefix)).value);
      k0 < |objects| &&
      forall k :: 0 <= k < |objects| ==> (del(DeleteRequest(BUCKET, objects[k].key)).Threw? <==> k == k0)
    ensures var run := DeleteFilesInPath(prefix, list, del).value;
      run.failed == 1 && run.successful == |run.results| - 1 &&
      !run.results[k0].success && forall k :: 0 <= k < |run.results| && k != k0 ==> run.results[k].success
  {
    var run := DeleteFilesInPath(prefix, list, del).value;
    CountSingleFalse(Flags(run.results), k0);
  }
}
