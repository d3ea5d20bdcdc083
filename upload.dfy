/**
 * The upload run of index.js: `walk` over the upload root, `uploadFile` for
 * one file, and `run` with its pool of workers sharing a cursor `i` and the
 * counters `ok` and `fail`.
 *
 * The directory tree is a value (`Entry`), the MIME lookup
 * `mime.getType(path.extname(f))` is the parameter `mimeTypes`, and the S3
 * sends for the file at index `j` are `sends(j)` (see module Retry).
 */
module Upload {
  import opened Common
  import opened KeyMapping
  import opened Retry

  const BUCKET := "sf2-assets"
  const PREFIX := "jay-test/"
  /** The public domain override; not set, so URLs use the storage endpoint. */
  const PUBLIC_DOMAIN: Option<string> := None
  const CONCURRENCY: nat := 8
  const CACHE_CONTROL := "public, max-age=31536000, immutable"
  const OCTET_STREAM := "application/octet-stream"

  /** A directory entry as `readdirSync(dir, { withFileTypes: true })` reports it. */
  datatype Entry = File(name: string) | Dir(name: string, entries: seq<Entry>)

  /** Directory entries have non-empty names, at every depth. */
  predicate WellNamed(entries: seq<Entry>)
    decreases entries
  {
    forall k :: 0 <= k < |entries| ==>
      entries[k].name != "" && (entries[k].Dir? ==> WellNamed(entries[k].entries))
  }

  /** The file paths `walk(dir)` returns: entries in order, a directory replaced by its own listing. */
  function Listing(dir: string, sep: char, entries: seq<Entry>): seq<string>
    requires WellNamed(entries)
    decreases entries
  {
    if entries == [] then []
    else
      var e := entries[|entries| - 1];
      assert WellNamed(entries[..|entries| - 1]);
      Listing(dir, sep, entries[..|entries| - 1]) +
      (if e.Dir? then Listing(Join(dir, e.name, sep), sep, e.entries) else [Join(dir, e.name, sep)])
  }

  /** Every path the traversal lists lies strictly under the directory it started from. */
  lemma {:induction false} ListingUnderRoot(dir: string, sep: char, entries: seq<Entry>)
    requires WellNamed(entries)
    ensures forall p :: p in Listing(dir, sep, entries) ==> IsUnder(dir, p, sep)
    decreases entries
  {
    if entries != [] {
      var init, e := entries[..|entries| - 1], entries[|entries| - 1];
      assert WellNamed(init);
      ListingUnderRoot(dir, sep, init);
      if e.Dir? {
        var sub := Join(dir, e.name, sep);
        ListingUnderRoot(sub, sep, e.entries);
        forall p | p in Listing(sub, sep, e.entries)
          ensures IsUnder(dir, p, sep)
        {
          UnderTransitive(dir, sub, p, sep);
        }
      }
    }
  }

  /** `walk(dir)`: a loop over the entries, recursing into sub-directories. */
  method Walk(dir: string, sep: char, entries: seq<Entry>) returns (files: seq<string>)
    requires WellNamed(entries)
    ensures files == Listing(dir, sep, entries)
    ensures forall p :: p in files ==> IsUnder(dir, p, sep)
    decreases entries
  {
    files := [];
    for k := 0 to |entries|
      invariant WellNamed(entries[..k])
      invariant files == Listing(dir, sep, entries[..k])
    {
      var e := entries[k];
      var full := Join(dir, e.name, sep);
      if e.Dir? {
        var sub := Walk(full, sep, e.entries);
        files := files + sub;
      } else {
        files := files + [full];
      }
      assert entries[..k + 1][..k] == entries[..k];
      assert WellNamed(entries[..k + 1]);
    }
    assert entries[..|entries|] == entries;
    ListingUnderRoot(dir, sep, entries);
  }

  /** `mime.getType(...) || "application/octet-stream"`: the lookup unless it is missing or empty. */
  function ContentType(lookup: Option<string>): (t: string)
    ensures t != ""
    ensures lookup.Some? && lookup.value != "" ==> t == lookup.value
    ensures lookup.None? || lookup.value == "" ==> t == OCTET_STREAM
  {
    if lookup.Some? && lookup.value != "" then lookup.value else OCTET_STREAM
  }

  /** The endpoint the S3 client is configured with. */
  function Endpoint(accountId: string): string
  {
    "https://" + accountId + ".r2.cloudflarestorage.com"
  }

  /**
   * The URL reported for an uploaded object: under the public domain when one
   * is set (and non-empty), else the endpoint followed by bucket and key.
   */
  function ObjectUrl(publicDomain: Option<string>, accountId: string, bucket: string, key: string): (url: string)
    ensures |url| > 8 + |key| && url[..8] == "https://"
    ensures url[|url| - |key| - 1..] == "/" + key
    ensures publicDomain.None? || publicDomain.value == "" ==>
      url == Endpoint(accountId) + "/" + bucket + "/" + key
  {
    if publicDomain.Some? && publicDomain.value != "" then "https://" + publicDomain.value + "/" + key
    else Endpoint(accountId) + "/" + bucket + "/" + key
  }

  /** The parameters of the `PutObjectCommand`; the body stream is named by the path it reads. */
  datatype PutRequest = PutRequest(bucket: string, key: string, body: string, contentType: string, cacheControl: string)

  /** What `uploadFile` returns on success. */
  datatype Uploaded = Uploaded(key: string, url: string)

  /** The PUT that `uploadFile(fullPath)` sends. */
  function RequestFor(root: string, sep: char, fullPath: string, mimeType: Option<string>): PutRequest
    requires IsUnder(root, fullPath, sep)
  {
    PutRequest(BUCKET, RelKey(PREFIX, root, sep, fullPath), fullPath, ContentType(mimeType), CACHE_CONTROL)
  }

  /**
   * `uploadFile(fullPath)`: one PUT through the retry executor with the
   * default budget; on success the key and its URL, otherwise the executor's
   * error, unchanged.
   */
  method UploadFile<R>(accountId: string, root: string, sep: char, fullPath: string,
                       mimeType: Option<string>, send: nat -> Attempt<R, Error>)
    returns (r: Result<Uploaded, Error>, request: PutRequest)
    requires IsUnder(root, fullPath, sep)
    ensures request == RequestFor(root, sep, fullPath, mimeType)
    ensures r.Ok? <==> RetryResult(send, DEFAULT_MAX_RETRIES).Ok?
    ensures r.Err? ==> r.error == RetryResult(send, DEFAULT_MAX_RETRIES).error
    ensures r.Ok? ==> r.value == Uploaded(request.key, ObjectUrl(PUBLIC_DOMAIN, accountId, BUCKET, request.key))
  {
    var key := RelKey(PREFIX, root, sep, fullPath);
    request := PutRequest(BUCKET, key, fullPath, ContentType(mimeType), CACHE_CONTROL);
    var sent, _, _ := PutWithRetry(send, DEFAULT_MAX_RETRIES);
    match sent
    case Ok(_) =>
      r := Ok(Uploaded(key, ObjectUrl(PUBLIC_DOMAIN, accountId, BUCKET, key)));
    case Err(e) =>
      r := Err(e);
  }

  /** Whether the upload of each of `n` files succeeds, given the sends it meets. */
  function UploadOutcomes<R>(sends: nat -> nat -> Attempt<R, Error>, n: nat): (outcomes: seq<bool>)
    ensures |outcomes| == n
    ensures forall j :: 0 <= j < n ==> outcomes[j] == RetryResult(sends(j), DEFAULT_MAX_RETRIES).Ok?
  {
    seq(n, j requires 0 <= j => RetryResult(sends(j), DEFAULT_MAX_RETRIES).Ok?)
  }

  /** Where one `worker()` is: at the test of its loop, awaiting the upload of file `idx`, or returned. */
  datatype Worker = AtLoopHead | Uploading(idx: nat, succeeded: bool) | Exited

  /** Where one file is: not yet claimed, claimed by a worker whose upload is pending, or counted. */
  datatype FileState = Unclaimed | InFlight(worker: nat) | Done(succeeded: bool)

  /** What `run` ends with: the early return, or the final `ok` and `fail` counters. */
  datatype RunReport = NoFiles | Summary(ok: nat, fail: nat)

  /** Counting the final file states is counting the outcomes they record. */
  lemma {:induction false} CountDone(state: seq<FileState>, outcomes: seq<bool>, b: bool)
    requires |state| == |outcomes|
    requires forall j :: 0 <= j < |state| ==> state[j] == Done(outcomes[j])
    ensures Count(state, Done(b)) == Count(outcomes, b)
  {
    if state != [] {
      CountDone(state[1..], outcomes[1..], b);
    }
  }

  /**
   * The invariant of the pool while it runs, over the cursor `i`, the
   * counters, the worker states and the file states: exactly the files below
   * the cursor have been claimed; a worker awaiting an upload holds an
   * in-flight file marked with that worker (so no two workers hold the same
   * file, and at most `CONCURRENCY` uploads are pending) and knows its
   * outcome; a counted file was counted with its outcome; a returned worker
   * saw the cursor at the end; `ok` and `fail` count the succeeded and the
   * failed files; and every claimed file is counted or held by a busy worker.
   */
  ghost predicate PoolInv(n: nat, i: nat, ok: nat, fail: nat, workers: seq<Worker>, state: seq<FileState>, outcomes: seq<bool>)
  {
    && |workers| == CONCURRENCY && |state| == n && |outcomes| == n && i <= n
    && (forall j :: 0 <= j < n ==> (state[j] == Unclaimed <==> i <= j))
    && (forall w :: 0 <= w < |workers| && workers[w].Uploading? ==>
          workers[w].idx < n && state[workers[w].idx] == InFlight(w) && workers[w].succeeded == outcomes[workers[w].idx])
    && (forall j :: 0 <= j < n && state[j].Done? ==> state[j].succeeded == outcomes[j])
    && (forall w :: 0 <= w < |workers| && workers[w] == Exited ==> i == n)
    && ok == Count(state, Done(true)) && fail == Count(state, Done(false))
    && ok + fail + CONCURRENCY == i + Count(workers, AtLoopHead) + Count(workers, Exited)
  }

  /** The termination measure of the pool: claims left, plus steps each worker has left besides claims. */
  function PoolMeasure(n: nat, i: nat, workers: seq<Worker>): int
  {
    2 * (n - i) + 2 * |workers| - Count(workers, AtLoopHead) - 2 * Count(workers, Exited)
  }

  /** The pool before any worker has run. */
  lemma PoolStart(outcomes: seq<bool>)
    ensures PoolInv(|outcomes|, 0, 0, 0, seq(CONCURRENCY, _ => AtLoopHead), seq(|outcomes|, _ => Unclaimed), outcomes)
  {
    var workers, state := seq(CONCURRENCY, _ => AtLoopHead), seq(|outcomes|, _ => Unclaimed);
    assert Done(true) !in state && Done(false) !in state && Exited !in workers;
    CountAll(workers, AtLoopHead);
  }

  /** A worker at its loop head claims index `i`; its upload will settle with that file's outcome. */
  lemma ClaimStep(n: nat, i: nat, ok: nat, fail: nat, workers: seq<Worker>, state: seq<FileState>, outcomes: seq<bool>, w: nat)
    requires PoolInv(n, i, ok, fail, workers, state, outcomes)
    requires w < |workers| && workers[w] == AtLoopHead && i < n
    ensures PoolInv(n, i + 1, ok, fail, workers[w := Uploading(i, outcomes[i])], state[i := InFlight(w)], outcomes)
    ensures 0 <= PoolMeasure(n, i + 1, workers[w := Uploading(i, outcomes[i])]) < PoolMeasure(n, i, workers)
  {
    var workers' := workers[w := Uploading(i, outcomes[i])];
    CountUpdate(state, i, InFlight(w), Done(true));
    CountUpdate(state, i, InFlight(w), Done(false));
    CountUpdate(workers, w, Uploading(i, outcomes[i]), AtLoopHead);
    CountUpdate(workers, w, Uploading(i, outcomes[i]), Exited);
    CountTwo(workers', AtLoopHead, Exited);
    var state' := state[i := InFlight(w)];
    forall v | 0 <= v < |workers'| && workers'[v].Uploading?
      ensures state'[workers'[v].idx] == InFlight(v)
    {
      if v != w {
        assert state[workers[v].idx] == InFlight(v) != Unclaimed == state[i];
      }
    }
    assert PoolInv(n, i + 1, ok, fail, workers', state', outcomes);
  }

  /** A worker at its loop head finds the cursor at the end and returns. */
  lemma ExitStep(n: nat, i: nat, ok: nat, fail: nat, workers: seq<Worker>, state: seq<FileState>, outcomes: seq<bool>, w: nat)
    requires PoolInv(n, i, ok, fail, workers, state, outcomes)
    requires w < |workers| && workers[w] == AtLoopHead && n <= i
    ensures PoolInv(n, i, ok, fail, workers[w := Exited], state, outcomes)
    ensures 0 <= PoolMeasure(n, i, workers[w := Exited]) < PoolMeasure(n, i, workers)
  {
    CountUpdate(workers, w, Exited, AtLoopHead);
    CountUpdate(workers, w, Exited, Exited);
    CountTwo(workers[w := Exited], AtLoopHead, Exited);
  }

  /** The upload a worker awaited settles: one counter goes up and the worker is back at its loop head. */
  lemma SettleStep(n: nat, i: nat, ok: nat, fail: nat, workers: seq<Worker>, state: seq<FileState>, outcomes: seq<bool>, w: nat)
    requires PoolInv(n, i, ok, fail, workers, state, outcomes)
    requires w < |workers| && workers[w].Uploading?
    ensures var idx, succeeded := workers[w].idx, workers[w].succeeded;
      PoolInv(n, i, if succeeded then ok + 1 else ok, if succeeded then fail else fail + 1,
              workers[w := AtLoopHead], state[idx := Done(succeeded)], outcomes)
    ensures 0 <= PoolMeasure(n, i, workers[w := AtLoopHead]) < PoolMeasure(n, i, workers)
  {
    var idx, succeeded := workers[w].idx, workers[w].succeeded;
    CountUpdate(state, idx, Done(succeeded), Done(true));
    CountUpdate(state, idx, Done(succeeded), Done(false));
    CountUpdate(workers, w, AtLoopHead, AtLoopHead);
    CountUpdate(workers, w, AtLoopHead, Exited);
    CountTwo(workers[w := AtLoopHead], AtLoopHead, Exited);
    var workers', state' := workers[w := AtLoopHead], state[idx := Done(succeeded)];
    forall v | 0 <= v < |workers'| && workers'[v].Uploading?
      ensures state'[workers'[v].idx] == InFlight(v)
    {
      assert state[workers[v].idx] == InFlight(v) != InFlight(w) == state[idx];
    }
    if succeeded {
      assert PoolInv(n, i, ok + 1, fail, workers', state', outcomes);
    } else {
      assert PoolInv(n, i, ok, fail + 1, workers', state', outcomes);
    }
  }

  /** Once every worker has returned, every file was claimed and counted: the counters are the outcome counts. */
  lemma PoolDone(n: nat, i: nat, ok: nat, fail: nat, workers: seq<Worker>, state: seq<FileState>, outcomes: seq<bool>)
    requires PoolInv(n, i, ok, fail, workers, state, outcomes)
    requires forall w :: 0 <= w < |workers| ==> workers[w] == Exited
    ensures i == n
    ensures ok == Count(outcomes, true) && fail == Count(outcomes, false) && ok + fail == n
  {
    assert workers[0] == Exited && AtLoopHead !in workers;
    CountAll(workers, Exited);
    CountTwo(state, Done(true), Done(false));
    assert forall j :: 0 <= j < n ==> state[j] == Done(outcomes[j]);
    CountDone(state, outcomes, true);
    CountDone(state, outcomes, false);
    CountBothFlags(outcomes);
  }

  /** What the first `i` claims did: claim indices 0 to `i - 1` in order and issue the PUT for each. */
  ghost predicate Issued(root: string, sep: char, files: seq<string>, mimeTypes: string -> Option<string>,
                         i: nat, claims: seq<nat>, requests: seq<PutRequest>)
    requires i <= |files| && forall k :: 0 <= k < |files| ==> IsUnder(root, files[k], sep)
  {
    && |claims| == i && (forall k :: 0 <= k < i ==> claims[k] == k)
    && |requests| == i && (forall k :: 0 <= k < i ==> requests[k] == RequestFor(root, sep, files[k], mimeTypes(files[k])))
  }

  /** Claiming index `i` and issuing its PUT extends what was issued by one. */
  lemma IssueStep(root: string, sep: char, files: seq<string>, mimeTypes: string -> Option<string>,
                  i: nat, claims: seq<nat>, requests: seq<PutRequest>)
    requires i < |files| && forall k :: 0 <= k < |files| ==> IsUnder(root, files[k], sep)
    requires Issued(root, sep, files, mimeTypes, i, claims, requests)
    ensures Issued(root, sep, files, mimeTypes, i + 1, claims + [i],
                   requests + [RequestFor(root, sep, files[i], mimeTypes(files[i]))])
  {
  }

  /**
   * Worker `w` at the test of its loop: while the cursor is short of the end
   * it claims `idx = i++` and issues the upload of `files[idx]`, whose
   * outcome it will later report; otherwise it returns.
   */
  method LoopHead<R>(accountId: string, root: string, sep: char, files: seq<string>,
                     mimeTypes: string -> Option<string>, sends: nat -> nat -> Attempt<R, Error>, w: nat,
                     i: nat, ok: nat, fail: nat, workers: seq<Worker>, claims: seq<nat>, requests: seq<PutRequest>,
                     ghost state: seq<FileState>, ghost outcomes: seq<bool>)
    returns (i': nat, workers': seq<Worker>, claims': seq<nat>, requests': seq<PutRequest>, ghost state': seq<FileState>)
    requires forall k :: 0 <= k < |files| ==> IsUnder(root, files[k], sep)
    requires outcomes == UploadOutcomes(sends, |files|)
    requires PoolInv(|files|, i, ok, fail, workers, state, outcomes)
    requires Issued(root, sep, files, mimeTypes, i, claims, requests)
    requires w < |workers| && workers[w] == AtLoopHead
    ensures i' == if i < |files| then i + 1 else i
    ensures workers' == if i < |files| then workers[w := Uploading(i, outcomes[i])] else workers[w := Exited]
    ensures state' == if i < |files| then state[i := InFlight(w)] else state
    ensures PoolInv(|files|, i', ok, fail, workers', state', outcomes)
    ensures Issued(root, sep, files, mimeTypes, i', claims', requests')
    ensures 0 <= PoolMeasure(|files|, i', workers') < PoolMeasure(|files|, i, workers)
  {
    if i < |files| {
      var r, request := UploadFile(accountId, root, sep, files[i], mimeTypes(files[i]), sends(i));
      ClaimStep(|files|, i, ok, fail, workers, state, outcomes, w);
      IssueStep(root, sep, files, mimeTypes, i, claims, requests);
      state' := state[i := InFlight(w)];
      workers' := workers[w := Uploading(i, r.Ok?)];
      claims', requests' := claims + [i], requests + [request];
      i' := i + 1;
    } else {
      ExitStep(|files|, i, ok, fail, workers, state, outcomes, w);
      i', workers', claims', requests', state' := i, workers[w := Exited], claims, requests, state;
    }
  }

  /**
   * The pool of `run()`: `CONCURRENCY` workers draining `files`. Each loop
   * iteration lets one worker that has not returned take its next step, the
   * worker being chosen arbitrarily, as the event loop may resume any of
   * them. A worker at its loop head either claims `i++` (test and increment
   * have no `await` between them) and issues that file's upload, or finds the
   * cursor at the end and returns; a worker whose upload settles bumps `ok`
   * or `fail` (a throwing upload is caught) and goes back to its loop head.
   * The pool is done when every worker has returned. `claims` lists the
   * indices in the order they were claimed and `requests` the PUT issued for
   * each claim.
   */
  method RunPool<R>(accountId: string, root: string, sep: char, files: seq<string>,
                    mimeTypes: string -> Option<string>, sends: nat -> nat -> Attempt<R, Error>)
    returns (ok: nat, fail: nat, claims: seq<nat>, requests: seq<PutRequest>)
    requires forall k :: 0 <= k < |files| ==> IsUnder(root, files[k], sep)
    ensures Issued(root, sep, files, mimeTypes, |files|, claims, requests)
    ensures ok + fail == |files|
    ensures ok == Count(UploadOutcomes(sends, |files|), true)
    ensures fail == Count(UploadOutcomes(sends, |files|), false)
  {
    var n := |files|;
    ghost var outcomes := UploadOutcomes(sends, n);
    var i := 0;
    ok, fail := 0, 0;
    claims, requests := [], [];
    var workers := seq(CONCURRENCY, _ => AtLoopHead);
    ghost var state := seq(n, _ => Unclaimed);
    PoolStart(outcomes);
    while exists w :: 0 <= w < |workers| && workers[w] != Exited
      invariant PoolInv(n, i, ok, fail, workers, state, outcomes)
      invariant i <= |files| && Issued(root, sep, files, mimeTypes, i, claims, requests)
      decreases PoolMeasure(n, i, workers)
    {
      var w :| 0 <= w < |workers| && workers[w] != Exited;
      match workers[w]
      case AtLoopHead =>
        i, workers, claims, requests, state :=
          LoopHead(accountId, root, sep, files, mimeTypes, sends, w, i, ok, fail, workers, claims, requests, state, outcomes);
      case Uploading(idx, succeeded) =>
        SettleStep(n, i, ok, fail, workers, state, outcomes, w);
        if succeeded {
          ok := ok + 1;
        } else {
          fail := fail + 1;
        }
        state := state[idx := Done(succeeded)];
        workers := workers[w := AtLoopHead];
    }
    PoolDone(n, i, ok, fail, workers, state, outcomes);
  }

  /**
   * `run()` once the upload root exists: walk it, return early when it holds
   * no file, otherwise run the pool and end with its counters.
   */
  method RunUpload<R>(accountId: string, root: string, sep: char, tree: seq<Entry>,
                      mimeTypes: string -> Option<string>, sends: nat -> nat -> Attempt<R, Error>)
    returns (files: seq<string>, report: RunReport, claims: seq<nat>, requests: seq<PutRequest>)
    requires WellNamed(tree)
    ensures files == Listing(root, sep, tree)
    ensures files == [] <==> report == NoFiles
    ensures |claims| == |files| && forall k :: 0 <= k < |claims| ==> claims[k] == k
    ensures |requests| == |files|
    ensures forall k :: 0 <= k < |files| ==>
      IsUnder(root, files[k], sep) && requests[k] == RequestFor(root, sep, files[k], mimeTypes(files[k]))
    ensures report.Summary? ==> report.ok + report.fail == |files|
    ensures report.Summary? ==> report.ok == Count(UploadOutcomes(sends, |files|), true)
    ensures report.Summary? ==> report.fail == Count(UploadOutcomes(sends, |files|), false)
  {
    files := Walk(root, sep, tree);
    if |files| == 0 {
      report, claims, requests := NoFiles, [], [];
      return;
    }
    var ok, fail;
    ok, fail, claims, requests := RunPool(accountId, root, sep, files, mimeTypes, sends);
    report := Summary(ok, fail);
  }

  /**
   * If exactly file `k0`'s upload fails all its retries, the run ends with
   * `ok` one short of the file count and `fail` at one: the failure neither
   * stops the pool nor touches the other files' outcomes.
   */
  lemma SingleFailureIsolated<R>(sends: nat -> nat -> Attempt<R, Error>, n: nat, k0: nat)
    requires k0 < n
    requires forall j :: 0 <= j < n ==> (RetryResult(sends(j), DEFAULT_MAX_RETRIES).Err? <==> j == k0)
    ensures Count(UploadOutcomes(sends, n), true) == n - 1
    ensures Count(UploadOutcomes(sends, n), false) == 1
  {
    CountSingleFalse(UploadOutcomes(sends, n), k0);
  }

  /** A directory holding a file and then a sub-directory lists the file, then the sub-directory's listing. */
  lemma ListingFileThenDir(dir: string, sep: char, file: string, sub: string, entries: seq<Entry>)
    requires file != "" && sub != "" && WellNamed(entries)
    ensures WellNamed([File(file), Dir(sub, entries)])
    ensures Listing(dir, sep, [File(file), Dir(sub, entries)]) ==
      [Join(dir, file, sep)] + Listing(Join(dir, sub, sep), sep, entries)
  {
    var tree := [File(file), Dir(sub, entries)];
    assert tree[..1] == [File(file)] && tree[..1][..0] == [];
    assert Listing(dir, sep, tree[..1]) == [Join(dir, file, sep)];
  }

  /** The tree of the example: `a.txt` and `sub/b.png`. */
  function ExampleTree(): seq<Entry>
  {
    [File("a.txt"), Dir("sub", [File("b.png")])]
  }

  /** Under any root, the example lists `a.txt`, then `sub/b.png`. */
  lemma ExampleListing(root: string, sep: char)
    ensures WellNamed(ExampleTree())
    ensures Listing(root, sep, ExampleTree()) == [root + [sep] + "a.txt", root + [sep] + "sub" + [sep] + "b.png"]
  {
  }

  /** `a.txt` directly under the root is uploaded as `jay-test/a.txt`, whatever the separator. */
  lemma ExampleKeyTop(root: string, sep: char)
    ensures IsUnder(root, root + [sep] + "a.txt", sep)
    ensures RelKey(PREFIX, root, sep, root + [sep] + "a.txt") == "jay-test/a.txt"
  {
    RelKeyWithoutBackslash(PREFIX, root, sep, Join(root, "a.txt", sep));
    assert PREFIX + "a.txt" == "jay-test/a.txt";
  }

  /** `sub/b.png` under the root is uploaded as `jay-test/sub/b.png` on either platform. */
  lemma ExampleKeyNested(root: string, sep: char)
    requires sep == '/' || sep == '\\'
    ensures IsUnder(root, root + [sep] + "sub" + [sep] + "b.png", sep)
    ensures RelKey(PREFIX, root, sep, root + [sep] + "sub" + [sep] + "b.png") == "jay-test/sub/b.png"
  {
    assert Join(Join(root, "sub", sep), "b.png", sep) == root + [sep] + "sub" + [sep] + "b.png";
    RelKeyNested(PREFIX, root, sep, "sub", "b.png");
    NestedKeySpelled();
  }

  /** The key of the nested example, spelled out. */
  lemma NestedKeySpelled()
    ensures PREFIX + ("sub" + "/" + "b.png") == "jay-test/sub/b.png"
  {
  }
}
