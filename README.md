# cloudflare-upload in Dafny

This project models the two scripts of cloudflare-upload.

`index.js` uploads every file under a local directory to an R2 (S3-compatible) bucket:
- It walks the upload root.
- It derives each object key from the `jay-test/` prefix and the file's path relative to the root, with backslashes turned into slashes.
- It sends each file as one PUT, retrying up to three times with waits of 300, 600 and 1200 ms.
- A pool of eight workers shares a cursor and two counters, `ok` and `fail`.

`delete.js` lists the objects under a prefix and deletes each one. A failed delete becomes a failure record for that object. It then counts the successes and the failures.

The remote store is modelled as functions from a request, or from a call number, to an outcome, `Sent(response)` or `Threw(error)`.
- The k-th call of one PUT settles as `send(k)`.
- The k-th call for the file at index `j` settles as `sends(j)(k)`.
- The listing settles as `list(request)`, and each delete as `del(request)`.

The directory tree is a value, `Upload.Entry`, and the MIME lookup is a parameter, `mimeTypes`.

Modules:
- `Common`: the result types and element counting.
- `KeyMapping`: path relativisation and `relKey`.
- `Retry`: `putWithRetry`.
- `Upload`: `walk`, `uploadFile` and the worker pool of `run`.
- `BulkDelete`: `deleteFilesInPath`.

**The worker pool** (`Upload.RunPool`) keeps the eight workers as states: at the loop test, awaiting an upload, or returned.
- Each loop iteration lets an arbitrarily chosen worker that has not returned take one step.
- Test-and-increment of the cursor has no `await` inside it, so claiming an index is one step.
- Every interleaving is therefore covered.
- The invariant (`Upload.PoolInv`) states four things:
  - exactly the indices below the cursor are claimed;
  - each busy worker holds a distinct in-flight file;
  - returned workers saw the cursor at the end;
  - `ok` and `fail` count the settled successes and failures.
- At the end the two counters are the numbers of files whose upload succeeded and failed, and they add up to the file count.

**Key derivation is not injective on POSIX.** The keys are meant to be distinct for distinct files, but the code replaces every backslash.
- A POSIX file named `a\b` and a directory `a` holding `b` map to the same key, `jay-test/a/b` (`KeyMapping.RelKeyCollision`).
- The model follows the code.
- `KeyMapping.RelKeyInjective` proves injectivity in two cases:
  - neither relative path holds a backslash (any POSIX tree without such names);
  - neither holds a slash (Windows, where names cannot contain one).

## Model

| member | source | states |
|---|---|---|
| KeyMapping.Relative | index.js:42-43 | the relative path of a file strictly under the root is non-empty, and root, separator and relative path rebuild the full path |
| KeyMapping.Join | index.js:34 | `path.join(dir, name)` is strictly under `dir`, and its path relative to `dir` is `name` |
| KeyMapping.ToSlashes | index.js:44 | `replaceAll("\\", "/")` keeps the length, turns each backslash into a slash, leaves every other character, and leaves no backslash |
| KeyMapping.RelKey | index.js:41-46 | the key is the prefix followed by the relative path character by character, with backslashes turned into slashes and none left |
| KeyMapping.RelKeyWithoutBackslash | index.js:41-46 | a relative path without backslashes is used verbatim after the prefix |
| KeyMapping.RelKeyNested | index.js:34-46 | a file `dir/name` under the root gets the key `prefix + dir + "/" + name` with either platform separator |
| KeyMapping.RelKeyInjective | index.js:41-46 | distinct files under one root get distinct keys when slash and backslash are not both in use in their relative paths |
| KeyMapping.RelKeyCollision | index.js:41-46 | on POSIX the distinct files `a\b` and `a/b` under one root both get the key `jay-test/a/b` |
| Retry.PutWithRetry | index.js:48-61 | at most `maxRetries + 1` calls; every call before the last threw; the response of the successful call, or the error of the last call after exactly `maxRetries + 1` calls; the k-th wait is `300 * 2^(k-1)` ms; the result is `Retry.RetryResult` |
| Retry.RetryFromFirstSuccess | index.js:51-59 | after some failures, if calls fail until call `k`, which succeeds, the outcome is call `k`'s response when `k` is within the budget, else the error of call `maxRetries` |
| Retry.RetrySucceedsIff | index.js:48-61 | an operation that fails exactly `k` times and then succeeds is reported as a success iff `k <= maxRetries`, with the first successful response |
| Retry.RetryAllFail | index.js:54-56 | when every call within the budget throws, the last call's error is rethrown unchanged |
| Retry.RetryUsesOnlyBudget | index.js:51-60 | the outcome depends only on the first `maxRetries + 1` calls |
| Retry.DefaultSchedule | index.js:57 | with the default budget of three retries the waits are 300, 600 and 1200 ms |
| Upload.ListingUnderRoot | index.js:30-39 | every path the traversal lists lies strictly under the directory it started from |
| Upload.Walk | index.js:30-39 | the loop returns the entries' paths in order, each directory replaced by its own listing, all under the starting directory |
| Upload.ListingFileThenDir | index.js:33-36 | a file followed by a sub-directory lists the file, then the sub-directory's listing |
| Upload.ExampleListing | index.js:30-39 | the tree `a.txt`, `sub/b.png` lists `root/a.txt`, then `root/sub/b.png` |
| Upload.ExampleKeyTop | index.js:41-46 | `a.txt` under the root is uploaded as `jay-test/a.txt` |
| Upload.ExampleKeyNested | index.js:41-46 | `sub/b.png` under the root is uploaded as `jay-test/sub/b.png` with either separator |
| Upload.ContentType | index.js:66-67 | the MIME lookup when it is present and non-empty, else `application/octet-stream`; never empty |
| Upload.ObjectUrl | index.js:78-80 | an `https://` URL ending in `/` and the key; without a public domain it is the endpoint, bucket and key |
| Upload.UploadFile | index.js:63-83 | the PUT carries the bucket, the derived key, the file, its content type and the cache header; the upload succeeds iff the retry executor does, its error is passed on unchanged, and on success it returns the key and its URL |
| Upload.PoolStart | index.js:102-105 | eight workers at their loop test, cursor and counters at zero, satisfy the pool invariant |
| Upload.ClaimStep | index.js:108-112 | a worker claiming `i++` keeps the pool invariant, and the pool moves closer to done |
| Upload.ExitStep | index.js:107-124 | a worker finding the cursor at the end returns, keeping the invariant |
| Upload.SettleStep | index.js:111-122 | a settled upload bumps `ok` on success or `fail` on a caught error, puts its worker back at the loop test, and keeps the invariant |
| Upload.PoolDone | index.js:126 | once every worker has returned, every file was claimed, and `ok` and `fail` are the numbers of succeeded and failed uploads, adding up to the file count |
| Upload.LoopHead | index.js:108-112 | one test of worker `w`'s loop: while the cursor is short of the end, `w` alone claims index `i`, which goes in flight with `w`, and issues its PUT, and the cursor moves on by one; otherwise `w` alone returns and nothing else changes; the invariant holds and the measure drops |
| Upload.RunPool | index.js:101-127 | the indices are claimed 0, 1, 2, … with one PUT issued per file, each exactly once; at the end `ok` and `fail` count the succeeded and the failed uploads and sum to the file count |
| Upload.RunUpload | index.js:85-128 | the files are the walk's listing; no files iff the early return; otherwise one PUT per file, and final counters equal to the success and failure counts |
| Upload.SingleFailureIsolated | index.js:111-122 | if only file `k0`'s upload fails, the success count is one short of the file count and the failure count is one; `Upload.RunUpload` reports exactly these counts as `ok` and `fail` |
| BulkDelete.Record | delete.js:55-62 | a record is a success iff its delete returned; a failure carries the error's message; both carry the key |
| BulkDelete.DeleteRequests | delete.js:49-53 | one delete request per listed object, in listing order, in the bucket |
| BulkDelete.Records | delete.js:49-65 | each object's record is determined by its own delete alone, in listing order |
| BulkDelete.DeleteFilesInPath | delete.js:28-74 | a failed listing is rethrown unchanged; an empty or missing listing returns early; otherwise one delete and one record per listed object, and the counts of successes and failures |
| BulkDelete.CountsAddUp | delete.js:65-67 | the two counts add up to the number of listed objects |
| BulkDelete.DeletesOnlyListed | delete.js:33-56 | only listed keys in the bucket are deleted; if the listing honours the prefix, no key outside the prefix is deleted |
| BulkDelete.SingleFailureIsolated | delete.js:55-67 | one throwing delete leaves every other object deleted and is the only failure counted |

## Left out

- The S3 client, its credentials and the environment (`dotenv`, `process.env`) are not modelled. Remote calls are the parameters `send`, `sends`, `list` and `del`.
- The file system is not modelled: `fs.existsSync`, with the `process.exit(1)` on a missing upload root, `fs.readdirSync` and the read stream. The tree is a value, and a PUT's body is the path it would read.
- `path.resolve`, `path.join` and `path.relative` are modelled only as joining and stripping with one separator character. Path normalisation (`.`, `..`, duplicate separators) is not modelled.
- `mime.getType(path.extname(...))` is the parameter `mimeTypes`.
- Logging (`console.log`, `console.error`) is left out, including the `[ok/total]` progress lines.
- Real time is left out. Retry waits are recorded as a list of delays instead of timers. `Math.pow` is taken as exact integer arithmetic, which it is for these small exponents.
- Upload.UploadFile: the outcomes of the remote calls are indexed by file and call number, not by the request. The request's bucket, key, body, content type and cache header are stated about the `request` the method returns, and the model does not tie them to what the store receives or how it responds.
- Retry.PutWithRetry: `maxRetries` is a natural number. A negative or non-integer budget, which JavaScript would accept, is not modelled.
- `Promise.all` and real concurrency are left out.
  - The upload pool's interleavings are modelled by an arbitrary choice of worker at each step.
  - The deletes of `delete.js` are modelled in listing order, one record per object, which is what `Promise.all` gathers.
- Upload.RunPool: the bound of at most eight pending uploads holds through the invariant (each in-flight file is marked with its one busy worker), but it is not stated as a separate count.
- Pagination of the bucket listing is not modelled. Like the code, the model makes one list call and deletes only what that page returns.
- The top-level `run().catch(...)` and `deleteFilesInPath(PREFIX).catch(...)` handlers, which log and exit, are left out.
