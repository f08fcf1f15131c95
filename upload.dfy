/**
  `MusicGenerator.upload_file`: a multipart POST of a local file, retried only
  when the POST times out, at most `max_retries` times in all.
 */
module Upload {
  import opened Wrappers
  import opened PyJson
  import opened Storage

  /** What one pass of the retry loop meets after the file-existence check. */
  datatype Attempt =
    | OpenFailed                                // open(file_path, 'rb') raised: no handle, no POST
    | TimedOut                                  // requests.exceptions.Timeout
    | RequestFailed                             // any other RequestException
    | Replied(status: int, body: Option<Json>)  // body None: response.json() raised

  /** The statuses for which `raise_for_status` raises HTTPError. */
  predicate IsHttpError(status: int) {
    400 <= status < 600
  }

  /** An upload response the source returns: a JSON object whose `base_resp.status_code` is 0. */
  predicate Accepted(a: Attempt) {
    && a.Replied?
    && !IsHttpError(a.status)
    && a.body.Some?
    && StatusCodeIsZero(a.body.value)
  }

  /** The return value of an attempt that did not time out. */
  function Settle(a: Attempt): Option<Json> {
    if Accepted(a) then a.body else None
  }

  /** The upload's return value and the number of POSTs it issued. */
  datatype UploadRun = UploadRun(result: Option<Json>, posts: nat)

  /** The loop from the pass with `retry_count == retryCount`, after that many timed-out POSTs. */
  function UploadFrom(fileExists: bool, maxRetries: int, network: nat -> Attempt, retryCount: nat): UploadRun
    decreases maxRetries - retryCount
  {
    if retryCount >= maxRetries || !fileExists then UploadRun(None, retryCount)
    else
      var a := network(retryCount);
      if a.TimedOut? then UploadFrom(fileExists, maxRetries, network, retryCount + 1)
      else UploadRun(Settle(a), if a.OpenFailed? then retryCount else retryCount + 1)
  }

  /** `upload_file(file_path, max_retries=maxRetries)` where `network(k)` is what the k-th pass meets. */
  function Upload(fileExists: bool, maxRetries: int, network: nat -> Attempt): UploadRun {
    UploadFrom(fileExists, maxRetries, network, 0)
  }

  /**
    The retry loop itself. It opens the file for each POST and, as the
    source's `finally` clause does, closes that handle on every exit of the
    pass; `handles` are the handles it opened, in order.
   */
  method UploadFile(disk: Disk, filePath: string, maxRetries: int, network: nat -> Attempt)
    returns (result: Option<Json>, posts: nat, handles: seq<FileHandle>)
    ensures UploadRun(result, posts) == Upload(filePath in disk.files, maxRetries, network)
    ensures |handles| == posts
    ensures forall h :: h in handles ==> h.path == filePath && !h.isOpen
  {
    ghost var fileExists := filePath in disk.files;
    var retryCount: nat := 0;
    posts, handles := 0, [];
    while retryCount < maxRetries
      invariant posts == retryCount == |handles|
      invariant forall h :: h in handles ==> h.path == filePath && !h.isOpen
      invariant UploadFrom(fileExists, maxRetries, network, retryCount) == Upload(fileExists, maxRetries, network)
      decreases maxRetries - retryCount
    {
      if filePath !in disk.files {
        return None, posts, handles;
      }
      var attempt := network(retryCount);
      if attempt.OpenFailed? {
        return None, posts, handles;
      }
      var handle := new FileHandle.Open(filePath);
      handles := handles + [handle];
      posts := posts + 1;
      if attempt.TimedOut? {
        handle.Close();
        retryCount := retryCount + 1;
        if retryCount < maxRetries {
          continue;
        } else {
          return None, posts, handles;
        }
      }
      result := Settle(attempt);
      handle.Close();
      return;
    }
    result := None;
  }

  /** The upload never issues more than `max_retries` POSTs, and none when that is not positive. */
  lemma UploadPostsBounded(fileExists: bool, maxRetries: int, network: nat -> Attempt)
    ensures Upload(fileExists, maxRetries, network).posts <= (if maxRetries > 0 then maxRetries else 0)
  {
    UploadFromPostsBounded(fileExists, maxRetries, network, 0);
  }

  lemma {:induction false} UploadFromPostsBounded(fileExists: bool, maxRetries: int, network: nat -> Attempt, k: nat)
    ensures var posts := UploadFrom(fileExists, maxRetries, network, k).posts;
            k <= posts <= (if maxRetries > k then maxRetries else k)
    decreases maxRetries - k
  {
    if k < maxRetries && fileExists && network(k).TimedOut? {
      UploadFromPostsBounded(fileExists, maxRetries, network, k + 1);
    }
  }

  /** When every POST times out there are exactly `max_retries` of them and the result is None. */
  lemma UploadAllTimeouts(fileExists: bool, maxRetries: int, network: nat -> Attempt)
    requires fileExists
    requires forall k: nat :: k < maxRetries ==> network(k) == TimedOut
    ensures Upload(fileExists, maxRetries, network) == UploadRun(None, if maxRetries > 0 then maxRetries else 0)
  {
    UploadFromAllTimeouts(fileExists, maxRetries, network, 0);
  }

  lemma {:induction false} UploadFromAllTimeouts(fileExists: bool, maxRetries: int, network: nat -> Attempt, k: nat)
    requires fileExists
    requires forall j: nat :: k <= j < maxRetries ==> network(j) == TimedOut
    ensures UploadFrom(fileExists, maxRetries, network, k) == UploadRun(None, if maxRetries > k then maxRetries else k)
    decreases maxRetries - k
  {
    if k < maxRetries {
      UploadFromAllTimeouts(fileExists, maxRetries, network, k + 1);
    }
  }

  /** With `max_retries <= 0` the loop body never runs. */
  lemma UploadWithoutRetries(fileExists: bool, maxRetries: int, network: nat -> Attempt)
    requires maxRetries <= 0
    ensures Upload(fileExists, maxRetries, network) == UploadRun(None, 0)
  {
  }

  /** A missing file ends the upload before any POST. */
  lemma UploadMissingFile(maxRetries: int, network: nat -> Attempt)
    ensures Upload(false, maxRetries, network) == UploadRun(None, 0)
  {
  }

  /**
    The first pass that does not time out ends the upload: the result is
    that pass's verdict, and every pass up to it posted once (a failed open
    posts nothing). Other transport errors are therefore never retried.
   */
  lemma UploadStopsAtFirstNonTimeout(fileExists: bool, maxRetries: int, network: nat -> Attempt, j: nat)
    requires fileExists && j < maxRetries
    requires forall k: nat :: k < j ==> network(k) == TimedOut
    requires network(j) != TimedOut
    ensures Upload(fileExists, maxRetries, network)
         == UploadRun(Settle(network(j)), if network(j) == OpenFailed then j else j + 1)
  {
    UploadFromStopsAt(fileExists, maxRetries, network, j, 0);
  }

  lemma {:induction false} UploadFromStopsAt(fileExists: bool, maxRetries: int, network: nat -> Attempt, j: nat, k: nat)
    requires fileExists && k <= j < maxRetries
    requires forall i: nat :: k <= i < j ==> network(i) == TimedOut
    requires network(j) != TimedOut
    ensures UploadFrom(fileExists, maxRetries, network, k)
         == UploadRun(Settle(network(j)), if network(j) == OpenFailed then j else j + 1)
    decreases j - k
  {
    if k < j {
      UploadFromStopsAt(fileExists, maxRetries, network, j, k + 1);
    }
  }

  /** A non-timeout transport error on the first POST: None after exactly one POST. */
  lemma UploadRequestErrorIsFinal(fileExists: bool, maxRetries: int, network: nat -> Attempt)
    requires fileExists && maxRetries > 0 && network(0) == RequestFailed
    ensures Upload(fileExists, maxRetries, network) == UploadRun(None, 1)
  {
    UploadStopsAtFirstNonTimeout(fileExists, maxRetries, network, 0);
  }

  /**
    The upload returns a value exactly when its last POST got a non-error
    reply whose `base_resp.status_code` is 0, and the value is that reply.
   */
  lemma UploadResultIsAcceptedReply(fileExists: bool, maxRetries: int, network: nat -> Attempt)
    ensures var run := Upload(fileExists, maxRetries, network);
            run.result.Some? <==> run.posts > 0 && Accepted(network(run.posts - 1))
    ensures var run := Upload(fileExists, maxRetries, network);
            run.result.Some? ==> run.result == network(run.posts - 1).body
  {
    UploadFromResult(fileExists, maxRetries, network, 0);
  }

  lemma {:induction false} UploadFromResult(fileExists: bool, maxRetries: int, network: nat -> Attempt, k: nat)
    ensures var run := UploadFrom(fileExists, maxRetries, network, k);
            && (run.result.Some? <==> run.posts > k && Accepted(network(run.posts - 1)))
            && (run.result.Some? ==> run.result == network(run.posts - 1).body)
    decreases maxRetries - k
  {
    if k < maxRetries && fileExists && network(k).TimedOut? {
      UploadFromResult(fileExists, maxRetries, network, k + 1);
    }
  }
}
