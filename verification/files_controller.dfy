/**
 * The Supabase-backed file handlers of controllers/files.controller.js.
 *
 * The `project_files` storage bucket and the `files` metadata table are two
 * maps keyed by the file path `userId + "/" + path`. `handleUpdateFiles`
 * applies a parsed batch of `{action, path, content}` operations to them one
 * at a time: `add`/`update` upload the blob and upsert a row whose version is
 * one more than the stored one and whose `previous_versions` gain the old
 * version; `delete` removes the blob and then the row. The first storage
 * error aborts the batch and nothing already done is undone.
 *
 * Storage answers are not computed by the model: for operation `i` the
 * environment `env(i)` says whether a call fails (and with what message),
 * whether the lookup of the existing row errs, and what the clock reads.
 */
module FilesController {
  import opened Base
  import opened Text

  // ---------------------------------------------------------------------
  // Stored data
  // ---------------------------------------------------------------------

  /** One element of a row's `previous_versions`. */
  datatype VersionEntry = VersionEntry(version: int, content: string, modifiedAt: string, modifiedBy: string)

  /**
   * A row of the `files` table. The scalar columns the handler reads
   * through `||` may be absent in rows written by other code, so they are
   * optional. A missing `previous_versions` reads as `[]` through its `||`,
   * so the history is a plain sequence with the empty one standing for it.
   */
  datatype FileRow = FileRow(
    userId: string,
    filename: string,
    filePath: string,
    contentType: string,
    size: nat,
    content: Option<string>,
    version: Option<int>,
    previousVersions: seq<VersionEntry>,
    lastModified: Option<string>,
    modifiedBy: Option<string>)

  /** The storage bucket and the metadata table, both keyed by file path. */
  datatype Store = Store(blobs: map<string, string>, rows: map<string, FileRow>)

  /** The file path of `path` for `userId`: `${userId}/${file.path}`. */
  function Key(userId: string, path: string): string
  {
    userId + "/" + path
  }

  /** Within one user, distinct paths give distinct keys. */
  lemma KeyInjective(userId: string, p1: string, p2: string)
    ensures Key(userId, p1) == Key(userId, p2) <==> p1 == p2
  {
    if Key(userId, p1) == Key(userId, p2) {
      assert p1 == Key(userId, p1)[|userId| + 1..];
      assert p2 == Key(userId, p2)[|userId| + 1..];
    }
  }

  /**
   * Keys are plain string concatenations, so two users can reach the same
   * key: user "a/b" with path "c" and user "a" with path "b/c".
   */
  lemma KeysOfDistinctUsersMayCollide()
    ensures Key("a/b", "c") == Key("a", "b/c")
  {
  }

  // ---------------------------------------------------------------------
  // The environment of one operation
  // ---------------------------------------------------------------------

  /** The storage calls of one operation, in the order they are made. */
  datatype Stage = RemoveBlob | DeleteRow | Upload | Upsert

  datatype Failure = NoFailure | FailsAt(stage: Stage, message: string)

  /**
   * What the outside world answers while operation `i` runs: the time
   * `new Date().toISOString()` returns, whether the `.single()` lookup of
   * the existing row errs (its error is never read), and which storage call,
   * if any, reports an error.
   */
  datatype StepEnv = StepEnv(now: string, lookupFails: bool, failure: Failure)

  function FailureAt(env: StepEnv, stage: Stage): Option<string>
  {
    if env.failure.FailsAt? && env.failure.stage == stage then Some(env.failure.message) else None
  }

  /** The calls an operation makes: the two removals for delete, upload and upsert for add/update. */
  predicate Reaches(op: FileOp, stage: Stage)
  {
    if IsDelete(op) then stage == RemoveBlob || stage == DeleteRow
    else if IsWrite(op) then stage == Upload || stage == Upsert
    else false
  }

  /** The operation makes the call that the environment says fails. */
  predicate StepFails(op: FileOp, env: StepEnv)
  {
    env.failure.FailsAt? && Reaches(op, env.failure.stage)
  }

  // ---------------------------------------------------------------------
  // One operation (controllers/files.controller.js:99-165)
  // ---------------------------------------------------------------------

  /** `a || d` for an optional string column: absent and "" are both falsy. */
  function OrElse(s: Option<string>, d: string): string
  {
    if s.Some? && s.value != "" then s.value else d
  }

  /** `existingFile.version || 1`: an absent or zero version reads as 1. */
  function StoredVersion(row: FileRow): int
  {
    if row.version.Some? && row.version.value != 0 then row.version.value else 1
  }

  /** The entry pushed onto `previous_versions` for the row being replaced. */
  function Archived(row: FileRow, userId: string, now: string): VersionEntry
  {
    VersionEntry(StoredVersion(row), OrElse(row.content, ""), OrElse(row.lastModified, now), OrElse(row.modifiedBy, userId))
  }

  /** The row upserted by add/update, given the row the lookup returned (if any). */
  function WrittenRow(existing: Option<FileRow>, userId: string, op: FileOp, now: string): FileRow
  {
    FileRow(
      userId,
      Basename(op.path),
      Key(userId, op.path),
      "text/plain",
      Utf8Length(op.content),
      Some(op.content),
      Some(if existing.Some? then StoredVersion(existing.value) + 1 else 1),
      if existing.Some? then existing.value.previousVersions + [Archived(existing.value, userId, now)] else [],
      Some(now),
      Some(userId))
  }

  /** The store after one step and the message of the error it threw, if any. */
  datatype Applied = Applied(store: Store, error: Option<string>)

  /** What the lookup of line 119-123 returns: the row, or nothing when absent or when the query errs. */
  function Lookup(s: Store, key: string, lookupFails: bool): Option<FileRow>
  {
    if key in s.rows && !lookupFails then Some(s.rows[key]) else None
  }

  /**
   * One operation of the batch. It throws exactly when one of its storage
   * calls fails, and it never touches a key other than its own.
   */
  function ApplyOp(s: Store, userId: string, op: FileOp, env: StepEnv): (r: Applied)
    ensures r.error.Some? <==> StepFails(op, env)
    ensures r.error.Some? ==> r.error == Some(env.failure.message)
    ensures r.store.blobs - {Key(userId, op.path)} == s.blobs - {Key(userId, op.path)}
    ensures r.store.rows - {Key(userId, op.path)} == s.rows - {Key(userId, op.path)}
    ensures !Touches(op) ==> r == Applied(s, None)
  {
    var key := Key(userId, op.path);
    if IsDelete(op) then
      if FailureAt(env, RemoveBlob).Some? then Applied(s, FailureAt(env, RemoveBlob))
      else
        var afterRemove := Store(s.blobs - {key}, s.rows);
        if FailureAt(env, DeleteRow).Some? then Applied(afterRemove, FailureAt(env, DeleteRow))
        else Applied(Store(afterRemove.blobs, s.rows - {key}), None)
    else if IsWrite(op) then
      var existing := Lookup(s, key, env.lookupFails);
      if FailureAt(env, Upload).Some? then Applied(s, FailureAt(env, Upload))
      else
        var afterUpload := Store(s.blobs[key := op.content], s.rows);
        if FailureAt(env, Upsert).Some? then Applied(afterUpload, FailureAt(env, Upsert))
        else Applied(Store(afterUpload.blobs, s.rows[key := WrittenRow(existing, userId, op, env.now)]), None)
    else
      Applied(s, None)
  }

  // ---------------------------------------------------------------------
  // The batch (controllers/files.controller.js:99-165)
  // ---------------------------------------------------------------------

  /** Operations `i..` of the batch, in order, stopping at the first error. */
  function ApplyFrom(s: Store, userId: string, ops: seq<FileOp>, env: nat -> StepEnv, i: nat): Applied
    requires i <= |ops|
    decreases |ops| - i
  {
    if i == |ops| then Applied(s, None)
    else
      var r := ApplyOp(s, userId, ops[i], env(i));
      if r.error.Some? then r else ApplyFrom(r.store, userId, ops, env, i + 1)
  }

  /** The whole batch. */
  function ApplyBatch(s: Store, userId: string, ops: seq<FileOp>, env: nat -> StepEnv): Applied
  {
    ApplyFrom(s, userId, ops, env, 0)
  }

  // ---------------------------------------------------------------------
  // Properties of one operation
  // ---------------------------------------------------------------------

  /** add/update of a file with no row: version 1, no history, the new content and its metadata. */
  lemma WriteCreatesVersionOne(s: Store, userId: string, op: FileOp, env: StepEnv)
    requires IsWrite(op) && !StepFails(op, env)
    requires Lookup(s, Key(userId, op.path), env.lookupFails).None?
    ensures var r := ApplyOp(s, userId, op, env);
            var key := Key(userId, op.path);
            r.error.None?
            && r.store.blobs == s.blobs[key := op.content]
            && key in r.store.rows
            && r.store.rows == s.rows[key := r.store.rows[key]]
            && r.store.rows[key].version == Some(1)
            && r.store.rows[key].previousVersions == []
            && r.store.rows[key].content == Some(op.content)
            && r.store.rows[key].size == Utf8Length(op.content)
            && r.store.rows[key].filename == Basename(op.path)
            && r.store.rows[key].contentType == "text/plain"
            && r.store.rows[key].filePath == key
            && r.store.rows[key].modifiedBy == Some(userId)
            && r.store.rows[key].lastModified == Some(env.now)
  {
  }

  /**
   * add/update of a file whose row the lookup finds at version v (an absent
   * or zero version read as 1): version v + 1, and the history gains the
   * replaced version, its content and its author.
   */
  lemma WriteBumpsVersion(s: Store, userId: string, op: FileOp, env: StepEnv)
    requires IsWrite(op) && !StepFails(op, env)
    requires Key(userId, op.path) in s.rows && !env.lookupFails
    ensures var r := ApplyOp(s, userId, op, env);
            var key := Key(userId, op.path);
            var old_ := s.rows[key];
            r.error.None?
            && r.store.blobs == s.blobs[key := op.content]
            && key in r.store.rows
            && r.store.rows == s.rows[key := r.store.rows[key]]
            && r.store.rows[key].version == Some(StoredVersion(old_) + 1)
            && r.store.rows[key].content == Some(op.content)
            && r.store.rows[key].previousVersions
               == old_.previousVersions
                  + [VersionEntry(StoredVersion(old_), OrElse(old_.content, ""),
                                  OrElse(old_.lastModified, env.now), OrElse(old_.modifiedBy, userId))]
  {
  }

  /** The lookup's error is ignored: the existing row is overwritten at version 1 and its history is lost. */
  lemma LookupErrorResetsHistory(s: Store, userId: string, op: FileOp, env: StepEnv)
    requires IsWrite(op) && !StepFails(op, env) && env.lookupFails
    ensures var r := ApplyOp(s, userId, op, env);
            var key := Key(userId, op.path);
            key in r.store.rows
            && r.store.rows[key].version == Some(1)
            && r.store.rows[key].previousVersions == []
  {
  }

  /** delete removes the blob and the row of its key and nothing else. */
  lemma DeleteRemovesBlobAndRow(s: Store, userId: string, op: FileOp, env: StepEnv)
    requires IsDelete(op) && !StepFails(op, env)
    ensures var key := Key(userId, op.path);
            ApplyOp(s, userId, op, env) == Applied(Store(s.blobs - {key}, s.rows - {key}), None)
  {
  }

  /** Deleting a file that is neither stored nor recorded changes nothing and is not an error. */
  lemma DeleteOfAbsentFileIsNoOp(s: Store, userId: string, op: FileOp, env: StepEnv)
    requires IsDelete(op) && !StepFails(op, env)
    requires Key(userId, op.path) !in s.blobs && Key(userId, op.path) !in s.rows
    ensures ApplyOp(s, userId, op, env) == Applied(s, None)
  {
    var key := Key(userId, op.path);
    assert s.blobs - {key} == s.blobs;
    assert s.rows - {key} == s.rows;
  }

  /**
   * A failing call leaves the calls before it done: a failed blob removal or
   * upload changes nothing, a failed row delete leaves the blob removed, a
   * failed upsert leaves the new blob beside the old row.
   */
  lemma FailureKeepsEarlierCalls(s: Store, userId: string, op: FileOp, env: StepEnv)
    requires StepFails(op, env)
    ensures var r := ApplyOp(s, userId, op, env);
            var key := Key(userId, op.path);
            r.error == Some(env.failure.message)
            && (env.failure.stage == RemoveBlob || env.failure.stage == Upload ==> r.store == s)
            && (env.failure.stage == DeleteRow ==> r.store == Store(s.blobs - {key}, s.rows))
            && (env.failure.stage == Upsert ==> r.store == Store(s.blobs[key := op.content], s.rows))
  {
  }

  /** Every row reads as version 1 or more. */
  ghost predicate VersionsPositive(s: Store)
  {
    forall key :: key in s.rows ==> StoredVersion(s.rows[key]) >= 1
  }

  /** Once the store holds no row below version 1, no operation produces one. */
  lemma ApplyOpKeepsVersionsPositive(s: Store, userId: string, op: FileOp, env: StepEnv)
    requires VersionsPositive(s)
    ensures VersionsPositive(ApplyOp(s, userId, op, env).store)
  {
    var r := ApplyOp(s, userId, op, env);
    var key := Key(userId, op.path);
    forall k | k in r.store.rows ensures StoredVersion(r.store.rows[k]) >= 1 {
      if k != key {
        assert k in r.store.rows - {key};
      }
    }
  }

  // ---------------------------------------------------------------------
  // Properties of a batch
  // ---------------------------------------------------------------------

  /** The operation acts on `key`. */
  predicate TouchesKey(userId: string, op: FileOp, key: string)
  {
    Touches(op) && Key(userId, op.path) == key
  }

  /** Two stores agree on `key`, in the bucket and in the table. */
  predicate SameAt(s1: Store, s2: Store, key: string)
  {
    (key in s1.blobs <==> key in s2.blobs)
    && (key in s1.blobs ==> s1.blobs[key] == s2.blobs[key])
    && (key in s1.rows <==> key in s2.rows)
    && (key in s1.rows ==> s1.rows[key] == s2.rows[key])
  }

  /** A key no remaining operation acts on keeps its blob and its row, whatever the outcome. */
  lemma {:induction false} BatchLeavesOtherKeys(s: Store, userId: string, ops: seq<FileOp>, env: nat -> StepEnv, i: nat, key: string)
    requires i <= |ops|
    requires forall t :: i <= t < |ops| ==> !TouchesKey(userId, ops[t], key)
    ensures SameAt(ApplyFrom(s, userId, ops, env, i).store, s, key)
    decreases |ops| - i
  {
    if i < |ops| {
      var r := ApplyOp(s, userId, ops[i], env(i));
      var k := Key(userId, ops[i].path);
      assert SameAt(r.store, s, key) by {
        if Touches(ops[i]) {
          assert key != k;
          assert key in r.store.blobs <==> key in r.store.blobs - {k};
          assert key in s.blobs <==> key in s.blobs - {k};
          assert key in r.store.rows <==> key in r.store.rows - {k};
          assert key in s.rows <==> key in s.rows - {k};
          if key in s.blobs { assert (r.store.blobs - {k})[key] == (s.blobs - {k})[key]; }
          if key in s.rows { assert (r.store.rows - {k})[key] == (s.rows - {k})[key]; }
        }
      }
      if r.error.None? {
        BatchLeavesOtherKeys(r.store, userId, ops, env, i + 1, key);
      }
    }
  }

  /** Running a batch is running a prefix of it and, unless that threw, the rest from where it stopped. */
  lemma {:induction false} BatchSplits(s: Store, userId: string, ops: seq<FileOp>, env: nat -> StepEnv, i: nat, j: nat)
    requires i <= j <= |ops|
    ensures var first := ApplyFrom(s, userId, ops[..j], env, i);
            ApplyFrom(s, userId, ops, env, i)
            == if first.error.Some? then first else ApplyFrom(first.store, userId, ops, env, j)
    decreases j - i
  {
    if i < j {
      assert ops[..j][i] == ops[i];
      var r := ApplyOp(s, userId, ops[i], env(i));
      if r.error.None? {
        BatchSplits(r.store, userId, ops, env, i + 1, j);
      }
    }
  }

  /**
   * A batch completes exactly when none of its operations meets a failing
   * call; otherwise it reports the message of the first one that does.
   */
  lemma {:induction false} BatchFailsIff(s: Store, userId: string, ops: seq<FileOp>, env: nat -> StepEnv, i: nat)
    requires i <= |ops|
    ensures var r := ApplyFrom(s, userId, ops, env, i);
            r.error.None? <==> forall t :: i <= t < |ops| ==> !StepFails(ops[t], env(t))
    ensures var r := ApplyFrom(s, userId, ops, env, i);
            r.error.Some? ==>
              exists t :: i <= t < |ops| && StepFails(ops[t], env(t)) && r.error == Some(env(t).failure.message)
                          && forall u :: i <= u < t ==> !StepFails(ops[u], env(u))
    decreases |ops| - i
  {
    if i < |ops| {
      var r := ApplyOp(s, userId, ops[i], env(i));
      if r.error.None? {
        BatchFailsIff(r.store, userId, ops, env, i + 1);
      }
    }
  }

  /**
   * When operation j is the first to meet a failing call, the operations
   * before it stay applied, j's own earlier calls stay done, and no later
   * operation runs.
   */
  lemma AbortKeepsEarlierOperations(s: Store, userId: string, ops: seq<FileOp>, env: nat -> StepEnv, j: nat)
    requires j < |ops| && StepFails(ops[j], env(j))
    requires forall t :: 0 <= t < j ==> !StepFails(ops[t], env(t))
    ensures var before := ApplyBatch(s, userId, ops[..j], env);
            before.error.None?
            && ApplyBatch(s, userId, ops, env) == ApplyOp(before.store, userId, ops[j], env(j))
  {
    BatchFailsIff(s, userId, ops[..j], env, 0);
    BatchSplits(s, userId, ops, env, 0, j);
  }

  /** The last operation on a path decides it: after a completed batch a final add/update leaves its content. */
  lemma LastWriteWins(s: Store, userId: string, ops: seq<FileOp>, env: nat -> StepEnv, j: nat)
    requires j < |ops| && IsWrite(ops[j])
    requires forall t :: j < t < |ops| ==> !TouchesKey(userId, ops[t], Key(userId, ops[j].path))
    requires ApplyBatch(s, userId, ops, env).error.None?
    ensures var r := ApplyBatch(s, userId, ops, env);
            var key := Key(userId, ops[j].path);
            key in r.store.blobs && r.store.blobs[key] == ops[j].content
            && key in r.store.rows && r.store.rows[key].content == Some(ops[j].content)
  {
    var key := Key(userId, ops[j].path);
    BatchSplits(s, userId, ops, env, 0, j);
    var first := ApplyFrom(s, userId, ops[..j], env, 0);
    var r := ApplyOp(first.store, userId, ops[j], env(j));
    BatchLeavesOtherKeys(r.store, userId, ops, env, j + 1, key);
  }

  /** ... and a final delete leaves neither blob nor row. */
  lemma LastDeleteWins(s: Store, userId: string, ops: seq<FileOp>, env: nat -> StepEnv, j: nat)
    requires j < |ops| && IsDelete(ops[j])
    requires forall t :: j < t < |ops| ==> !TouchesKey(userId, ops[t], Key(userId, ops[j].path))
    requires ApplyBatch(s, userId, ops, env).error.None?
    ensures var r := ApplyBatch(s, userId, ops, env);
            var key := Key(userId, ops[j].path);
            key !in r.store.blobs && key !in r.store.rows
  {
    var key := Key(userId, ops[j].path);
    BatchSplits(s, userId, ops, env, 0, j);
    var first := ApplyFrom(s, userId, ops[..j], env, 0);
    var r := ApplyOp(first.store, userId, ops[j], env(j));
    BatchLeavesOtherKeys(r.store, userId, ops, env, j + 1, key);
  }

  /** No operation of a batch produces a row below version 1. */
  lemma {:induction false} BatchKeepsVersionsPositive(s: Store, userId: string, ops: seq<FileOp>, env: nat -> StepEnv, i: nat)
    requires i <= |ops| && VersionsPositive(s)
    ensures VersionsPositive(ApplyFrom(s, userId, ops, env, i).store)
    decreases |ops| - i
  {
    if i < |ops| {
      ApplyOpKeepsVersionsPositive(s, userId, ops[i], env(i));
      var r := ApplyOp(s, userId, ops[i], env(i));
      if r.error.None? {
        BatchKeepsVersionsPositive(r.store, userId, ops, env, i + 1);
      }
    }
  }

  /**
   * Two updates of one existing file at version v: version v + 2, and the
   * history gains v with the old content, then v + 1 with the first update's.
   */
  lemma TwoUpdatesKeepBothVersions(s: Store, userId: string, first: FileOp, second: FileOp, env: nat -> StepEnv)
    requires IsWrite(first) && IsWrite(second) && first.path == second.path
    requires !StepFails(first, env(0)) && !env(0).lookupFails
    requires !StepFails(second, env(1)) && !env(1).lookupFails
    requires Key(userId, first.path) in s.rows && VersionsPositive(s)
    ensures var r := ApplyBatch(s, userId, [first, second], env);
            var key := Key(userId, first.path);
            var old_ := s.rows[key];
            var n := |old_.previousVersions|;
            r.error.None? && key in r.store.rows && key in r.store.blobs
            && r.store.blobs[key] == second.content
            && r.store.rows[key].content == Some(second.content)
            && r.store.rows[key].version == Some(StoredVersion(old_) + 2)
            && |r.store.rows[key].previousVersions| == n + 2
            && r.store.rows[key].previousVersions[..n] == old_.previousVersions
            && r.store.rows[key].previousVersions[n].version == StoredVersion(old_)
            && r.store.rows[key].previousVersions[n].content == OrElse(old_.content, "")
            && r.store.rows[key].previousVersions[n + 1].version == StoredVersion(old_) + 1
            && r.store.rows[key].previousVersions[n + 1].content == first.content
  {
    var key := Key(userId, first.path);
    var ops := [first, second];
    WriteBumpsVersion(s, userId, first, env(0));
    var s1 := ApplyOp(s, userId, first, env(0)).store;
    WriteBumpsVersion(s1, userId, second, env(1));
    var s2 := ApplyOp(s1, userId, second, env(1)).store;
    assert ops[0] == first && ops[1] == second;
    assert ApplyFrom(s2, userId, ops, env, 2) == Applied(s2, None);
    assert ApplyFrom(s1, userId, ops, env, 1) == ApplyFrom(s2, userId, ops, env, 2);
    assert ApplyFrom(s, userId, ops, env, 0) == ApplyFrom(s1, userId, ops, env, 1);
    var h := s2.rows[key].previousVersions;
    assert h == s.rows[key].previousVersions + [Archived(s.rows[key], userId, env(0).now)]
                + [Archived(s1.rows[key], userId, env(1).now)];
  }

  // ---------------------------------------------------------------------
  // Responses
  // ---------------------------------------------------------------------

  /** One element of the `files` array `handleFiles` answers with. */
  datatype SavedFile = SavedFile(path: string, url: string, version: int)

  datatype Body =
    | FilesSaved(files: seq<SavedFile>)
    | ErrorOnly(error: string)
    | ErrorWithDetails(error: string, details: string)
    | Updated(message: string, description: string)
    | UpdateFailed(error: string, details: string)

  datatype Response = Response(status: nat, body: Body)

  /** The answer of `saveFileToStorage` followed by `saveFileMetadata` for one file. */
  datatype SaveOutcome = Saved(version: int) | SaveFailed(message: string)

  /** The 500 answer of `handleUpdateFiles`. */
  function UpdateFailure(details: string): Response
  {
    Response(500, UpdateFailed("Failed to update files", details))
  }

  /** Content of a row as a template literal renders it: a missing value prints as "null". */
  function Rendered(s: Option<string>): string
  {
    if s.Some? then s.value else "null"
  }

  /** The rows selected for the user, as `{path, content}` pairs for the listing. */
  function RowFiles(rows: seq<FileRow>): (fs: seq<FileInput>)
    ensures |fs| == |rows|
    ensures forall i :: 0 <= i < |rows| ==> fs[i] == FileInput(rows[i].filePath, Rendered(rows[i].content))
  {
    if rows == [] then [] else [FileInput(rows[0].filePath, Rendered(rows[0].content))] + RowFiles(rows[1..])
  }

  /** The fixed pieces of the user message around the listing and the request. */
  const ListingHead := "\nCurrent project files:\n"
  const RequestHead := "\n\nUser request:\n"
  const RequestTail := "\n\nPlease analyze these files and provide necessary updates."

  /** The user message of the completion request (controllers/files.controller.js:85-92). */
  function UpdatePrompt(rows: seq<FileRow>, prompt: string): string
  {
    ListingHead + Listing(RowFiles(rows)) + RequestHead + prompt + RequestTail
  }

  /** The user's request is quoted verbatim after the listing. */
  lemma UpdatePromptQuotesRequest(rows: seq<FileRow>, prompt: string)
    ensures var head := ListingHead + Listing(RowFiles(rows)) + RequestHead;
            |head| + |prompt| <= |UpdatePrompt(rows, prompt)|
            && UpdatePrompt(rows, prompt)[..|head|] == head
            && UpdatePrompt(rows, prompt)[|head|..|head| + |prompt|] == prompt
  {
    var head := ListingHead + Listing(RowFiles(rows)) + RequestHead;
    assert UpdatePrompt(rows, prompt) == head + prompt + RequestTail;
  }

  /**
   * `listed` is what the select of `files` filtered on `user_id` returns
   * (controllers/files.controller.js:67-70): exactly the rows of the table
   * that belong to `userId`, in an order the database chooses.
   */
  predicate SelectedFor(s: Store, userId: string, listed: seq<FileRow>)
  {
    (forall r :: r in listed ==> r in s.rows.Values && r.userId == userId)
    && (forall r :: r in s.rows.Values && r.userId == userId ==> r in listed)
  }

  /** `part` occurs in `text` at offset `o`. */
  predicate ShownAt(text: string, o: nat, part: string)
  {
    o + |part| <= |text| && text[o..o + |part|] == part
  }

  /** What occurs in `b` occurs in `a + b`, shifted by `a`. */
  lemma ShownAfter(a: string, b: string, o: nat, part: string)
    requires ShownAt(b, o, part)
    ensures ShownAt(a + b, |a| + o, part)
  {
    assert (a + b)[|a| + o..|a| + o + |part|] == b[o..o + |part|];
  }

  /** What occurs in `a` still occurs in `a + c`, at the same place. */
  lemma ShownBefore(a: string, c: string, o: nat, part: string)
    requires ShownAt(a, o, part)
    ensures ShownAt(a + c, o, part)
  {
    assert (a + c)[o..o + |part|] == a[o..o + |part|];
  }

  /** The block of file `i` of the listing sits in the user message, after its first line. */
  lemma MessageShowsFile(files: seq<FileInput>, prompt: string, i: nat)
    requires i < |files|
    ensures ShownAt(ListingHead + Listing(files) + RequestHead + prompt + RequestTail,
                    |ListingHead| + BlockOffset(files, i), FileBlock(files[i]))
  {
    var o := |ListingHead| + BlockOffset(files, i);
    var block := FileBlock(files[i]);
    ListingShowsFile(files, i);
    ShownAfter(ListingHead, Listing(files), BlockOffset(files, i), block);
    ShownBefore(ListingHead + Listing(files), RequestHead, o, block);
    ShownBefore(ListingHead + Listing(files) + RequestHead, prompt, o, block);
    ShownBefore(ListingHead + Listing(files) + RequestHead + prompt, RequestTail, o, block);
  }

  /** The path and content of row `i` appear in the user message as one block of the listing. */
  lemma PromptShowsRow(listed: seq<FileRow>, prompt: string, i: nat)
    requires i < |listed|
    ensures exists o :: ShownAt(UpdatePrompt(listed, prompt), o,
                                "File: " + listed[i].filePath + "\nContent:\n" + Rendered(listed[i].content))
  {
    var files := RowFiles(listed);
    MessageShowsFile(files, prompt, i);
    var o := |ListingHead| + BlockOffset(files, i);
    assert UpdatePrompt(listed, prompt) == ListingHead + Listing(files) + RequestHead + prompt + RequestTail;
    assert FileBlock(files[i]) == "File: " + listed[i].filePath + "\nContent:\n" + Rendered(listed[i].content);
    assert ShownAt(UpdatePrompt(listed, prompt), o, FileBlock(files[i]));
  }

  /**
   * The completion request lists every file the user has stored, with its
   * content, and nothing stored by another user.
   */
  lemma PromptShowsEveryStoredFile(s: Store, userId: string, listed: seq<FileRow>, prompt: string, key: string)
    requires SelectedFor(s, userId, listed)
    requires key in s.rows && s.rows[key].userId == userId
    ensures exists i :: 0 <= i < |listed| && listed[i] == s.rows[key]
    ensures exists o :: ShownAt(UpdatePrompt(listed, prompt), o,
                                "File: " + s.rows[key].filePath + "\nContent:\n" + Rendered(s.rows[key].content))
    ensures forall i :: 0 <= i < |listed| ==> listed[i].userId == userId
  {
    var row := s.rows[key];
    assert row in s.rows.Values;
    var i :| 0 <= i < |listed| && listed[i] == row;
    PromptShowsRow(listed, prompt, i);
    forall j | 0 <= j < |listed|
      ensures listed[j].userId == userId
    {
      assert listed[j] in listed;
    }
  }

  // ---------------------------------------------------------------------
  // The handlers
  // ---------------------------------------------------------------------

  /**
   * `handleFiles` (controllers/files.controller.js:10-61). The two
   * `fileService` calls for file `i` are one opaque step whose answer is
   * `save(i)`. Reading it changes no state here, so the method only reads.
   * `saved` is the number of files both calls completed for.
   */
  method HandleFiles(payload: Payload, save: nat -> SaveOutcome) returns (response: Response, saved: nat)
    ensures !payload.Items? ==> response == Response(400, ErrorOnly("Invalid files data")) && saved == 0
    ensures payload.Items? ==> saved <= |payload.files|
    ensures payload.Items? ==> forall i :: 0 <= i < saved ==> save(i).Saved?
    ensures payload.Items? && saved < |payload.files| ==>
              save(saved).SaveFailed?
              && response == Response(500, ErrorWithDetails("Failed to save files", save(saved).message))
    ensures payload.Items? && saved == |payload.files| ==>
              response.status == 200 && response.body.FilesSaved?
              && |response.body.files| == |payload.files|
              && forall i :: 0 <= i < |payload.files| ==>
                   response.body.files[i] == SavedFile(payload.files[i].path, "/uploads/" + payload.files[i].path, save(i).version)
  {
    if !payload.Items? {
      return Response(400, ErrorOnly("Invalid files data")), 0;
    }
    var files := payload.files;
    var results: seq<SavedFile> := [];
    var i := 0;
    while i < |files|
      invariant 0 <= i <= |files|
      invariant |results| == i
      invariant forall t :: 0 <= t < i ==> save(t).Saved?
      invariant forall t :: 0 <= t < i ==> results[t] == SavedFile(files[t].path, "/uploads/" + files[t].path, save(t).version)
    {
      var outcome := save(i);
      if outcome.SaveFailed? {
        return Response(500, ErrorWithDetails("Failed to save files", outcome.message)), i;
      }
      results := results + [SavedFile(files[i].path, "/uploads/" + files[i].path, outcome.version)];
      i := i + 1;
    }
    return Response(200, FilesSaved(results)), i;
  }

  /** The bucket and the table, updated call by call. */
  class FileStore {
    var blobs: map<string, string>
    var rows: map<string, FileRow>

    function State(): Store
      reads this
    {
      Store(blobs, rows)
    }

    constructor (initial: Store)
      ensures State() == initial
    {
      blobs := initial.blobs;
      rows := initial.rows;
    }

    /** `storage.from('project_files').remove([key])`; removing an absent blob is not an error. */
    method RemoveObject(key: string, fails: Option<string>) returns (error: Option<string>)
      modifies this
      ensures error == fails
      ensures blobs == (if fails.None? then old(blobs) - {key} else old(blobs))
      ensures rows == old(rows)
    {
      if fails.None? {
        blobs := blobs - {key};
      }
      error := fails;
    }

    /** `from('files').delete().eq('file_path', key)`. */
    method DeleteMetadata(key: string, fails: Option<string>) returns (error: Option<string>)
      modifies this
      ensures error == fails
      ensures rows == (if fails.None? then old(rows) - {key} else old(rows))
      ensures blobs == old(blobs)
    {
      if fails.None? {
        rows := rows - {key};
      }
      error := fails;
    }

    /** `from('files').select('*').eq('file_path', key).single()`, its error ignored. */
    method SelectRow(key: string, fails: bool) returns (row: Option<FileRow>)
      ensures row == Lookup(State(), key, fails)
    {
      if key in rows && !fails {
        row := Some(rows[key]);
      } else {
        row := None;
      }
    }

    /** `storage.from('project_files').upload(key, content, {upsert: true})`. */
    method UploadObject(key: string, content: string, fails: Option<string>) returns (error: Option<string>)
      modifies this
      ensures error == fails
      ensures blobs == (if fails.None? then old(blobs)[key := content] else old(blobs))
      ensures rows == old(rows)
    {
      if fails.None? {
        blobs := blobs[key := content];
      }
      error := fails;
    }

    /** `from('files').upsert(row)`, keyed by the row's file path. */
    method UpsertMetadata(row: FileRow, fails: Option<string>) returns (error: Option<string>)
      modifies this
      ensures error == fails
      ensures rows == (if fails.None? then old(rows)[row.filePath := row] else old(rows))
      ensures blobs == old(blobs)
    {
      if fails.None? {
        rows := rows[row.filePath := row];
      }
      error := fails;
    }

    /** The body of the loop at controllers/files.controller.js:99-165 for one operation. */
    method ApplyOperation(userId: string, op: FileOp, env: StepEnv) returns (error: Option<string>)
      modifies this
      ensures Applied(State(), error) == ApplyOp(old(State()), userId, op, env)
    {
      var filePath := Key(userId, op.path);
      if op.action == "delete" {
        error := RemoveObject(filePath, FailureAt(env, RemoveBlob));
        if error.Some? {
          return;
        }
        error := DeleteMetadata(filePath, FailureAt(env, DeleteRow));
      } else if op.action == "add" || op.action == "update" {
        var existing := SelectRow(filePath, env.lookupFails);
        var version := if existing.Some? then StoredVersion(existing.value) + 1 else 1;
        var previousVersions := if existing.Some? then existing.value.previousVersions else [];
        if existing.Some? {
          previousVersions := previousVersions + [Archived(existing.value, userId, env.now)];
        }
        error := UploadObject(filePath, op.content, FailureAt(env, Upload));
        if error.Some? {
          return;
        }
        var row := FileRow(userId, Basename(op.path), filePath, "text/plain", Utf8Length(op.content),
                           Some(op.content), Some(version), previousVersions, Some(env.now), Some(userId));
        assert row == WrittenRow(existing, userId, op, env.now);
        error := UpsertMetadata(row, FailureAt(env, Upsert));
      } else {
        error := None;
      }
    }

    /** The loop at controllers/files.controller.js:99-165: in order, stopping at the first error. */
    method ApplyOperations(userId: string, ops: seq<FileOp>, env: nat -> StepEnv) returns (error: Option<string>)
      modifies this
      ensures Applied(State(), error) == ApplyBatch(old(State()), userId, ops, env)
    {
      var i := 0;
      while i < |ops|
        invariant 0 <= i <= |ops|
        invariant ApplyFrom(State(), userId, ops, env, i) == ApplyBatch(old(State()), userId, ops, env)
      {
        error := ApplyOperation(userId, ops[i], env(i));
        if error.Some? {
          return;
        }
        i := i + 1;
      }
      error := None;
    }

    /**
     * `handleUpdateFiles` as written (controllers/files.controller.js:63-180):
     * after the select of the user's rows, line 75 calls `initOpenAI`, which
     * the module never imports, so the call throws a ReferenceError and the
     * handler always answers 500 without touching the store.
     */
    method HandleUpdateFilesAsWritten(userId: string, prompt: string, listed: Result<seq<FileRow>>)
      returns (response: Response)
      ensures response.status == 500 && response.body.UpdateFailed?
      ensures response == UpdateFailure(if listed.Err? then listed.message else "initOpenAI is not defined")
    {
      if listed.Err? {
        return UpdateFailure(listed.message);
      }
      return UpdateFailure("initOpenAI is not defined");
    }

    /**
     * `handleUpdateFiles` with the completion client available. `listed` is
     * the answer of the select of the user's rows, `reply` the completion
     * already parsed (or the error the call or `JSON.parse` threw). `sent` is
     * the user message sent to the completion service, when one was sent.
     */
    method HandleUpdateFiles(userId: string, prompt: string, listed: Result<seq<FileRow>>,
                             reply: Result<UpdateReply>, env: nat -> StepEnv)
      returns (response: Response, sent: Option<string>)
      requires listed.Ok? ==> SelectedFor(State(), userId, listed.value)
      modifies this
      ensures listed.Err? ==> response == UpdateFailure(listed.message) && sent == None && State() == old(State())
      ensures listed.Ok? ==> sent == Some(UpdatePrompt(listed.value, prompt))
      ensures listed.Ok? && reply.Err? ==> response == UpdateFailure(reply.message) && State() == old(State())
      ensures listed.Ok? && reply.Ok? && reply.value.files.None? ==>
                response == UpdateFailure(NotIterable) && State() == old(State())
      ensures listed.Ok? && reply.Ok? && reply.value.files.Some? ==>
                var outcome := ApplyBatch(old(State()), userId, reply.value.files.value, env);
                State() == outcome.store
                && response == (if outcome.error.None?
                                then Response(200, Updated("Files updated successfully", reply.value.description))
                                else UpdateFailure(outcome.error.value))
    {
      if listed.Err? {
        return UpdateFailure(listed.message), None;
      }
      sent := Some(UpdatePrompt(listed.value, prompt));
      if reply.Err? {
        return UpdateFailure(reply.message), sent;
      }
      if reply.value.files.None? {
        return UpdateFailure(NotIterable), sent;
      }
      var error := ApplyOperations(userId, reply.value.files.value, env);
      if error.Some? {
        return UpdateFailure(error.value), sent;
      }
      response := Response(200, Updated("Files updated successfully", reply.value.description));
    }
  }
}
