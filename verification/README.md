# backendlovable006 core, modelled in Dafny

This project models the core of an Express backend. The backend turns
chat-completion replies into project files and runs projects in Docker
containers. Three parts are modelled:

- **`FilesController`** (`files_controller.dfy`) covers
  `controllers/files.controller.js`. `handleFiles` saves each file through
  the file service. `handleUpdateFiles`, as written, always answers 500:
  it calls a completion client it never imports. With that client
  available, it sends the user's stored files to the completion service,
  then applies the returned batch of `add` / `update` / `delete` operations to the Supabase storage bucket
  `project_files` and the `files` table. Each write keeps a version
  history: the new row is one version higher, and the replaced version is
  pushed onto `previous_versions`. The first storage error aborts the
  batch, and nothing already done is undone.
- **`ApiController`** (`api_controller.dfy`) covers
  `controllers/api.controller.js`:
  - `readDirectory` flattens the uploads tree into `{path, content}`
    entries.
  - `handlePrompt`, `handleUpdateFiles` and `handleFiles` write or delete
    files in the local uploads directory, one file-system call at a time.
- **`DockerService`** (`docker_service.dfy`) covers
  `services/dockerService.js`:
  - the container name `app-<first 8 characters of the project id>` and
    its configuration;
  - `createAndStartContainer`, which calls create, then start, and records
    `created`, `running` or `error` on the project's `docker_containers`
    row;
  - `stopAndRemoveContainer`, which calls stop, then remove.

`Base` (`base.dfy`) holds the shared request and reply shapes. `Text`
(`text.dfy`) holds the string functions the controllers rely on:
`Array.prototype.join`, the `File: …\nContent:\n…` listing placed in the
prompts, `Buffer.byteLength(s, 'utf8')` and POSIX `path.basename`.

Each part has the same shape:

- Every state-changing operation is a method of a class whose fields are
  the state it changes:
  - `FilesController.FileStore`: the bucket and the table;
  - `ApiController.UploadsDir`: the uploads directory;
  - `DockerService.DockerHost`: the daemon's containers, the
    `docker_containers` rows and the calls made to the daemon.
- Each such method is proved equal to a pure function of the state before
  it (`ApplyOp`/`ApplyBatch`, `UpdateOne`/`UpdateAll`,
  `Provision`/`Teardown`).
- The properties are lemmas about those functions.
- Everything outside the process is an input: Supabase, the file system,
  the Docker daemon, the completion service and the clock. Each such input
  says, per call, what the call answers or whether it throws.

## Model

| member | source | states |
|---|---|---|
| Text.JoinShowsPart | controllers/files.controller.js:87 | every joined part appears verbatim at its offset, preceded by the separator |
| Text.JoinLength | controllers/api.controller.js:88 | a join is as long as its parts plus one separator between each pair of neighbours |
| Text.JoinPathInjective | controllers/api.controller.js:26 | joining non-empty lists of slash-free segments with `/` is injective |
| Text.Blocks | controllers/api.controller.js:88 | one `File: <path>\nContent:\n<content>` block per file, in order |
| Text.ListingShowsFile | controllers/files.controller.js:87 | each file's block appears in the listing at its offset, after a blank line unless it comes first |
| Text.ListingOfNoFiles | controllers/api.controller.js:88 | no files give an empty listing |
| Text.ListingLength | controllers/api.controller.js:88 | the listing is as long as its blocks plus two characters between each pair of blocks |
| Text.Utf8LengthAppend | controllers/files.controller.js:155 | the UTF-8 byte length of a concatenation is the sum of the byte lengths |
| Text.Utf8LengthBounds | controllers/files.controller.js:155 | the byte length is between 1 and 4 bytes per character, and equals the character count for ASCII |
| Text.TrimTrailingSlashes | controllers/files.controller.js:152 | the result is a prefix that drops only trailing slashes and does not end in one |
| Text.AfterLastSlashIsSuffix | controllers/files.controller.js:152 | the part after the last slash is a slash-free suffix, preceded by a slash when it is not everything |
| Text.BasenameIsLastSegment | controllers/files.controller.js:152 | `path.basename` is the slash-free last segment of the path once trailing slashes are dropped |
| Text.BasenameOfJoin | controllers/files.controller.js:152 | the basename of `dir/name`, or of a bare `name`, is `name` |
| FilesController.KeyInjective | controllers/files.controller.js:100 | within one user, two paths give the same storage key exactly when they are equal |
| FilesController.KeysOfDistinctUsersMayCollide | controllers/files.controller.js:100 | users `a/b` and `a` can reach the same key, because the key is a plain concatenation |
| FilesController.ApplyOp | controllers/files.controller.js:99-165 | one operation throws exactly when one of its storage calls fails, and then with that call's message; it changes no other key; an unknown action changes nothing |
| FilesController.WriteCreatesVersionOne | controllers/files.controller.js:117-163 | add/update of a file with no row stores the blob and a row with version 1, empty history, the content, its UTF-8 size, its basename, `text/plain`, the author and the time |
| FilesController.WriteBumpsVersion | controllers/files.controller.js:125-135 | add/update of a file found at version v (absent or 0 reads as 1) writes version v + 1 and appends v with its content, time and author to the history |
| FilesController.LookupErrorResetsHistory | controllers/files.controller.js:119-126 | when the lookup of the existing row errs, the error is ignored and the row is rewritten at version 1 with an empty history |
| FilesController.DeleteRemovesBlobAndRow | controllers/files.controller.js:102-116 | a successful delete removes the key's blob and row and nothing else |
| FilesController.DeleteOfAbsentFileIsNoOp | controllers/files.controller.js:102-116 | deleting a file that is neither stored nor recorded is not an error and changes nothing |
| FilesController.FailureKeepsEarlierCalls | controllers/files.controller.js:104-163 | a failing call keeps the calls before it: a failed removal or upload changes nothing, a failed row delete leaves the blob gone, a failed upsert leaves the new blob beside the old row |
| FilesController.ApplyOpKeepsVersionsPositive | controllers/files.controller.js:125 | no operation produces a row whose version reads below 1 |
| FilesController.BatchLeavesOtherKeys | controllers/files.controller.js:99-165 | a key no remaining operation acts on keeps its blob and row, whatever the outcome |
| FilesController.BatchSplits | controllers/files.controller.js:99-165 | a batch equals its prefix followed, unless the prefix threw, by the rest |
| FilesController.BatchFailsIff | controllers/files.controller.js:99-165 | a batch completes exactly when no operation meets a failing call; otherwise it reports the first such operation's message |
| FilesController.AbortKeepsEarlierOperations | controllers/files.controller.js:108-163 | when operation j is the first to fail, the operations before it stay applied and nothing after it runs |
| FilesController.LastWriteWins | controllers/files.controller.js:117-163 | after a completed batch, a path whose last operation is add/update holds that content in the bucket and in the row |
| FilesController.LastDeleteWins | controllers/files.controller.js:102-116 | after a completed batch, a path whose last operation is delete has neither blob nor row |
| FilesController.BatchKeepsVersionsPositive | controllers/files.controller.js:125 | no batch produces a row whose version reads below 1 |
| FilesController.TwoUpdatesKeepBothVersions | controllers/files.controller.js:125-161 | two updates of a file at version v give version v + 2, with v and the old content, then v + 1 and the first update's content, in the history |
| FilesController.RowFiles | controllers/files.controller.js:87 | each selected row contributes its `file_path` and its content, with a missing content rendered as `null` |
| FilesController.PromptShowsRow | controllers/files.controller.js:78-92 | every selected row's path and content appear in the user message as one block of the listing |
| FilesController.PromptShowsEveryStoredFile | controllers/files.controller.js:67-92 | when the select returns exactly the user's rows, every file the user has stored is listed in the user message, with its content, and every listed row is the user's |
| FilesController.UpdatePromptQuotesRequest | controllers/files.controller.js:85-92 | the prompt opens with the listing of the user's rows and quotes the request verbatim after it |
| FilesController.HandleFiles | controllers/files.controller.js:10-61 | a missing or non-array `files` gives 400; the first failing save gives 500 with its message; otherwise one `{path, /uploads/path, version}` per file, in order |
| FilesController.FileStore.RemoveObject | controllers/files.controller.js:104-108 | the blob is removed unless the call fails; the table is unchanged |
| FilesController.FileStore.DeleteMetadata | controllers/files.controller.js:111-116 | the row is removed unless the call fails; the bucket is unchanged |
| FilesController.FileStore.SelectRow | controllers/files.controller.js:119-123 | the stored row, or nothing when it is absent or the query errs |
| FilesController.FileStore.UploadObject | controllers/files.controller.js:138-145 | the blob is stored unless the call fails; the table is unchanged |
| FilesController.FileStore.UpsertMetadata | controllers/files.controller.js:148-163 | the row is stored under its file path unless the call fails; the bucket is unchanged |
| FilesController.FileStore.ApplyOperation | controllers/files.controller.js:100-164 | the new store and the thrown error are exactly `ApplyOp` of the old store |
| FilesController.FileStore.ApplyOperations | controllers/files.controller.js:99-165 | the new store and the thrown error are exactly `ApplyBatch` of the old store |
| FilesController.FileStore.HandleUpdateFilesAsWritten | controllers/files.controller.js:63-180 | the handler always answers 500, with the select's error or with `initOpenAI is not defined` |
| FilesController.FileStore.HandleUpdateFiles | controllers/files.controller.js:63-180 | given a select that returns exactly the user's rows, a select error, a completion or parse error, or a missing `files` gives 500 and changes nothing; otherwise the store is the batch's outcome, and the answer is success with the description or 500 with the error |
| ApiController.ReadDirectory | controllers/api.controller.js:14-33 | the recursive walk returns exactly `Flatten` of the tree |
| ApiController.FindIndex | controllers/api.controller.js:18-22 | the index found names an entry with that name; no index means no entry has it |
| ApiController.FlattenSplices | controllers/api.controller.js:18-30 | a sub-directory's entries are spliced into the listing at the sub-directory's own position |
| ApiController.FlattenSound | controllers/api.controller.js:14-33 | every returned entry's path is its segments joined by `/`, and following those segments through the tree finds exactly its content |
| ApiController.FlattenComplete | controllers/api.controller.js:14-33 | every regular file of the tree is returned, under the path made of its segments |
| ApiController.FlattenPathsDistinct | controllers/api.controller.js:14-33 | in a real tree no path is returned twice |
| ApiController.UpdatePromptQuotesFile | controllers/api.controller.js:86-88 | the update prompt quotes every current file's block at its place in the listing |
| ApiController.UpdatePromptQuotesRequest | controllers/api.controller.js:89-104 | after the listing the prompt quotes the request verbatim and ends with the reply format |
| ApiController.UpdateOne | controllers/api.controller.js:111-125 | one operation throws exactly when it deletes or writes a path that is a directory (`EISDIR` from `unlink` or `open`), or makes a call that fails, and then changes nothing; a delete of a path that is neither a file nor a directory makes no call; a completed write stores the content; a completed delete removes the path; no other path changes |
| ApiController.DeletingADirectoryAborts | controllers/api.controller.js:111-117 | a delete naming a directory, at any position reached by the loop, passes the `existsSync` guard, `unlinkSync` throws `EISDIR`, and the loop stops with the directory as the earlier operations left it |
| ApiController.ErrorStopsTheLoop | controllers/api.controller.js:111-125 | once an operation has thrown, the later operations change nothing |
| ApiController.FirstFailureDecides | controllers/api.controller.js:111-125 | when operation j is the first to throw, the outcome is operation j's own outcome on the directory the earlier operations left: that directory, and j's error |
| ApiController.NoFailureStopsOnlyAtDirectories | controllers/api.controller.js:111-125 | without failing file-system calls the loop stops only at an operation that deletes or writes a path which is a directory at that point |
| ApiController.NoFailureNoError | controllers/api.controller.js:111-125 | without failing file-system calls and with no directory in the way, the loop runs to the end |
| ApiController.LastTouch | controllers/api.controller.js:111-125 | the position found is the last operation acting on the path; none found means no operation acts on it |
| ApiController.LastOperationWins | controllers/api.controller.js:111-125 | after a completed loop each path holds the content of its last add/update, is absent after a last delete, and is unchanged when no operation names it |
| ApiController.EverySubmittedFileIsSaved | controllers/api.controller.js:147-161 | after a completed save loop every submitted path is present, holding the content of a submission of that path after which no later element names it |
| ApiController.UploadsDir.Exists | controllers/api.controller.js:115 | `existsSync` answers whether the path is a file or a directory |
| ApiController.UploadsDir.WriteFile | controllers/api.controller.js:118-123 | writing to a directory throws `EISDIR` from `open`; otherwise the path takes the content unless the write fails |
| ApiController.UploadsDir.Unlink | controllers/api.controller.js:116 | unlinking a directory throws `EISDIR` from `unlink`; otherwise the path is removed unless the call fails |
| ApiController.UploadsDir.ApplyOperation | controllers/api.controller.js:112-124 | the new directory and error are exactly `UpdateOne` of the old directory |
| ApiController.UploadsDir.ApplyOperations | controllers/api.controller.js:111-125 | the new directory and error are exactly `UpdateAll` of the old directory |
| ApiController.UploadsDir.WriteFiles | controllers/api.controller.js:52-63 | the new directory and error are exactly the writes of the elements, stopping at the first that throws |
| ApiController.UploadsDir.HandlePrompt | controllers/api.controller.js:35-70 | a failed completion gives 500 and changes nothing; an absent or empty `files` writes nothing and echoes the reply; otherwise the files are written, and the reply is echoed on success or 500 is answered on a failed write |
| ApiController.UploadsDir.HandleUpdateFiles | controllers/api.controller.js:72-140 | an unreadable tree gives 500 and sends nothing; otherwise the prompt sent lists `Flatten` of the tree; a failed completion or a missing `files` gives 500 and changes nothing; otherwise the directory is the loop's outcome, and the answer is success with the description or 500 with the error |
| ApiController.UploadsDir.HandleFiles | controllers/api.controller.js:142-168 | a missing or non-iterable `files` or a failed write gives 500; otherwise every file is written and answered with its path and `/uploads/` URL, in order |
| DockerService.ContainerName | services/dockerService.js:14 | `app-` followed by the first eight characters of the project id |
| DockerService.SameNameIff | services/dockerService.js:14 | two projects get the same container name exactly when their ids agree on the first eight characters |
| DockerService.ProjectsMayShareName | services/dockerService.js:14 | distinct project ids that differ only after the eighth character share a name |
| DockerService.ConfigIgnoresFramework | services/dockerService.js:17-32 | the configuration does not depend on the framework; the image is always `node:18` |
| DockerService.AllContainersBindHostPort3000 | services/dockerService.js:20-27 | every container exposes exactly `3000/tcp` and binds exactly it to host port 3000 |
| DockerService.ConfigEnvCarriesIds | services/dockerService.js:28-31 | the environment is exactly `PROJECT_ID=<project id>` then `USER_ID=<user id>`, and reading either key gives back that id |
| DockerService.ProvisionKeepsOrder | services/dockerService.js:36-50 | provisioning adds a create, followed by a start of the returned id when the create succeeded, and no other call; so a container is started only after a create call returned its id |
| DockerService.TeardownKeepsOrder | services/dockerService.js:83-100 | teardown adds a stop, followed by a remove when the stop succeeded, and no other call; so a container is removed only right after a successful stop of it |
| DockerService.ProvisionResult | services/dockerService.js:9-81 | the call resolves exactly when create and start succeed, and then to the new id, the name and `running`; otherwise it rethrows the daemon's error |
| DockerService.ProvisionSuccessState | services/dockerService.js:36-65 | on success the container runs with the project's configuration, and the row, when the writes were accepted, reads `running` with the new container id |
| DockerService.ProvisionFailureState | services/dockerService.js:67-80 | on failure the row, when the write was accepted, reads `error` with `Error: <message>` in its logs |
| DockerService.FailedStartLeavesContainer | services/dockerService.js:50-80 | a failed start leaves the created container behind |
| DockerService.RefusedWriteGoesUnnoticed | services/dockerService.js:53-65 | a refused status write is not noticed: the call still resolves to `running` while the row says `created` |
| DockerService.ProvisionTouchesOnlyItsRow | services/dockerService.js:39-77 | only the project's own row is written, and no row is added |
| DockerService.TeardownOutcome | services/dockerService.js:83-100 | a failed stop changes no container and makes no remove call; success means stop then remove and the container is gone; the table is never written |
| DockerService.ProvisionThenTeardown | services/dockerService.js:9-100 | provisioning under a fresh id and then tearing down leaves the daemon as it was, while the row still reports `running` |
| DockerService.DockerHost.CreateContainer | services/dockerService.js:36 | a successful create adds a created container under the new id; every create is recorded |
| DockerService.DockerHost.StartContainer | services/dockerService.js:50 | a successful start marks the container running; the call is recorded |
| DockerService.DockerHost.StopContainer | services/dockerService.js:88 | a successful stop marks the container stopped; the call and its success are recorded |
| DockerService.DockerHost.RemoveContainer | services/dockerService.js:92 | a successful remove deletes the container; the call is recorded |
| DockerService.DockerHost.UpdateStatus | services/dockerService.js:39-46 | the project's row takes the status and logs (and the container id when given) if it exists and the write is accepted |
| DockerService.DockerHost.CreateAndStartContainer | services/dockerService.js:9-81 | the new state and the result are exactly `Provision` of the old state |
| DockerService.DockerHost.StopAndRemoveContainer | services/dockerService.js:83-100 | the new state and the result are exactly `Teardown` of the old state |

## Left out

- Calls to the completion service (OpenAI) and `JSON.parse` of the reply
  are not modelled. The parsed reply, or the message of the error either
  one threw, is an input to each handler. The system prompts and model
  names are not modelled.
- Supabase, the file system and the Docker daemon are not modelled. In
  the controllers each call's answer, or the error it throws, comes from
  an environment function indexed by the operation's position. In the
  Docker service each of the two operations takes one record of answers
  (`ProvisionEnv`, `TeardownEnv`): one field per daemon call and, for
  provisioning, the set of status writes the table refuses.
- `saveFileToStorage` and `saveFileMetadata` of `services/fileService.js`
  are not part of this model. Together they are one opaque step per file,
  whose answer is a version or an error.
- Clocks: `new Date().toISOString()` is read once per operation. The code
  reads it twice, for `modified_at` of the archived version and for
  `last_modified`. Both are modelled as the same reading.
- Logging (`console.log`, `console.error`) is not modelled.
- `ApiController.UploadsDir.WriteFile`: `path.join` normalisation of
  `uploads/<path>` is not modelled, and neither is the `mkdirSync` of
  missing parent directories. The directory is a flat map of regular files
  keyed by the relative path the request names, so a path such as `../x`
  or `a//b` does not escape the directory or alias another entry in the
  model. A directory is any proper prefix of a stored path that ends at a
  `/`, and the root `""`. Writing below a regular file is left to the
  failure input: `ENOTDIR` from `writeFileSync` for a direct child of a
  file, or `ENOTDIR`/`EEXIST` from `mkdirSync` for deeper paths.
- `ApiController.UploadsDir.HandleUpdateFiles`: the tree it reads and the
  map it writes are not linked to each other. The model does not prove that
  the prompt lists the same files the writes act on.
- `ApiController.UpdateOne`: the `EISDIR` message is modelled without the
  quoted path Node appends to it, and the `EPERM` that `unlink` gives for
  a directory on macOS is not modelled (Linux behaviour is).
- Empty directories are not modelled: the uploads directory holds only
  regular files, so a directory exists only while a file lies below it.
- The uploads tree is read as one value. Its order is whatever
  `readdirSync` gives, and a read error anywhere is one error.
- Request fields of the wrong type are not modelled, for example:
  - a `files` that is a string, which is iterable character by character;
  - an element without `path` or `content`;
  - an `add`/`update` without `content`;
  - a non-string `projectId`.
  `files` is either absent, a non-iterable object, or a list of
  well-formed elements.
- `DockerService.ContainerName`: `projectId.slice(0, 8)` is modelled on
  Unicode scalar values, not UTF-16 code units. For an id holding
  characters outside the Basic Multilingual Plane, JavaScript keeps fewer
  characters and may split a surrogate pair, which the model cannot
  represent; the name agrees with the source for ids of Basic
  Multilingual Plane characters.
- `Text.Utf8Length` counts each Dafny `char` as one Unicode scalar value.
  JavaScript's UTF-16 strings and their lone surrogates are not modelled.
- `FilesController.FileStore.UpsertMetadata` assumes the `files` table's
  conflict key is `file_path`. The code sends no `onConflict`, so the table
  definition decides.
- `FilesController.FileStore.HandleUpdateFiles`: the rows selected for
  the user come in the order Supabase returns them. The model takes any
  order, so it states which rows the prompt lists but not their order.
- `getContainerLogs` (`services/dockerService.js:102-116`) is not
  modelled, since it only reads and formats logs.
- The deployment controller, the routes, `index.js`, the CORS config and
  `utils/openai.js` are not part of this model.
- Concurrency between requests is not modelled: each handler runs alone.
- `DockerService.DockerHost.UpdateStatus`: a Supabase update resolves with
  an error value instead of throwing, and the code never reads that value.
  A refused status write is therefore modelled as not applied, not as a
  throw, so it never reaches the catch block. This follows the code. A
  reading in which status-write failures go to the catch block does not
  match it.
- Neither controller validates paths, and no "invalid path" error exists.
  The model follows the code.
- The `docker_containers` table is modelled as one row per project id, and
  `.eq('project_id', …)` writes that row. Several rows for one project
  are not modelled.

## Findings

| source | as written | input that shows it | evidently intended | confidence | as-written member | corrected member |
|---|---|---|---|---|---|---|
| controllers/files.controller.js:75 | `handleUpdateFiles` calls `initOpenAI()`, which the module neither defines nor imports, so every request that gets past the select throws a ReferenceError and answers 500 | any request whose select of the user's rows succeeds | create the completion client, send the prompt and apply the returned operations | high (ReferenceError on every call); not executed | FilesController.FileStore.HandleUpdateFilesAsWritten | FilesController.FileStore.HandleUpdateFiles |
