# github-org-backup: the registry client, the registry backup walk and the remote parser

This project models the part of github-org-backup that copies a GitHub organisation's
container images from one OCI / Docker Registry HTTP API V2 registry to another, and
proves properties of that model. It has three parts.

- **The distribution client** (`distribution.dfy`, with `http.dfy` and `manifests.dfy`).
  `DistributionClient` is a class bound to one base URL. Its `basic` and `bearer`
  credentials are set in place, and it turns every operation into requests.
  - The network is a `Server` object. Its answers are a sequence fixed in advance and
    consumed in order, and it records every exchange. Running out of answers stands for
    a request that could not be sent, which `fetch` turns into its "ApiClient error".
  - The chunked upload (`putBlobV2`) is a loop method. It is proved equal to a pure
    state machine (`Drive`, `ChunkedUpload`), and the byte-accounting and protocol
    lemmas are proved about that machine.
  - `mergeBytes` fills an array in place.
- **The backup walk** (`registry.dfy`, specified in `registry_walk.dfy`).
  - The target registry is a class whose blob and manifest stores change as
    `copyBlob` and `copyManifest` run.
  - `runRegistryBackup` goes over images, tags, index children and layers. It keeps
    its statistics record as it goes and stops after an image once `total` exceeds 10.
  - Each method is proved to end in the state that a pure specification (`Exec` over
    a plan of steps, `Backup`) gives. That specification carries the lemmas: ordering,
    counters, the early stop, and what a second run does.
- **The remote parser** (`remotes.dfy`). `getRemotes` turns the text of
  `git remote --verbose` into a map from remote name to url, as a chain of pure
  functions.

`common.dfy` holds `Option`, `Result`, bytes and the concatenation of byte chunks.

The model keeps these behaviours of the code, which a reader might not expect:
- Both Authorization headers are sent when both credentials are set. Neither takes
  priority over the other.
- `resolve` puts `.` before a path that starts with `/`, so the path resolves below the
  base URL's path, not at the origin.
- A 416 answer to a PATCH does not resynchronise the offset; the next PATCH resends the
  whole buffer, grown by the next chunk, at the same offset.
- `headBlob` sends a GET, because `fetchBlob` drops its `init` argument.
- Any failure in the walk is thrown out of the whole run, not only out of the current
  image.

## Model

| member | source | states |
|---|---|---|
| `Manifests.Manifest.MediaType` | source/distribution.ts:11-42 | The media type of a manifest document. It is one of the three recognised strings exactly when the manifest is an OCI index, an OCI image manifest or a Docker v2 manifest, and each of the three strings names exactly one of those kinds. |
| `Manifests.Manifest.Blobs` | source/registry.ts:207-222 | The blobs of an image manifest are its config (when present) followed by its layers, unchanged. An index or an unrecognised manifest has none. |
| `Common.ConcatLength` | source/distribution.ts:471-473 | The concatenation of byte chunks is as long as the sum of their lengths, which is the size `mergeBytes` allocates. |
| `Http.SetParam` | source/distribution.ts:414-415 | `searchParams.set` leaves the URL's reference and base alone and gives the parameter exactly the one new value. Every other parameter keeps all its values. |
| `Http.Server.Send` | source/distribution.ts:163-164 | With no answer left, nothing is recorded and no response comes back. Otherwise the next answer is consumed, returned and recorded with the request. |
| `Distribution.DistributionClient.constructor` | source/distribution.ts:133-137 | A new client has its base URL and no credentials. |
| `Distribution.DistributionClient.SetBasic` | source/distribution.ts:139-142 | Stores the encoding of `username:password`. The bearer token is unchanged. |
| `Distribution.DistributionClient.SetBearer` | source/distribution.ts:143-145 | Stores the token. The basic credential is unchanged. |
| `Distribution.DistributionClient.AuthorizationHeaders` | source/distribution.ts:154-159 | There is one Authorization header per set, non-empty credential and no other header. `Basic <basic>` comes first and `Bearer <bearer>` last. There are none when neither credential is set, and both are sent when both are set. |
| `Distribution.DistributionClient.Resolve` | source/distribution.ts:451-454 | The result resolves against the client's base URL with no query, and its reference never starts with `/`. A path that starts with `/` gets `.` in front of it. Anything else resolves unchanged, exactly as `fetch` resolves a path. |
| `Distribution.DistributionClient.Prepare` | source/distribution.ts:151-159 | The request keeps the caller's method, endpoint and body. Its headers are the caller's headers followed by exactly the Authorization headers. |
| `Distribution.DistributionClient.Fetch` | source/distribution.ts:147-183 | Sends the prepared request. The result is the server's next answer whatever its status, or "ApiClient error" when there is none. The server records exactly that exchange. |
| `Distribution.DistributionClient.HeadManifest` | source/distribution.ts:220-250 | A HEAD of `./v2/{repo}/manifests/{ref}` with the three manifest Accept headers. The result is whether the answer was ok, so a 404 is `false` and not an error. |
| `Distribution.DistributionClient.PutManifest` | source/distribution.ts:254-267 | A PUT to `./v2/{repo}/manifests/{ref}` whose Content-Type is the media type and whose body is the given bytes. The result is the answer. |
| `Distribution.DistributionClient.BlobRequest` | source/distribution.ts:271-279 | The request `fetchBlob` builds for `./v2/{repo}/blobs/{digest}` is always a GET. |
| `Distribution.DistributionClient.FetchBlob` | source/distribution.ts:271-279 | Whatever method is asked for, the request sent is that GET with the two Accept headers. |
| `Distribution.DistributionClient.HeadBlob` | source/distribution.ts:297-306 | The answer says whether the blob request was ok. The request recorded is a GET. |
| `Distribution.DistributionClient.MonolithicPutRequest` | source/distribution.ts:323-333 | The upload PUT goes to the location the POST returned, resolved against the client's URL. Its query gains only `digest`, set to the descriptor's digest. It carries the whole body, and Content-Length equal to the descriptor's size with an octet-stream Content-Type. |
| `Distribution.DistributionClient.PutBlob` | source/distribution.ts:309-335 | The POST to `./v2/{repo}/blobs/uploads/` comes first. If it is not ok, the call throws "cannot upload" after that one exchange. An ok answer without a Location throws. Otherwise one PUT goes to the resolved Location, and the result is that PUT's ok flag. The replies left are those after the POST, or after the POST and the PUT when the PUT was sent. |
| `Distribution.DistributionClient.MountRequest` | source/distribution.ts:438-440 | A POST to the upload path whose `mount` parameter is exactly the digest and whose `from` parameter is exactly the other repository. |
| `Distribution.DistributionClient.MountBlob` | source/distribution.ts:433-449 | Sends that POST. The result is whether the answer was ok. |
| `Distribution.DistributionClient.AfterPatch` | source/distribution.ts:391-407 | A 416 keeps offset, buffer and location. Any other non-ok answer throws "Upload failed". An ok answer moves the offset past the buffer, empties the buffer and moves to the resolved Location. |
| `Distribution.DistributionClient.DriveFollowsProtocol` | source/distribution.ts:358-408 | Every request of the chunk loop is a PATCH of at least 1 MiB to the current location, with the Content-Range of the current offset. Each PATCH starts with the bytes held back. A 416 holds the whole body back at the same offset and location. An ok answer moves past the body to the new Location, and any other answer is the last one. |
| `Distribution.DistributionClient.ProtocolPatches` | source/distribution.ts:378-389 | Every exchange that follows the protocol is a PATCH. |
| `Distribution.DistributionClient.DriveFlushes` | source/distribution.ts:364-407 | A buffer that reaches 1 MiB is PATCHed. When the loop ends without throwing, it holds less than 1 MiB, or it holds exactly the body of its last PATCH and that PATCH was answered 416, or it sent nothing and holds what it started with. |
| `Distribution.DistributionClient.DriveEndsUnderChunk` | source/distribution.ts:364-407 | A loop that starts holding less than 1 MiB ends holding less than 1 MiB, unless its last PATCH, of exactly the bytes it holds, was answered 416. |
| `Distribution.DistributionClient.DriveAccounting` | source/distribution.ts:364-407 | When the loop ends without throwing, the acknowledged PATCH bodies followed by the buffer are the bytes held back followed by every chunk read. The offset moved by exactly the acknowledged bytes, so offset plus buffer length counts every byte read. The location is the one the latest ok answer gave. |
| `Distribution.DistributionClient.ChunkedUploadCompletes` | source/distribution.ts:347-430 | A successful chunked upload had its POST answered 202 with a Location, then PATCHes that follow the protocol from offset 0, then one PUT answered 201. That PUT goes to the latest location with `digest` set and carries the rest of the bytes, with a Content-Range starting at the number of bytes acknowledged. The acknowledged PATCH bodies followed by the PUT's body are the whole stream. The PUT carries less than 1 MiB, unless the last PATCH sent those same bytes and was answered 416. |
| `Distribution.DistributionClient.ChunkedUploadOutcome` | source/distribution.ts:353-430 | A chunked upload succeeds exactly when its last exchange is a PUT answered 201. An answer other than 202 to the POST throws "failed to start upload" after that one exchange, before any PATCH. |
| `Distribution.DistributionClient.PutBlobV2` | source/distribution.ts:337-431 | The exchanges with the server, the answers left and the outcome are exactly those of the chunked-upload state machine. |
| `Distribution.DistributionClient.SendChunks` | source/distribution.ts:364-408 | The `for await` loop's exchanges and outcome are those of the chunk state machine. On completion it hands back that machine's offset, buffer and location. |
| `Distribution.DistributionClient.SendChunk` | source/distribution.ts:366-407 | One pass of the loop does what one step of the chunk state machine does. A buffer still under 1 MiB after the merge sends nothing. Otherwise exactly one PATCH of the whole buffer goes out, and its answer decides the next offset, buffer and location. |
| `Distribution.DistributionClient.OpenSession` | source/distribution.ts:347-356 | One POST to `./v2/{repo}/blobs/uploads/` with Content-Length 0. Any answer but exactly 202 throws "failed to start upload". Otherwise the session continues at the resolved Location. |
| `Distribution.DistributionClient.CloseSession` | source/distribution.ts:413-430 | One PUT to the current location with `digest` set, carrying the bytes still buffered, with a Content-Range starting at the offset. Any answer but exactly 201 throws. |
| `Distribution.DistributionClient.ChunkedUploadSplit` | source/distribution.ts:337-431 | The whole chunked upload is opening the session, then the chunk loop from offset 0 with an empty buffer, then closing the session. Each part ends the run when it throws. |
| `Distribution.MergeBytes` | source/distribution.ts:470-480 | The output is a newly allocated array, so it aliases no input. It holds the inputs concatenated in order, so its length is the sum of their lengths. |
| `Registry.TargetRegistry.constructor` | source/registry.ts:149 | The target starts with the stores and refusals it is given. |
| `Registry.TargetRegistry.PutBlob` | source/registry.ts:316-317 | The upload succeeds exactly when the target does not refuse the key, and only then is the blob stored. |
| `Registry.TargetRegistry.PutManifest` | source/registry.ts:293 | The manifest is stored unless the target refuses it. Nothing is reported back. |
| `Registry.CopyBlob` | source/registry.ts:298-321 | Returns 0 and changes nothing when the target already holds the blob. A blob the source lacks throws "blob not found", and a refused upload throws "failed to upload". Otherwise it returns 1 and the blob is then at the target. |
| `Registry.CopyManifest` | source/registry.ts:267-296 | Returns 0 and changes nothing when the target already holds the manifest. A manifest the source lacks throws "manifest not found". Otherwise the manifest is PUT and the result is 1 whatever the PUT did. |
| `Registry.BlobStep` | source/registry.ts:220-221 | One `stats.blobs += copyBlob(...)` ends as the specification's blob step says. |
| `Registry.ManifestStep` | source/registry.ts:243 | One manifest copy, of a tag or of an index child (lines 197-203), ends as the specification's manifest step says. Only a tag's copy adds to `total`. |
| `Registry.CopyImageBlobs` | source/registry.ts:211-222 | The config, then each layer in order, end as the specification's blob steps say. |
| `Registry.ProcessChild` | source/registry.ts:176-205 | One index entry ends as the child's plan says. |
| `Registry.ProcessChildren` | source/registry.ts:175-206 | The index entries, in order and stopping at the first failure, end as the children plan says. |
| `Registry.Dispatch` | source/registry.ts:171-241 | The three media-type branches end as the dispatch plan says. |
| `Registry.ProcessTag` | source/registry.ts:166-243 | One tag ends as the tag's plan says. |
| `Registry.RunRegistryBackup` | source/registry.ts:164-247 | Over all images, the target's stores and the result (the stats, or the failure) are those of the specification `Backup`. |
| `RegistryWalk.BlobSteps` | source/registry.ts:191-193 | One blob copy per descriptor, in the descriptors' order. |
| `RegistryWalk.ExecGrows` | source/registry.ts:164-247 | A run only adds to the target's stores and to the record of copies. |
| `RegistryWalk.ExecStats` | source/registry.ts:173-243 | After a run that did not throw, `stats.blobs` and the number of stored blobs both grew by the number of blobs actually transferred, since skips add 0. `total` grew by the number of tag manifests actually transferred. Each processed-item counter grew by one per item, whether or not anything was copied. |
| `RegistryWalk.ExecCovers` | source/registry.ts:164-247 | After a run that did not throw, the target holds every blob copied and every manifest whose PUT it did not refuse. |
| `RegistryWalk.ExecSkipsPresent` | source/registry.ts:274-310 | When the target already holds every key, a run changes no store, transfers nothing and adds 0 to `blobs` and `total`. Every copy is a skip. |
| `RegistryWalk.ExecIdempotent` | source/registry.ts:274-310 | Running the same steps again, after a run that did not throw and had no refused manifest PUT, transfers nothing and leaves the stores as they were. |
| `RegistryWalk.ChildrenOrdered` | source/registry.ts:175-205 | In an index's plan, every manifest copy is of a child the source holds and is not top-level, and the child's tally follows it at once. An OCI image manifest child's config and layers are the steps right before it. Any other child has no blob copied right before it. |
| `RegistryWalk.ChildrenComplete` | source/registry.ts:175-205 | When an index's plan does not throw, its manifest copies are exactly one per entry, in entry order. Each copies the entry's digest with the child's media type, not top-level. Its blob copies are exactly the config and layers of each OCI image manifest child, entry by entry and once each, and none for any other child. The plan counts one processed child per entry and nothing on any other counter. |
| `RegistryWalk.ChildrenManifestCopies` | source/registry.ts:175-205 | When an index's plan does not throw, it makes one manifest copy per entry, in entry order, each by the entry's digest. |
| `RegistryWalk.ChildrenBlobCopies` | source/registry.ts:175-193 | When an index's plan does not throw, its blob copies are each OCI image manifest child's config and layers, entry by entry, and nothing for any other child. |
| `RegistryWalk.ChildrenTallies` | source/registry.ts:175-205 | When an index's plan does not throw, it counts one processed child per entry and nothing else. |
| `RegistryWalk.ChildPlanCounts` | source/registry.ts:175-205 | One entry's steps copy one manifest, the child by its digest. They copy the child's config and layers only when it is an OCI image manifest, and count one processed child and nothing else. |
| `RegistryWalk.ChildrenNoTop` | source/registry.ts:175-205 | An index's children are never copied as a tag's manifest. |
| `RegistryWalk.DispatchNoTop` | source/registry.ts:171-241 | The media-type branches never copy a tag's manifest. |
| `RegistryWalk.TagPlanShape` | source/registry.ts:166-243 | For a tag that does not throw, the tag's manifest is copied as the very last step and only there. An index tallies, then processes all children. An OCI or Docker image manifest tallies, then copies its config (if any) and its layers in order. Any other media type is only copied. |
| `RegistryWalk.ChildrenMissing` | source/registry.ts:177 | An index throws "manifest not found" exactly when the source lacks one of its children. |
| `RegistryWalk.TagPlanMissing` | source/registry.ts:168-177 | A tag throws "manifest not found" exactly when its manifest is missing, or its index lacks a child. |
| `RegistryWalk.BackupEarlyStop` | source/registry.ts:164-247 | The backup runs whole images, in order, up to and including the first one after which the run has thrown or `total` exceeds 10. It starts no image after that one. |
| `RegistryWalk.Images` | source/registry.ts:62-65 | One image per package, in order, named `org/package`, with the flattened tags of its versions. |
| `RegistryWalk.FlatTagsContents` | source/registry.ts:64 | A tag is in the flattened list exactly when some version has it. |
| `Remotes.Lines` | source/lib.ts:35 | Splitting on newlines gives at least one piece, and no piece holds a newline. |
| `Remotes.UnlinesLines` | source/lib.ts:35 | Joining the pieces with newlines gives back the text. |
| `Remotes.LinesUnlines` | source/lib.ts:35 | Splitting lines that were joined with newlines gives them back. |
| `Remotes.NonEmpty` | source/lib.ts:36 | Keeps exactly the non-empty lines, and is never longer than the input. |
| `Remotes.NonEmptyAppend` | source/lib.ts:36 | Filtering two stretches of lines is filtering each, in order. |
| `Remotes.NonEmptyKeeps` | source/lib.ts:36 | Lines that are all non-empty are kept unchanged and in order. |
| `Remotes.Fields` | source/lib.ts:37 | Splitting on runs of whitespace gives at least one field, and no field holds whitespace. Only the first and the last field can be empty, and the first is non-empty when the line starts with a non-space. |
| `Remotes.FieldsUnfields` | source/lib.ts:37 | Fields without whitespace, all but the outer ones non-empty, come back from splitting their single-space join. |
| `Remotes.FieldsJoin` | source/lib.ts:37 | A word, then any non-empty run of whitespace, then text that does not start with whitespace: the word is the first field and the text gives the rest. |
| `Remotes.SpaceRun` | source/lib.ts:37 | A run of whitespace before a non-space is consumed whole, whatever its length or its mix of characters. |
| `Remotes.StripParens` | source/lib.ts:41 | The result holds no parenthesis. |
| `Remotes.StripParensKeeps` | source/lib.ts:41 | Text without parentheses is unchanged. |
| `Remotes.StripParensWrapped` | source/lib.ts:41 | `(push)` becomes `push`. |
| `Remotes.ParseLine` | source/lib.ts:38-42 | A line fails exactly when it has fewer than three fields. Otherwise the name and url hold no whitespace and the method holds no parenthesis. |
| `Remotes.ParseAll` | source/lib.ts:37-42 | Succeeds exactly when every line parses, and then holds one remote per line, in order. A failure is the failure of some line. |
| `Remotes.Selected` | source/lib.ts:43 | Every remote kept has the requested method, and the selection is no longer than the list. |
| `Remotes.SelectedMembers` | source/lib.ts:43 | Keeps exactly the remotes with the requested method. |
| `Remotes.SelectedIgnores` | source/lib.ts:43 | Lines for another method, wherever they appear, do not change what is selected. |
| `Remotes.CollectKeys` | source/lib.ts:44-47 | The map's keys are exactly the names in the list. |
| `Remotes.CollectLastWins` | source/lib.ts:44-47 | A name maps to the url of its last occurrence. |
| `Remotes.CollectFrom` | source/lib.ts:44-47 | Every url in the map comes from the last remote with that name. |
| `Remotes.SelectedKeys` | source/lib.ts:43-47 | The keys of the result are the names of the remotes with the requested method. |
| `Remotes.SelectedLastWins` | source/lib.ts:43-47 | Each key maps to the url of the last remote with that name and the requested method. |
| `Remotes.GetRemotesFails` | source/lib.ts:35-42 | `getRemotes` fails exactly when some non-empty line has fewer than three fields. |
| `Remotes.ParseLineRender` | source/lib.ts:37-42 | Parsing the line git writes, the name, a tab, the url, a space and `(method)`, gives back that remote. The name is the first field, the url the second, and the method is the third without its parentheses. |
| `Remotes.OutputLines` | source/lib.ts:35-36 | Splitting output in which every line ends with a newline, and dropping the empty lines, gives exactly the remotes' lines in order. |
| `Remotes.DescribedRendered` | source/lib.ts:35-42 | Output with one such line per remote reads back as exactly those remotes, in order. This holds with a newline after every line, as git writes it, and also without the final newline. |
| `Remotes.GetRemotesRendered` | source/lib.ts:29-47 | On git's output for a list of remotes, one newline-terminated line each, the result's keys are the names of the remotes with the requested method. Each maps to the url of the last such remote. |
| `Remotes.GetRemotesResult` | source/lib.ts:29-47 | On success, the keys are exactly the names of the described remotes with the requested method (`push` by default). Each maps to the url of the last such remote. |

## Left out

- Running `git` (`exec` in source/lib.ts) is not modelled. `getRemotes` takes the command's standard output as its input.
- The key order of the object `getRemotes` builds is not modelled. The result is a map.
- `catalog`, `listTags`, `getManifest`, `getBlob` and `getJsonBlob` are not modelled: they parse JSON and stream bodies. The walk reads a manifest served by the source as an already-parsed `Manifest`.
- Index entries' platform and annotations are not kept, because the walk reads only their digest.
- `btoa` is a parameter of `SetBasic`, since base64 encoding is a runtime built-in. Digests are opaque strings, since the client never hashes bytes.
- URL resolution itself is not modelled. A URL is its reference, its base and its query parameters. `resolve` is the string rule on the reference.
- Redirect following is not modelled: the option `redirect: 'follow'` and the commented-out `_follow` are both out.
- Request and response bodies other than byte sequences are not modelled, and nor is the error text read from failed uploads.
- `getRegistryToken`, the Octokit pagination in `fetchGitHubInfo`, `localCached`, `fetchDistributionInfo` and `stubDistributionClient` are not modelled. The list of images and tags is the input of `RunRegistryBackup`, and `RegistryWalk.Images` models how it is built from packages and versions.
- The `--list` branch of `runRegistryBackup`, its console output and `createDebug` are not modelled.
- async/await is modelled as sequential calls, since every call is awaited in turn.
- Registry.CopyBlob, Registry.CopyManifest: the source registry is taken as fixed during a run, and its GET answers carry a body exactly when it holds the key. An error body on a non-ok GET is not modelled.
- Registry.TargetRegistry.PutBlob: the target's HEAD answers ok exactly when it holds the key, and an upload either succeeds or is refused. Transport errors of the target and a "cannot upload" thrown by the monolithic upload are not distinguished from a refusal.
- RegistryWalk.ExecIdempotent: it is stated per plan of steps. For the whole backup it needs a first run that did not stop early, because a second run starts from `total` 0 and may continue into images the first run never reached.
- Distribution.DistributionClient.PutBlobV2: the method is split into `OpenSession`, the `for await` loop `SendChunks` (one pass of it is `SendChunk`) and `CloseSession`. The stream is a finite sequence of chunks already read.
- Registry methods keep the record of copies (`log`) as a ghost parameter. The running program keeps no such record.
