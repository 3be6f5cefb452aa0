# Verified model of the CMS server and its CLI

This project models four parts of the CMS and proves properties of them over every run.

**Uploads.** `UploadMachine` is one call of `PushAsset` from the insertion of its row on: the receiver
goroutine, the unbuffered pipe, the one-slot result channel, `LocalFSStore.PutFile`, and the commit or
clean-up. Its steps interleave freely; a read may take any part of a write, any disk operation or the
commit may fail, and a cancellation may end the transaction at any time. `UploadInvariant` holds what every step keeps, `UploadTheorems` the results:
safety, a bound on every schedule, when a call can hang, and when its answer depends on the schedule.

**The store.** `Store` gives the tables and the calls on them as functions, `History` what every run
keeps and what a slug serves, `Queries` the page, the file lookup and the feed, `MissingAssets` the list
a seed returns. `Cms` puts any number of uploads in progress beside the other calls, `Overlap` says when
an upload may begin, and `Timeline` ties every run of the whole to a history of calls. `Service` holds
the calls as methods of a class that changes its tables and objects in place.

**The push.** `Pushes` is what a push is for, over any history: whatever others call before, between and
after its own calls. `PushRequests` says which articles can be pushed, and `Client` is the `push`
command, end to end, with others using the server meanwhile. `Examples` are small histories on which
properties one might expect of the store fail.

**Secrets.** `Secrets` is the configuration tree and what it resolves to, `SecretSpec` says the same in terms
of keys, environment and files alone, `SecretScan` the loop over a
map in any order, `Config` the methods that rewrite the tree.

**Keys and tokens.** `SshKeys` is the key table and the server's side of the exchange, `SshExchange` both
sides over one stream each way, `TokenCache` the client's cache against the server's expiry.

SHA-512, `path.Clean`, `filepath.IsLocal`, MIME types, key parsing, fingerprints and signatures are
function parameters about which nothing is assumed beyond what a lemma requires. Front matter arrives
parsed. New public ids, nonces and clock readings are parameters.

Where a hoped-for property is false of the code, the model keeps the code and the exact condition is
proved:

- `PushAsset` can hang: an empty chunk that arrives when exactly the declared length has been received
  is written to a pipe nobody reads any more. `EndsIffNoEmptyChunkWhenFull` shows that this is the only way.
- With a negative declared length `PutFile` fails without waiting for the receiver, so the answer depends
  on which task is quicker. `DeterministicIff` gives the exact condition.
- The branches of `PushAsset` for a failed pipe write cannot be reached: `PipeFailureNeverSeen`.
- A push fails without any fault when the server asks for the same hash twice, or for one it has.
  `PushArticle` succeeds exactly for `Pushable` articles, unless somebody else commits one of the assets
  first, or an upload of it that hangs holds its hash: `UploadBehindHungTwin`. `PushableIff` says which
  articles those are. `TwinsNotPushable` is one that is not.
- The missing list repeats or adds entries when an absent asset shares its cleaned name:
  `MissingListExactIff`, `AnyOrderExactIff`, `MissingListCanRepeat`.
- The file lookup answers from an older publication when the served one's asset is missing:
  `FileComesFromServedIff`, `FileCanBeStale`. The feed differs from the page when the page's publication
  is in the future: `FeedAgreesIffPast`, `FeedCanLackServed`.
- The result of `resolveSecrets` depends on the iteration order when, at any depth, the base of a secret
  key is itself a secret key: `OrderIndependentIff`, `OrderCanMatter`, `OverwriteCanRescue`, `RescueNeedsChain`.
- After 15 rejections the server puts nothing in its result channel, and the client learns of it only
  by the timeout: `ExchangeOutcome`.
- Five minutes between the client's and the server's token lifetimes are one second less in effect,
  because expiry is truncated to seconds: `CacheMargin`.
- A commit that fails, or a request that is cancelled, ends the transaction while the upload may still
  write or remove the object, and the database then admits another upload of the hash. Any file uploaded
  twice can so lose its object for good: `LateCleanupLosesObject`, `RetryLosesObject`. An upload may
  safely begin if and only if no other of its hash lingers in that way: `StartIsSafeIff`.

## Model

| member | source | states |
|---|---|---|
| ByteStrings.ObjectNameInjective | cmd/webserver/apiservices/cmsservice.go:235 | assets with different hashes never share an object |
| ByteStrings.ObjectNameIs | cmd/webserver/apiservices/cmsservice.go:235 | an object's name is the algorithm's and then, for each byte of the hash, its two lower-case digits |
| UploadInvariant.StepKeeps | cmd/webserver/apiservices/cmsservice.go:197-295 | every step of either task, faults included, keeps the invariant that ties the stream position, the hashed prefix, the pipe, the channel, the file and the row together |
| UploadInvariant.PutFileKeeps | cmd/webserver/storage/localfs/localfs.go:42-86 | through creation, partial reads, writes, the short-copy check and the removal, the file is what was read from the pipe less what is in hand |
| UploadInvariant.JustifiedOutcome | cmd/webserver/apiservices/cmsservice.go:206-231 | the receiver's verdict is the outcome the stream prescribes: the first offending message, else the hash, else the length |
| UploadTheorems.SuccessIsSound | cmd/webserver/apiservices/cmsservice.go:160-296 | success under any schedule means the object is the concatenated chunks, of declared length and hash, and the row is committed |
| UploadTheorems.FailureLeavesNothing | cmd/webserver/apiservices/cmsservice.go:236-294 | any error rolls the row back and, unless a removal failed, leaves the object gone or as before |
| UploadTheorems.OutcomeIsPrescribedOrInternal | cmd/webserver/apiservices/cmsservice.go:241-279 | faults can turn the prescribed answer only into the internal error |
| UploadTheorems.CreationCanFail | cmd/webserver/storage/localfs/localfs.go:42-50 | any upload can fail leaving what its name held before |
| UploadTheorems.RemovalCanFail | cmd/webserver/storage/localfs/localfs.go:66-82 | and one that has begun to copy can leave part of a file, with no row, if a removal fails |
| UploadTheorems.AnyPartCanBeRead | cmd/webserver/storage/localfs/localfs.go:52 | a read may take any part of a write, within the limit, and just that part is then stored |
| UploadTheorems.PipeFailureNeverSeen | cmd/webserver/apiservices/cmsservice.go:220-224 | a pipe-write failure is in the channel only after the handler has returned; a successful copy holds every accepted byte |
| UploadTheorems.ReportNeverBlocks | cmd/webserver/apiservices/cmsservice.go:197-231 | one value at most is ever put in the result channel, exactly one by the end, and putting it never blocks |
| UploadTheorems.RunsAreBounded | cmd/webserver/apiservices/cmsservice.go:200-279 | no schedule is longer than a number read off the stream |
| UploadTheorems.Progress | cmd/webserver/apiservices/cmsservice.go:200-279 | until both tasks have ended, or the call is stalled on an empty chunk, some task can move without a fault |
| UploadTheorems.EndsIffNoEmptyChunkWhenFull | cmd/webserver/apiservices/cmsservice.go:212-224 | every schedule, with any faults, ends with the handler returned and the goroutine exited, if and only if no empty chunk follows chunks of exactly the declared length |
| UploadTheorems.EmptyChunkAlwaysStalls | cmd/webserver/apiservices/cmsservice.go:221-261 | without faults such a stream hangs the call under every schedule |
| UploadTheorems.CanHang | cmd/webserver/apiservices/cmsservice.go:221 | the smallest stream that hangs |
| UploadTheorems.OutcomeConfluent | cmd/webserver/apiservices/cmsservice.go:200-295 | for a length that is not negative all faultless schedules give the same answer, object and row, as a function of header and messages: on failure there is no object, whatever was there before |
| UploadTheorems.FaultlessEnd | cmd/webserver/apiservices/cmsservice.go:261-279 | a faultless schedule ends hanging, its transaction open, exactly on a stream with an empty chunk when full |
| UploadTheorems.FileLeftAlone | cmd/webserver/apiservices/cmsservice.go:241-294 | once the storage step has failed, the handler returns, or nothing but an empty chunk is left to wait for, the object is never touched again |
| UploadTheorems.DeterministicIff | cmd/webserver/apiservices/cmsservice.go:243-257 | the answer is independent of the schedule if and only if the length is not negative, or the stream is empty and the hash that of no bytes |
| UploadTheorems.NegativeLengthInternal | cmd/webserver/storage/localfs/localfs.go:52-83 | with a negative length the handler can answer the internal error for every stream |
| UploadTheorems.NegativeLengthPrescribed | cmd/webserver/apiservices/cmsservice.go:212-217 | and can as well answer what the stream prescribes |
| Store.SeedShape | cmd/webserver/apiservices/cmsservice.go:103-157 | a successful seed adds one unpublished revision with the request's text to the caller's article, links the request's assets to it, and reports what is missing |
| Store.SeedLinks | cmd/webserver/apiservices/cmsservice.go:117-132 | each new link gives the cleaned name of a file to the hash it came with |
| Store.SeedAnswers | cmd/webserver/apiservices/cmsservice.go:58-132 | which requests a seed accepts, and which error it answers to every other: invalid argument, permission denied or internal, in terms of the request and the tables; a refused one changes nothing |
| Store.PublishAnswers | cmd/webserver/apiservices/cmsservice.go:306-333 | which error a publish answers to every request it refuses; one it accepts changes the publication time of the named revision and nothing else |
| Store.RedactAnswers | cmd/webserver/apiservices/cmsservice.go:350-377 | which error a redact answers to every request it refuses; one it accepts takes the publication times of the article's revisions, and changes nothing else |
| Store.NextValid | cmd/webserver/dbapi/migrations/20260912160630_init.sql:44-71 | every call keeps slugs and public ids unique and references intact |
| History.NextGrows | cmd/webserver/dbapi/queries/posts.sql:1-67 | no call changes an article's author or slug, a revision's text or article, an existing revision's links, or an asset's row |
| History.RunGrows | cmd/webserver/dbapi/queries/posts.sql:1-67 | nor does any run |
| History.MissingOnlyShrinks | cmd/webserver/dbapi/queries/posts.sql:69-78 | through any later calls the missing rows of a revision only become fewer |
| History.OnlyAuthorActs | cmd/webserver/apiservices/cmsservice.go:99-101 | revisions and links of an article are the same after any call by somebody else |
| History.ServedIsLastPublished | cmd/webserver/dbapi/queries/posts.sql:26-53 | with an advancing clock, after any run the revision served for a slug is the one the last successful publish named since the last successful redact, and none if there is none |
| History.PublishServes | cmd/webserver/apiservices/cmsservice.go:316-333 | a publish later than all others makes its revision, old or new, the only one served |
| History.RedactServesNothing | cmd/webserver/dbapi/queries/posts.sql:50-53 | after a redact no revision of the slug is a candidate |
| History.OtherCallsKeepCandidates | cmd/webserver/apiservices/cmsservice.go:298-379 | calls that fail, or concern other slugs, leave a slug's publications alone |
| History.ClockGivesDistinctTimes | cmd/webserver/apiservices/cmsservice.go:330 | an advancing clock gives every published revision a time of its own |
| Queries.FileComesFromServedIff | cmd/webserver/dbapi/queries/posts.sql:80-91 | the file lookup answers from the revision the page shows if and only if that revision links the file to a committed asset; else from an older publication |
| Queries.PageAndFileAgree | cmd/webserver/dbapi/queries/posts.sql:38-48 | a file linked once by the served revision, its asset committed, is looked up as exactly that asset, whatever older publications link |
| Queries.FeedRowIff | cmd/webserver/dbapi/queries/posts.sql:93-114 | the grouped maximum and the self-join keep exactly the past publications no later past one of the article follows |
| Queries.FeedAgreesIffPast | cmd/webserver/dbapi/queries/posts.sql:102 | feed and page show the same revisions of an article if and only if the page's is in the past |
| Queries.FeedShowsServed | cmd/webserver/dbapi/queries/posts.sql:93-116 | for every order the sort allows, the rows are those the page shows, each once, newest first, and whatever the limit cuts off is no newer |
| Queries.FeedIsOnePerArticle | cmd/webserver/dbapi/queries/posts.sql:103-114 | with distinct times there is one row per article, strictly newest first |
| Queries.FeedAfterRun | cmd/webserver/ht/posts.go:88-95 | after any run with an advancing clock each feed row is the article's last published revision |
| MissingAssets.MissingListIsComplete | cmd/webserver/apiservices/cmsservice.go:134-147 | for any request an entry is listed if and only if it is the request's and shares its cleaned name with an absent asset; every absent asset is listed |
| MissingAssets.MissingListExactIff | cmd/webserver/apiservices/cmsservice.go:141-147 | with the rows in insertion order, the list is the absent assets, each once and in order, if and only if no absent one shares its cleaned name |
| MissingAssets.AnyOrderExactIff | cmd/webserver/dbapi/queries/posts.sql:69-78 | in whatever order the query returns its rows, the list is the absent assets, each once, if and only if no absent one shares its cleaned name |
| Cms.ActionKeeps | cmd/webserver/apiservices/cmsservice.go:160-296 | every call and every step of any of the uploads in progress keeps the store invariant and all committed assets, as long as no upload begins while another of its hash has lost its row and may still touch the object |
| Cms.CommittedAssetsEndure | cmd/webserver/apiservices/cmsservice.go:183-191 | over every such run, whatever uploads fail or are cancelled and whatever clean-ups fail, each committed row has an object of its hash and length, and neither ever changes |
| Cms.MoveLeavesOthers | cmd/webserver/apiservices/cmsservice.go:235-241 | an upload's step touches no object but its own |
| Overlap.StartIsSafeIff | cmd/webserver/apiservices/cmsservice.go:164-191 | an upload the database admits, and that would succeed, may begin without danger to any committed asset if and only if no other upload of its hash lingers: has lost its row, and is in a state from which it may still touch the object |
| Overlap.ComesToRemove | cmd/webserver/apiservices/cmsservice.go:261-294 | an upload without a row, if its stream cannot hang, removes its object under every faultless schedule |
| Overlap.CanComeToRemove | cmd/webserver/apiservices/cmsservice.go:261-294 | and any other upload that lingers, unless it only truncates, does under some |
| Overlap.LateCleanupLosesObject | cmd/webserver/apiservices/cmsservice.go:282-292 | for every file there is a run from the empty server, of two uploads of it and nothing else, in which the first one's commit fails and nothing else does, that ends with the file's row committed and its object gone |
| Overlap.RetryLosesObject | cmd/webserver/apiservices/cmsservice.go:164-176 | and one in which the first upload is cancelled and nothing fails |
| Timeline.StartIsHistory | cmd/webserver/dbapi/queries/posts.sql:1-67 | the tables after any run, however its uploads interleave, are those of a history of calls and commits |
| Timeline.RowsComeFromHeaders | cmd/webserver/apiservices/cmsservice.go:183-191 | in every run each committed row is in full, content type included, the header of an upload of the run |
| Timeline.PushedThroughRun | cmd/cmscli/pusharticle.go:100-186 | a seed succeeds amid any calls and any uploads in progress; once what it asked for is committed, by whomever, its revision has nothing missing and every listed asset its object, and while it is the last published of its slug it is served in full |
| Service.CmsService.SeedArticle | cmd/webserver/apiservices/cmsservice.go:58-158 | the transaction leaves exactly the tables and reply of the seed function, or on any failure, at any point, all tables as they were |
| Service.CmsService.StageArticle | cmd/webserver/apiservices/cmsservice.go:83-113 | the article is created or found, its author checked, and the revision added |
| Service.CmsService.LinkAssets | cmd/webserver/apiservices/cmsservice.go:115-132 | the loop links every asset under its cleaned name, or stops at one that is not local |
| Service.CmsService.ListMissing | cmd/webserver/apiservices/cmsservice.go:134-147 | the nested loops collect the descriptors named by the missing rows |
| Service.CmsService.PublishArticle | cmd/webserver/apiservices/cmsservice.go:298-340 | only the author's publish changes anything, and only the publication time of the named revision |
| Service.CmsService.RedactArticle | cmd/webserver/apiservices/cmsservice.go:342-379 | only the author's redact changes anything, and only publication times of that article |
| Service.LegalSchedulerExists | cmd/webserver/apiservices/cmsservice.go:200-279 | from any state that is neither finished nor stalled there is a step to choose that is no fault, so schedules as the methods assume them exist |
| Service.CmsService.PushAsset | cmd/webserver/apiservices/cmsservice.go:160-296 | under any schedule success adds exactly the row and the object of the stream; anything else adds no row and, when nothing fails, leaves no object; no other object is touched, and the answer is the prescribed one unless something fails; the call hangs only on a stream with an empty chunk when full, or behind a call that hangs with the same hash, and hanging it keeps its hash from others |
| Service.CmsService.Abandon | cmd/webserver/apiservices/cmsservice.go:164-176 | when the client of a call that hangs goes away, its hash is free again |
| Client.ChunkFile | cmd/cmscli/pusharticle.go:146-172 | however reads fall, the chunks are not empty, within the maximum size, and together the file |
| Client.FaithfulUpload | cmd/cmscli/pusharticle.go:126-175 | such chunks are an upload that cannot hang and whose prescribed answer is success |
| Client.IndexOf | cmd/cmscli/pusharticle.go:113-118 | the first descriptor equal to the one asked for, or -1 exactly if there is none |
| Client.ProcessAssets | cmd/cmscli/pusharticle.go:49-98 | the parallel lists of descriptors and files match the front matter, entry by entry |
| Client.UploadOne | cmd/cmscli/pusharticle.go:112-175 | a success commits the asset with the bytes of the first file it was described from; a request for an asset never offered fails; without a fault the upload succeeds unless so, or unless the server has the hash or it is held |
| Client.UploadMissing | cmd/cmscli/pusharticle.go:110-176 | without faults the loop succeeds if and only if every asset asked for was offered, none is repeated or had already, and none is committed by another call meanwhile, or held by one when its turn comes |
| Client.PushArticle | cmd/cmscli/pusharticle.go:23-187 | with any calls of others between its own: a push without error has published the article's own text, title and description, under its slug and author, with each file's cleaned name linked to the file's digest and nothing missing; it is the one served and served in full; every file it uploaded is stored byte for byte, with the content type of its path; nothing incomplete is ever published; a push that fails has changed no committed object and no existing row but for publication times; without faults it returns without error if and only if the article is pushable, no other call commits an asset it was asked for, and none that hangs holds one when its turn comes |
| Client.QuietOthersDoNotDisturb | cmd/webserver/apiservices/cmsservice.go:183-191 | which is so if others upload none of these assets, and none is held at the start |
| Client.UploadBehindHungTwin | cmd/webserver/apiservices/cmsservice.go:183-221 | an upload of the same file with one empty chunk too many is enough to keep an upload without any fault from succeeding |
| PushRequests.PushableIff | cmd/webserver/dbapi/migrations/20260912160630_init.sql:73-74 | in terms of the article, its files and the tables alone: an article is pushable if and only if its metadata is complete and its paths are local and readable, its slug and id are free or its own, and among its files the server lacks no content occurs twice and none shares a cleaned name with another file |
| Pushes.DeliveredIsComplete | cmd/webserver/dbapi/queries/posts.sql:69-78 | with arbitrary calls of anybody before and after a seed, once all it asked for is committed its revision has no missing row and every listed asset a committed one |
| Pushes.DeliveredIsServed | cmd/webserver/assets.go:29-50 | in the same generality, while the revision is the last published of its slug and the clock advances, it is the one served, and each listed file is looked up by slug and cleaned name as the asset the request described |
| Pushes.OwnPublishIsLast | cmd/cmscli/pusharticle.go:178-186 | after the push's own publish its revision is the last published |
| Pushes.SeederCanPublish | cmd/webserver/apiservices/cmsservice.go:316-333 | whatever others call meanwhile, the seeder can publish the seeded revision |
| Examples.FeedCanLackServed | cmd/webserver/dbapi/queries/posts.sql:102 | a history whose page shows a revision the feed does not |
| Examples.FileCanBeStale | cmd/webserver/dbapi/queries/posts.sql:80-91 | a history whose page shows a revision with a file that the lookup takes from an older one |
| Examples.MissingListCanRepeat | cmd/webserver/apiservices/cmsservice.go:141-147 | a first seed of two assets of one name is asked for each of them twice |
| Examples.TwinsNotPushable | cmd/webserver/apiservices/cmsservice.go:183-191 | an acceptable article with two files of the same content cannot be pushed to an empty server |
| Secrets.ResolvedHasNoSecrets | cmd/webserver/config/config.go:97-139 | no key at any depth of the resolved tree ends in either suffix |
| Secrets.FieldsHoldTheirSource | cmd/webserver/config/config.go:108-131 | literal fields are kept, and each reference is replaced by what its own variable or file holds |
| Secrets.TrimNewlines | cmd/webserver/config/config.go:130 | exactly the trailing carriage returns and line feeds are dropped |
| Secrets.ResolvedKeepsCount | cmd/webserver/config/config.go:159-181 | no two keys become the same field and none is lost |
| Secrets.TargetInjective | cmd/webserver/config/config.go:170-179 | the conflict check rules out two definitions of a field |
| Secrets.SecondPassIsIdentity | cmd/webserver/config/config.go:143-155 | a second pass, in whatever environment, succeeds and changes nothing |
| SecretScan.PlainOutcomeIff | cmd/webserver/config/config.go:100-155 | when nowhere in the tree a base is a secret key, every order of visits at every depth, with made entries revisited or not, has the one outcome meant: the resolved tree, or an error if a field cannot be resolved |
| SecretScan.EveryOrderIsMeant | cmd/webserver/config/config.go:106-137 | the same for the loop over one object, from any point of it |
| SecretScan.UnresolvableCanFail | cmd/webserver/config/config.go:111-128 | for any tree with a field that cannot be resolved, some order ends with an error |
| SecretScan.OrderIndependentIff | cmd/webserver/config/config.go:106-155 | for a tree whose fields resolve, all orders at all depths agree if and only if nowhere in it a base is itself a secret key |
| SecretScan.OrderCanMatter | cmd/webserver/config/config.go:118-131 | one field with both suffixes for which orders disagree |
| SecretScan.OverwriteCanRescue | cmd/webserver/config/config.go:106-131 | a tree that does not resolve, which one order refuses and another accepts |
| SecretScan.RescueNeedsChain | cmd/webserver/config/config.go:106-131 | whenever some order accepts an object, each field that could not be got over as it was is what remains of another of its keys when suffixes are taken off |
| SecretSpec.NoConflictsIff | cmd/webserver/config/config.go:159-181 | an object has no conflict if and only if no field is defined in two of the three ways |
| SecretSpec.ResolvableIff | cmd/webserver/config/config.go:106-139 | a tree resolves if and only if at every depth each field has one definition, and each reference is a non-empty string that names a variable that is set or a file that can be read |
| SecretSpec.MeantIsResolved | cmd/webserver/config/config.go:106-155 | and what it resolves to, field by field |
| SecretSpec.ResolvesToOne | cmd/webserver/config/config.go:106-155 | which is one tree only |
| SecretSpec.OrdinaryReferences | cmd/webserver/config/config.go:62-65 | two references for different fields in one object resolve side by side |
| Config.CheckConflicts | cmd/webserver/config/config.go:101-105 | the first loop accepts exactly the objects in which no field has two definitions |
| Config.ResolveSecrets | cmd/webserver/config/config.go:100-139 | the in-place rewrite terminates in any order with one of the outcomes the loop can have; when no key has two suffixes it succeeds exactly if every field has one definition and every reference holds, and leaves what these say |
| Config.ReplaceSecrets | cmd/webserver/config/config.go:106-139 | the loop that inserts and deletes while it ranges, for any object |
| Config.ResolveNested | cmd/webserver/config/config.go:143-155 | the same through objects and lists, stopping at the first error |
| SshKeys.AddKeepsTable | cmd/webserver/auth.go:253-277 | a readable key that is not there yet is added, with its own fingerprint and user, and is then found by it; any other adds nothing |
| SshKeys.RemoveKeepsTable | cmd/webserver/dbapi/queries/users.sql:94-98 | removing takes the named row if it is the user's own, and no other |
| SshKeys.ExchangeSSHKey | cmd/webserver/apiservices/authentication.go:45-161 | over what the server receives, with any faults: offers of unregistered keys, 15 at most, are rejected one by one; the first other round ends the exchange, and what is sent in it, the challenge and the token included, and what is reported, follow from its two inputs |
| SshKeys.ChallengeIsNonce | cmd/webserver/apiservices/authentication.go:86-92 | every challenge sent is the nonce drawn for its round |
| SshKeys.TokenIsForNonce | cmd/webserver/apiservices/authentication.go:109-159 | a token is the last message, and is granted only for a signature, over the nonce drawn for its round, under the stored key whose fingerprint was offered |
| SshKeys.ServerIsSafe | cmd/webserver/apiservices/authentication.go:45-161 | against any client and with any faults, at most 15 rounds: rejections of unregistered keys, then at most one approved round, the last |
| SshKeys.TokenIsEarned | cmd/webserver/apiservices/authentication.go:109-159 | in any trace of that shape a token is the last message and closes an approved round |
| SshExchange.StepKeeps | internal/authclient/authclient.go:71-120 | every move of client, server and timeout keeps the joint invariant |
| SshExchange.ExchangeOutcome | internal/authclient/authclient.go:71-122 | however both sides interleave, the client ends with a token if and only if one of its first 15 keys is registered, for the first such key and its owner, within a bounded number of steps |
| TokenCache.Authenticator.Authenticate | internal/authclient/authclient.go:41-46 | after any calls, a call returns the token of the latest exchange that was needed, if that reached the client at most ten minutes ago, and else exactly what its own exchange brings; and, within the margin, no token that has passed the server's expiry |
| TokenCache.ReturnedAnswers | internal/authclient/authclient.go:41-46 | the same of every call in any sequence |
| TokenCache.CacheIsGrant | internal/authclient/authclient.go:110-113 | after any calls the cache is empty or holds the token of one of the exchanges, with an expiry counted from that token's arrival |
| TokenCache.TokenIsUnexpired | internal/authutils/authutils.go:21-30 | over any sequence of calls a returned token has not passed the server's expiry, given a second's margin |
| TokenCache.CacheMargin | internal/authclient/authclient.go:25 | a token is always live if and only if delivery delay and clock drift together stay within five minutes less one second |

## Left out

- SecretScan.OrderIndependentIff: for a tree with a field that cannot be resolved some order always fails; another accepts it only if every such field is overwritten by a chain of made keys, as in `SecretScan.RescueNeedsChain`, but when chains suffice is not characterised.
- Config.ResolveNested: trees are values, so sharing between branches is not captured; parsed JSON has none.
- Client.PushArticle: calls of others come between those of a push, each as a whole; uploads that overlap step by step are in `Timeline.PushedThroughRun`. Waiting for a call that hangs is waiting forever: one abandoned during the wait counts as abandoned before. Local files do not change during a push, and read and seek errors are among its failures.
- Overlap.StartIsSafeIff: one case is set aside, that of an upload of no bytes beginning while another that declares no bytes, and sends an empty chunk, has yet to create its file; all it can still do is create the same empty file.
- Service.CmsService.PushAsset: a cancelled request is a stream that ends early and a transaction that ends early; a commit that reports a failure is taken not to have happened.
- Service.CmsService.ListMissing: SQL gives the missing rows no order; the method takes insertion order, and `MissingAssets.AnyOrderAsksTheSame` shows that another order only reorders the list.
- SshExchange.ExchangeOutcome: the fifteen seconds are longer than the messages take, so the timeout strikes only when nobody has anything left to do.
- The 64-bit byte counter cannot wrap below 2^63 received bytes and is an unbounded integer.
- Calls other than uploads are atomic: interleaving inside their transactions, and identity values lost to rollbacks, are not modelled.
- A user id that does not parse, the deletion of users with their articles' authors set to null, and creation times are not modelled.
- The reads of SSH key expiry the code leaves for later, and the last-used time of a key.
- HTTP routing and serving, templates, markdown, OIDC and password login, sessions, the S3 driver, and generated code.
