# cloudPods decision procedures in Dafny

This project models the small decision procedures around remote calls in the
cloudPods cloud-management platform. Every remote call, clock, hash and file
system operation is an outcome handed in by the caller. The modelled parts are:

- the Apsara client's request policy: endpoint choice, error classification,
  retries, response checks, region scans and paging;
- the Apsara provider's credential validation and fixed capability lists;
- the Ceph RBD storage configuration string and its defaults, the image-size
  arithmetic, image deletion and the save-to-glance naming;
- notification template resolution: language, special topics, topic
  search with a template cache, template paths, display names and fallbacks;
- DNSPod record parameters, record accessors and record paging;
- the Tencent Cloud certificate helpers: upload and delete checks, the
  fingerprint format, lazy details, names and paging;
- the host agent's remote-file fetch: constructor defaults, requests,
  status handling, URL fallback, bounded retries and the checksum-then-rename
  rule;
- the snapshot-policy key and next-sync schedule, as the policy tests assert
  them;
- two task handlers: the MongoDB tag update and the security-group cache
  status sync.

One module per source file (`Apsara`, `ApsaraProvider`, `RbdStorage`,
`EventTemplate`, `DnspodRecord`, `Certificate`, `RemoteFile`,
`SnapshotPolicy`, `MongoRemoteUpdateTask`, `SecgroupCacheSyncstatusTask`).
Three shared modules hold the rest:

- `Wrappers`: `Option`, `Result` and `Outcome`.
- `Text`: string helpers, plus decimal and hex formatting with their parsers.
- `Taskman`: the task-manager effects the handlers emit.

Constants that are defined outside the modelled files are parameters. These
are the template language name, action and resource-type names, and the RBD
default timeouts. The DNS record-type names are taken as `MX`, `CNAME` and
`SRV`.

## Model

| member | source | states |
|---|---|---|
| Apsara.GetDomain | pkg/multicloud/apsara/apsara.go:134-166 | a product with a non-empty configured endpoint gets it; any other product gets the account URL |
| Apsara.ActionTrailUsesAccountUrl | pkg/multicloud/apsara/apsara.go:134-166 | a product without a case of its own always goes to the account URL |
| Apsara.AnyCodeIn | pkg/multicloud/apsara/apsara.go:181-209 | one scan of a code list finds a code exactly when some listed code is a substring of the message |
| Apsara.Classify | pkg/multicloud/apsara/apsara.go:180-210 | an error is fatal iff it holds the invalid-key code; not-found iff it holds a not-found code and no fatal one; transient iff it holds a retry code and neither of the others |
| Apsara.FormatNoArgs | pkg/multicloud/apsara/apsara.go:259-264 | a text without `%` comes out of `fmt.Errorf(text)` unchanged |
| Apsara.FormatNoArgsMangles | pkg/multicloud/apsara/apsara.go:259-264 | with `%` in the text, the next letter is read as a verb with a missing argument, and `%%` becomes `%` |
| Apsara.CheckResponse | pkg/multicloud/apsara/apsara.go:246-265 | a parsed body is an error iff its `Code` is non-empty and not `200`, or it has `errorKey`; the error text is the body as a no-argument format string produces it, which is the body itself when it holds no `%`; transport and parse errors keep their message as a suffix |
| Apsara.WrappingKeepsCodes | pkg/multicloud/apsara/apsara.go:246-253 | wrapping a transport or parse error keeps every code in its message visible to the classifier |
| Apsara.JsonRequest | pkg/multicloud/apsara/apsara.go:173-224 | at most three calls; after a transient failure on call i it sleeps 10*i seconds; the first non-transient result settles the request; three transient failures give the timeout error |
| Apsara.LastIdValue | pkg/multicloud/apsara/apsara.go:231-239 | the value kept is the one of the last id-like key (ending in `Id`, not `regionid` in any case) in iteration order, or empty when there is none |
| Apsara.InstanceIdHeader | pkg/multicloud/apsara/apsara.go:231-244 | the instance header is set only when the API name starts with `Describe`, and then to the value of the last id-like parameter in iteration order, provided that value is non-empty; so it is set whenever every id-like parameter is non-empty, and an empty last one (`InstanceId="i-1"` then `VpcId=""`) leaves it unset |
| Apsara.FindInRegions | pkg/multicloud/apsara/apsara.go:474-508 | regions are asked in order; the first success or non-not-found error is returned; not-found results only when every region said not-found |
| Apsara.GetIProjects | pkg/multicloud/apsara/apsara.go:510-529 | pages are 1, 2, ... in order; it stops once the items gathered reach the reported total; the result is the pages' items in order; a failed page fails the listing |
| Apsara.BucketRegionId | pkg/multicloud/apsara/apsara.go:401-405 | a leading `oss-` is removed from the location, and only that |
| Apsara.KnownBuckets | pkg/multicloud/apsara/apsara.go:400-418 | every bucket kept has a known region and comes from the listing, every listed bucket of a known region is kept, and a single bucket is kept iff its region is known |
| Apsara.KnownBucketsConcat | pkg/multicloud/apsara/apsara.go:400-418 | the filter of a concatenation is the concatenation of the filters, so buckets keep their order and none is repeated |
| Apsara.FetchBuckets | pkg/multicloud/apsara/apsara.go:386-421 | a failed listing is an error; otherwise the owner is copied and the buckets are exactly the listing's buckets in known regions, in order (`KnownBuckets`) |
| ApsaraProvider.ValidateCreate | pkg/multicloud/apsara/provider/provider.go:46-64 | key id, secret, endpoint and default region are checked in that order and the first missing one is the error; on success the account, secret and URL are copied |
| ApsaraProvider.ValidateUpdate | pkg/multicloud/apsara/provider/provider.go:66-79 | only the key id and secret are required, and only they are copied |
| ApsaraProvider.CreateAcceptedImpliesUpdateAccepted | pkg/multicloud/apsara/provider/provider.go:46-79 | a credential accepted on create is accepted on update, with the same account and secret |
| ApsaraProvider.GetClientRC | pkg/multicloud/apsara/provider/provider.go:103-110 | exactly four variables, with the region left empty |
| ApsaraProvider.GetStorageClasses | pkg/multicloud/apsara/provider/provider.go:167-171 | three distinct classes, whatever the region |
| ApsaraProvider.GetCannedAcls | pkg/multicloud/apsara/provider/provider.go:173-187 | each canned ACL exactly once, whatever the region |
| RbdStorage.EscapeKeyPassesIsEscapeKey | pkg/hostman/storageman/storage_rbd.go:129-135 | the three replace passes over the key equal one pass that puts a backslash before each `:`, `@` and `=` |
| RbdStorage.UnescapeEscapeKey | pkg/hostman/storageman/storage_rbd.go:129-135 | the escaped key reads back to the key |
| RbdStorage.EscapeMonHost | pkg/hostman/storageman/storage_rbd.go:128 | no comma survives; a single comma becomes `\;` and any other single character is kept |
| RbdStorage.EscapeMonHostConcat | pkg/hostman/storageman/storage_rbd.go:128 | the escape of a concatenation is the concatenation of the escapes, so each comma becomes `\;` and every other character stays in place |
| RbdStorage.ConfEntries | pkg/hostman/storageman/storage_rbd.go:126-142 | the monitor host entry comes first, and the key entry follows iff the key is non-empty; four or five entries in all |
| RbdStorage.ConfEntriesTimeouts | pkg/hostman/storageman/storage_rbd.go:136-142 | each of the three timeouts appears among the last three entries with its decimal value, in map order |
| RbdStorage.ConfString | pkg/hostman/storageman/storage_rbd.go:126-144 | the string starts with `:mon_host=` |
| RbdStorage.ConfStringRoundTrip | pkg/hostman/storageman/storage_rbd.go:126-144 | splitting the string at unescaped colons gives back the entries, and the key entry unescapes to the key |
| RbdStorage.ApplyDefaults | pkg/hostman/storageman/storage_rbd.go:540-548 | each zero timeout becomes its default; non-zero timeouts and the other fields are kept |
| RbdStorage.ApplyDefaultsIdempotent | pkg/hostman/storageman/storage_rbd.go:540-548 | with non-zero defaults, applying them twice is applying them once, and no timeout is left zero |
| RbdStorage.SetStorageInfo | pkg/hostman/storageman/storage_rbd.go:530-549 | id and name are set first; a missing configuration is an error and keeps the old one; otherwise the input is laid over it and defaults applied |
| RbdStorage.ImageSizeMb | pkg/hostman/storageman/storage_rbd.go:167-183 | the result is the whole number of MiB in the size, read as an unsigned 64-bit value |
| RbdStorage.DeleteImage | pkg/hostman/storageman/storage_rbd.go:199-214 | removal is tried iff the client and image are there; a missing image is success; a client or lookup failure is an error |
| RbdStorage.SaveToGlance | pkg/hostman/storageman/storage_rbd.go:411-444 | bad parameters and a missing image cache are errors; the image is renamed to `image_cache_<id>` and the path is `rbd:<cache>/<name><conf>` |
| EventTemplate.LanguageTag | pkg/notify/models/event_template.go:69-78 | Chinese exactly for the Chinese template language, English for everything else |
| EventTemplate.SpecTopic | pkg/notify/models/event_template.go:167-178 | update-like actions map to update; delete of an IP-holding type maps to delete-with-IP; anything else to empty |
| EventTemplate.Topics | pkg/notify/models/event_template.go:192-199 | four topics, in this order: the special topic, the event's joined name, the action result, and `common` |
| EventTemplate.TemplatePath | pkg/notify/models/event_template.go:288-305 | the path starts with `<dir>/<titleOrContent>@<lang>/`, ends with `.tmpl`, and what lies between is the upper-cased topic |
| EventTemplate.ReadTemplateString | pkg/notify/models/event_template.go:288-313 | a missing file is not-found, other read errors stay errors, and a present file is its contents |
| EventTemplate.GetTemplate | pkg/notify/models/event_template.go:252-286 | a cached template is returned unchanged; otherwise a read error is returned as is, a text that does not parse is a parse failure, and a text that parses becomes the template, with that text as its source, cached under `<topic>.<titleOrContent>@<lang>` |
| EventTemplate.GetTemplateIdempotent | pkg/notify/models/event_template.go:252-286 | once a template is found, asking again gives the same template and leaves the cache alone |
| EventTemplate.SearchTopics | pkg/notify/models/event_template.go:192-207 | the result is the first topic that is not not-found, empty topics skipped; not-found iff every topic missed; only a hit is cached |
| EventTemplate.AllMissCons | pkg/notify/models/event_template.go:192-207 | a search misses everywhere iff its first topic misses and the rest do |
| EventTemplate.AddDisplaysContents | pkg/notify/models/event_template.go:80-93 | every present listed field gains a `_display` entry with its translation; every other entry is kept, and nothing else is added |
| EventTemplate.SpecFieldListsApart | pkg/notify/models/event_template.go:217-227 | no listed field name is another's display name |
| EventTemplate.DetailsDisplay | pkg/notify/models/event_template.go:80-93 | resource types without listed fields keep their details unchanged |
| EventTemplate.DisplayOr | pkg/notify/models/event_template.go:119-131 | an empty display name falls back to the raw string |
| EventTemplate.OrFallback | pkg/notify/models/event_template.go:141-158 | not-found becomes the fallback text; other errors and found texts pass through |
| EventTemplate.FillOne | pkg/notify/models/event_template.go:141-158 | the text is the first template found, run on the parameters, or the fallback when none is found |
| EventTemplate.FillWithTemplate | pkg/notify/models/event_template.go:95-163 | bad JSON is an error; webhooks get the event title and a JSON body with no template; others need an object; a title or content template that is not found falls back to the topic or the message, a found one gives its executed text, and any other title or content error ends the fill as a template failure |
| EventTemplate.FillParams | pkg/notify/models/event_template.go:114-138 | the template parameters carry display names that fall back to the raw names |
| DnspodRecord.ClampTtl | pkg/multicloud/qcloud/dnspod_record.go:147-152 | the TTL is clamped into [600, 604800] and kept when already inside |
| DnspodRecord.ClampTtlIdempotentMonotone | pkg/multicloud/qcloud/dnspod_record.go:147-152 | clamping twice is clamping once, and clamping keeps order |
| DnspodRecord.RecordParams | pkg/multicloud/qcloud/dnspod_record.go:156-164 | `mx` is sent iff the record is MX; the other six parameters are always sent with the record's values |
| DnspodRecord.CreateParams | pkg/multicloud/qcloud/dnspod_record.go:144-164 | the TTL is clamped and an empty name becomes `@`, so the subdomain is never empty |
| DnspodRecord.SubDomain | pkg/multicloud/qcloud/dnspod_record.go:187-190 | the zone suffix is removed once when present, a name outside the zone is sent as is, and an empty name or the bare zone suffix becomes `@` |
| DnspodRecord.ModifyParams | pkg/multicloud/qcloud/dnspod_record.go:178-200 | the TTL is clamped, the subdomain is the name less the zone, and the record id is added |
| DnspodRecord.SentTtlReadsBack | pkg/multicloud/qcloud/dnspod_record.go:147-200 | the TTL sent on create and on modify reads back as the clamped TTL |
| DnspodRecord.CreateResult | pkg/multicloud/qcloud/dnspod_record.go:165-175 | the id is returned iff the record was created |
| DnspodRecord.GetDnsValue | pkg/multicloud/qcloud/dnspod_record.go:256-261 | MX, CNAME and SRV values lose their last character; others are unchanged |
| DnspodRecord.GetMxPriority | pkg/multicloud/qcloud/dnspod_record.go:267-272 | the priority for MX records, 0 for others |
| DnspodRecord.GetEnabled | pkg/multicloud/qcloud/dnspod_record.go:248-250 | enabled iff the flag is 1 |
| DnspodRecord.GetStatus | pkg/multicloud/qcloud/dnspod_record.go:241-246 | unknown iff the status is `spam` |
| DnspodRecord.ReadPage | pkg/multicloud/qcloud/dnspod_record.go:60-88 | a page reads iff the call succeeded and the total is a decimal number |
| DnspodRecord.ListParams | pkg/multicloud/qcloud/dnspod_record.go:60-68 | a record-list request sends the offset, a length of 100, the domain and project `-1`, and the numbers read back |
| DnspodRecord.CollectPages | pkg/multicloud/qcloud/dnspod_record.go:90-107 | offsets start at 0 and grow by each page's length; it continues while the total exceeds the offset; the listing is the pages in order |
| DnspodRecord.GetAllDnsRecords | pkg/multicloud/qcloud/dnspod_record.go:90-107 | on the replies as read: offsets start at 0 and advance by each page's length; it continues only while a page's total exceeds the records so far; a listing is the pages' records in order; a failed page is the error; running out of replies is unfinished |
| Certificate.CreateCertificate | pkg/multicloud/qcloud/certificate.go:236-261 | no request without a private key for `SVR`; the key and project are sent only when present; the id is returned iff the reply holds one |
| Certificate.DeleteCertificate | pkg/multicloud/qcloud/certificate.go:264-280 | no request for an empty id; success iff the reply says deleted |
| Certificate.SpacedHexColons | pkg/multicloud/qcloud/certificate.go:148-152 | replacing the spaces in the spaced hex dump gives the colon-joined byte pairs |
| Certificate.FingerprintShape | pkg/multicloud/qcloud/certificate.go:148-152 | the fingerprint is `sha1:` and the colon-joined lower-case hex pairs of the digest |
| Certificate.ParseHexPairsJoin | pkg/multicloud/qcloud/certificate.go:148-152 | colon-joined hex pairs parse back to the bytes |
| Certificate.FingerprintReadsBack | pkg/multicloud/qcloud/certificate.go:148-152 | the fingerprint reads back to the digest of the public key |
| Certificate.GetDetailsAsWritten | pkg/multicloud/qcloud/certificate.go:77-91 | details already loaded are kept with no fetch; a successful fetch loads them |
| Certificate.GetDetailsAsWrittenPanics | pkg/multicloud/qcloud/certificate.go:79-87 | a failed first fetch reaches the field copy from a missing certificate |
| Certificate.GetDetails | pkg/multicloud/qcloud/certificate.go:77-91 | a fetch happens iff details were not loaded; afterwards they count as loaded and the identity fields are kept |
| Certificate.GetDetailsOnce | pkg/multicloud/qcloud/certificate.go:77-91 | a second call fetches nothing and changes nothing |
| Certificate.GetDetailsAgrees | pkg/multicloud/qcloud/certificate.go:77-91 | wherever the code as written does not panic, it agrees with the corrected lazy load |
| Certificate.GetSubjectAlternativeNames | pkg/multicloud/qcloud/certificate.go:144-146 | no names give the empty string, one name gives itself, and several start with the first name and a comma |
| Certificate.SubjectAltNamesSplitBack | pkg/multicloud/qcloud/certificate.go:144-146 | the comma-joined names split back into the names when there is one at least and none holds a comma |
| Certificate.CertFingerprint | pkg/multicloud/qcloud/certificate.go:148-152 | a certificate's fingerprint starts with `sha1:` and reads back to the digest of its loaded public key |
| Certificate.InRegion | pkg/multicloud/qcloud/certificate.go:205-207 | every certificate is tagged with the region and is otherwise unchanged |
| Certificate.GetCertificatesAsWritten | pkg/multicloud/qcloud/certificate.go:182-209 | as written: request j asks at offset 100·j, every page before the last reported more than it covered, a listing is the last page read alone (tagged with the region), and a failed request ends it with that request's error |
| Certificate.GetCertificatesAsWrittenDropsPages | pkg/multicloud/qcloud/certificate.go:182-202 | with two pages of a 150-certificate total, the code as written returns only the second page |
| Certificate.GetCertificates | pkg/multicloud/qcloud/certificate.go:166-211 | the corrected listing: offsets are 0, 100, 200, ...; it continues while the total exceeds the offset; the listing is every page in order, tagged with the region (the code as written keeps only the last page) |
| RemoteFile.NewRemoteFile | pkg/hostman/storageman/remotefile/remotefile.go:60-83 | a non-positive timeout becomes a day; an empty temporary path becomes the local path; the rest is copied |
| RemoteFile.SetProperties | pkg/hostman/storageman/remotefile/remotefile.go:266-276 | checksum, format and name change only to non-empty header values |
| RemoteFile.SetPropertiesIdempotent | pkg/hostman/storageman/remotefile/remotefile.go:266-276 | applying the same headers twice is applying them once |
| RemoteFile.RequestHeaders | pkg/hostman/storageman/remotefile/remotefile.go:183-195 | extra headers win; otherwise the token is always sent, the checksum iff one is expected, and the compression header iff compressing |
| RemoteFile.RequestOf | pkg/hostman/storageman/remotefile/remotefile.go:183-202 | GET iff data is wanted, else HEAD; the cached URL when set, else the direct URL |
| RemoteFile.DownloadInternal | pkg/hostman/storageman/remotefile/remotefile.go:182-264 | exactly one request; success iff below 300 with the body written, or 304; 304 drops the temporary file; only the temporary path is written |
| RemoteFile.Download | pkg/hostman/storageman/remotefile/remotefile.go:158-180 | one to four requests; a failure leaves the cached URL cleared and its last request went out with that file state |
| RemoteFile.DownloadFallsBackToUrl | pkg/hostman/storageman/remotefile/remotefile.go:166-179 | after a failure the last request went to the direct URL |
| RemoteFile.CommitAsWritten | pkg/hostman/storageman/remotefile/remotefile.go:148-149 | unlink and rename move the file when the paths differ; in place they delete it and fail |
| RemoteFile.CommitAsWrittenDiffers | pkg/hostman/storageman/remotefile/remotefile.go:148-149 | the code as written and the corrected move agree when the paths differ; in place only the code as written loses the file |
| RemoteFile.Commit | pkg/hostman/storageman/remotefile/remotefile.go:148-149 | the downloaded content ends up at the local path, and no other file changes |
| RemoteFile.CheckAndCommit | pkg/hostman/storageman/remotefile/remotefile.go:140-153 | with a known checksum and a temporary file, a mismatch fails and changes nothing, and a match moves the file; otherwise nothing is done |
| RemoteFile.FetchFrom | pkg/hostman/storageman/remotefile/remotefile.go:135-156 | at most three downloads, at least one; a failed fetch changes no file but the temporary one |
| RemoteFile.Fetch1 | pkg/hostman/storageman/remotefile/remotefile.go:135-156 | between one and three downloads; a failed fetch changes no file but the temporary one |
| RemoteFile.FetchFromStopsAtSuccess | pkg/hostman/storageman/remotefile/remotefile.go:137-153 | on any of the three attempts, a download that succeeds is the last one, and the checksum rule decides |
| RemoteFile.FetchStopsAtFirstSuccess | pkg/hostman/storageman/remotefile/remotefile.go:137-153 | a first download that succeeds is the only one, and the checksum rule decides |
| RemoteFile.FailedFetchKeepsLocalFile | pkg/hostman/storageman/remotefile/remotefile.go:135-156 | with a separate temporary path, a failed fetch leaves the local file as it was |
| RemoteFile.ThreeFailuresFailFetch | pkg/hostman/storageman/remotefile/remotefile.go:135-156 | three failed downloads fail the fetch with the last failure's message |
| RemoteFile.FetchFailsAfterThree | pkg/hostman/storageman/remotefile/remotefile.go:135-156 | a fetch that succeeds only on its third download had two failed downloads before it |
| RemoteFile.VerifyIntegrity | pkg/hostman/storageman/remotefile/remotefile.go:117-133 | a local file that cannot be hashed is an error; one matching the expected checksum is kept with no request; otherwise a header request is made, a passing one whose checksum matches the local file keeps it with no data download, and anything else is a fresh fetch after the header request |
| RemoteFile.Fetch | pkg/hostman/storageman/remotefile/remotefile.go:85-100 | an expected checksum goes straight to the fetch; without a local file it fetches fresh; with one, the integrity check decides, and when it fails a second fetch follows |
| RemoteFile.FetchKeepsVerifiedLocalFile | pkg/hostman/storageman/remotefile/remotefile.go:90-96 | a local file the header request vouches for is kept: one download, header requests only, and the local file untouched when the temporary path is separate |
| SnapshotPolicy.Key | pkg/compute/models/snapshotpolicy_test.go:25-73 | the key is an unsigned 64-bit value whose low bit is the activation flag |
| SnapshotPolicy.DecodeKeyRoundTrip | pkg/compute/models/snapshotpolicy_test.go:25-73 | fields within their bit ranges read back from the key |
| SnapshotPolicy.KeyInjective | pkg/compute/models/snapshotpolicy_test.go:25-73 | in-range policies with the same key have the same fields |
| SnapshotPolicy.KeyExamples | pkg/compute/models/snapshotpolicy_test.go:30-64 | the five key values the tests expect |
| SnapshotPolicy.SearchFrom | pkg/compute/models/snapshotpolicy_test.go:75-208 | the result is the first due hour in the window, and none means nothing in the window is due |
| SnapshotPolicy.NextSync | pkg/compute/models/snapshotpolicy_test.go:75-208 | the next sync is strictly after the base, within a week, due, and nothing due comes before it |
| SnapshotPolicy.NextSyncIs | pkg/compute/models/snapshotpolicy_test.go:75-208 | a due hour with nothing due before it is the next sync |
| SnapshotPolicy.WeekPeriodic | pkg/compute/models/snapshotpolicy_test.go:84-98 | weekday and hour repeat every 168 hours |
| SnapshotPolicy.NextSyncExistsIffSelects | pkg/compute/models/snapshotpolicy_test.go:75-208 | there is a next sync iff the schedule selects some weekday and hour |
| SnapshotPolicy.NextSyncTuesday | pkg/compute/models/snapshotpolicy_test.go:83-90 | Tuesday at 04:00, seen from Saturday midnight, is next Tuesday at 04:00 |
| SnapshotPolicy.NextSyncFridaySunday | pkg/compute/models/snapshotpolicy_test.go:91-98 | Friday and Sunday at 02:00 and 06:00, seen from Saturday midnight, is Sunday at 02:00 |
| SnapshotPolicy.NextSyncWeekend | pkg/compute/models/snapshotpolicy_test.go:115-138 | a later point on the same day is next; seen from the point itself, the next day's point is |
| SnapshotPolicy.NextSyncNextWeek | pkg/compute/models/snapshotpolicy_test.go:139-146 | with the day's points passed and one weekday selected, the next sync is a week later |
| SnapshotPolicy.NextSyncEveryMidnight | pkg/compute/models/snapshotpolicy_test.go:147-154 | every weekday at hour 0 gives the next midnight |
| SnapshotPolicy.NextSyncRetentionFriday | pkg/compute/models/snapshotpolicy_test.go:171-179 | a Friday snapshot kept two days expires on Sunday, which is the next sync |
| SnapshotPolicy.NextSyncRetentionSaturday | pkg/compute/models/snapshotpolicy_test.go:180-188 | last Saturday's snapshot kept eight days expires on Sunday, which is the next sync |
| SnapshotPolicy.NextSyncRetentionMonday | pkg/compute/models/snapshotpolicy_test.go:189-197 | Monday's scheduled point comes before any expiry |
| MongoRemoteUpdateTask.TaskFail | pkg/compute/tasks/mongodb_remote_update_task.go:39-42 | the tag-update-failed status and the task failure, both with the error text |
| MongoRemoteUpdateTask.Continue | pkg/compute/tasks/mongodb_remote_update_task.go:83-86 | the stage is set before the status-sync subtask starts with this task as parent |
| MongoRemoteUpdateTask.OnInit | pkg/compute/tasks/mongodb_remote_update_task.go:44-81 | tags are set iff instance, tags and metadata were all read; a status is set iff the instance, tags (other than unsupported) or metadata failed; unsupported tags or a successful set hand over to the subtask; otherwise exactly one failure ends it |
| MongoRemoteUpdateTask.OnSyncStatus | pkg/compute/tasks/mongodb_remote_update_task.go:88-94 | the child's success completes the task and its failure fails it |
| MongoRemoteUpdateTask.RunEndsOnce | pkg/compute/tasks/mongodb_remote_update_task.go:44-94 | whatever the replies, the task ends exactly once, and completes iff it handed over and the child succeeded |
| MongoRemoteUpdateTask.UnsupportedTagsSkipSetTags | pkg/compute/tasks/mongodb_remote_update_task.go:54-59 | a cloud without tag support goes straight to the status sync |
| SecgroupCacheSyncstatusTask.TaskFailed | pkg/compute/tasks/security_group_cache_syncstatus_task.go:37-40 | the status becomes unknown with the error text first, and the one terminal effect is the stage failing with the same text |
| SecgroupCacheSyncstatusTask.OnInit | pkg/compute/tasks/security_group_cache_syncstatus_task.go:42-54 | exactly one terminal call; it completes iff the group was fetched; the sync happens iff then, and first; a status is set iff the fetch failed |

## Left out

- Every real remote call is an outcome parameter. This covers the Apsara SDK, OSS, Ceph, the DNSPod and SSL APIs, HTTP, and the image and task services.
- Sleeps are returned as a list of durations. Timeouts are not modelled, and nor is the remote-file progress goroutine.
- MD5 and SHA-1 are function parameters. zlib and HTML template execution are parameters (`execute`, `translateField`).
- The `sync.Map` template cache is a plain map threaded through the calls. Its concurrency is not modelled.
- Logging and action logs are not modelled, except as an effect marker in the task handlers.
- Go map iteration order is an explicit parameter. This applies to the RBD timeouts and to the Apsara parameter map, which is a sequence in iteration order.
- The DNSPod line-label tables are not modelled; the record line is taken as given.
- `GetCertificates`: the filter parameters it sends (limit, project, status, search key) are not modelled.
- The `taskman` engine is not part of this model. Stage changes, task completion and subtask starts are recorded effects.
- `SSnapshotPolicy.Key` and `ComputeNextSyncTime` are modelled from what snapshotpolicy_test.go asserts. The weekday and time-point masks are not modelled: the key takes masks as given, and the schedule takes sets of weekdays and hours.
- SnapshotPolicy.NextSync: time is whole hours counted from a Monday midnight, so calendar dates and time zones are not modelled. Retention counts only when it is positive.
- Apsara.JsonRequest: takes exactly three replies, one for each possible call. Replies after the request settles go unused.
- DnspodRecord.GetDnsValue: requires a non-empty value for MX, CNAME and SRV records; the source would index out of range there.
- DnspodRecord.GetAllDnsRecords: the source loops for as long as the service keeps reporting more records. The model reads only the replies it is given, and reports the listing as unfinished when they run out.
- RbdStorage.ConfStringRoundTrip: requires a monitor host without `:` or `\` and a key without `\`, because the source escapes only commas in the host and never escapes backslashes.
- RbdStorage.ImageSizeMb: takes the size in the int64 range. A negative size is read as unsigned, as the source's conversion does.
- `filepath.Join` cleaning is not modelled. Template paths are joined with `/`.
- Request header keys are assumed to be in canonical form.
- Apsara.LastIdValue, Apsara.InstanceIdHeader, EventTemplate.TemplatePath: case mapping is ASCII only, where Go's `strings.ToLower` and `strings.ToUpper` are Unicode-aware. A key such as `RegİonId` (with U+0130) lowercases to `regionid` in Go and is skipped, but the model counts it as id-like; a non-ASCII topic is upper-cased in Go but kept as is in the model.
- Certificate.GetSubjectAlternativeNames, Certificate.CertFingerprint: load the details through the corrected `GetDetails`. In the source, a failed first fetch panics there (see Findings).
- RemoteFile.CheckAndCommit, RemoteFile.FetchFrom, RemoteFile.Fetch1, RemoteFile.Fetch, RemoteFile.VerifyIntegrity: move the download into place with the corrected `Commit`. In the source, when the temporary path is the local path, the unlink deletes the download and the fetch fails (see Findings).
- Apsara.GetIProjects: the source asks for pages for as long as the count stays short of the total. The model reads only the replies it is given, and reports the listing as unfinished when they run out.
- Certificate.GetCertificates, Certificate.GetCertificatesAsWritten: the source asks for pages for as long as the total exceeds the offset. The model reads only the replies it is given, and reports the listing as unfinished when they run out.
- Apsara.FormatNoArgs: takes the character right after `%` as the verb. Flags, width, precision and argument indexes (`%5d`, `%-s`, `%[1]d`) are not parsed.
- EventTemplate.FillWithTemplate: a non-webhook message that is not a JSON object makes the source panic on its type assertion. The model returns `NotAnObject`.

## Findings

| source | as written | input that shows it | evidently intended | confidence | as-written member | corrected member |
|---|---|---|---|---|---|---|
| pkg/multicloud/qcloud/certificate.go:79-87 | a failed fetch is only logged, then fields are copied from the nil certificate | the first `GetDetails` call with `GetCertificate` returning an error | keep the listed details and mark them loaded | not executed | Certificate.GetDetailsAsWrittenPanics | Certificate.GetDetails |
| pkg/multicloud/qcloud/certificate.go:191-202 | each page is unmarshalled over the list itself, and an always-empty slice is appended | two pages with a total of 150: only the second page is returned | concatenate the pages | not executed | Certificate.GetCertificatesAsWrittenDropsPages | Certificate.GetCertificates |
| pkg/hostman/storageman/remotefile/remotefile.go:148-149 | unlink the local path, then rename the temporary path onto it | a file built with an empty temporary path, which then defaults to the local path: the unlink deletes the download and the rename fails | leave a file downloaded in place where it is | not executed | RemoteFile.CommitAsWrittenDiffers | RemoteFile.Commit |
