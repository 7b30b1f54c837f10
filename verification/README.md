# Tikti: a verified model of its stores and single-use protocols

Tikti is an identity service that keeps all its state in Redis. This project models the parts of it whose
correctness depends on many keys changing together under concurrent clients, and proves what they promise.

Redis is modelled as a record of maps and relations keyed by datatype constructors. A Lua script, a single
command and an EXEC are one atomic step. A WATCH/MULTI/EXEC body is a program that pauses at every command
it sends (`DirectoryTransactions.Next`, `Resume`) and ends in a plan of writes; other clients run between any
two of its commands, and EXEC succeeds only if no watched key has changed. Encoded records, signed claims,
hashed keys and derived ids are the values they are made from, except in the page-token codec, where base64
and the canonical JSON are written out; hash and MAC there are arbitrary functions that may collide.

| files | what they model |
|---|---|
| `DirectoryState`, `DirectoryTransactions` | the directory keyspace, its eleven WATCH transactions, the writes they queue |
| `DirectoryAtomic`, `DirectoryRuns` | every read is of a watched key; a committed body ran atomically at EXEC |
| `DirectoryConditions`, `DirectoryCommits`, `DirectoryEffects` | when a transaction commits, what it was told to expect, what it leaves in the store |
| `DirectoryInvariant`, `DirectoryHistory`, `DirectoryBounds` | all indexes agree, and groups stay within their bound, in every reachable state |
| `DirectoryErasure`, `DirectoryDeletion`, `DeletionCommits` | what deletions remove and spare, and when they commit |
| `DirectoryVersions`, `DirectoryLifetimes` | what versions, revisions and token versions mean over a run |
| `Memberships`, `MembershipOwners` | legacy and v2 memberships, workload account deletion, memberships that outlive their user |
| `DirectoryExamples` | runs in which deletions and lost replies fall short |
| `DirectoryAccess`, `Paging`, `Backfill` | the three access readers, keyset paging, the assignment backfill |
| `ScopePolicy`, `Clients` | audience scopes, managed clients and their marker mirror, the retry loops around the scripts |
| `SingleUse`, `NativeAuth`, `NativeHistory` | compare-and-delete records, the authorization-code flow and the actions behind it |
| `NativePolicy`, `ClientAttributes` | client policies, redirect paths and display names |
| `SamlAcs`, `SamlHistory`, `SamlTrust` | the assertion consumer service and the actions behind it, IdP records under refresh and administration |
| `PageToken`, `MembershipPages` | the signed page token and the exact membership list |
| `RateLimiter` | the sliding-window limiter as a class |
| `AiTokens`, `AiDecisions` | AI token exchange, delegation and validation, and exactly what they accept |
| `Prelude`, `Strings` | orders, sets and strings the others share |

Where the code does something other than one would expect, the model follows the code and a lemma gives the
exact condition:

- the workload account deletion script never touches the ordered email index, so every success leaves an
  index entry without a user (`DirectoryHistory.WorkloadDeletionBreaksIndex`,
  `DirectoryExamples.WorkloadDeletionFallsShort`);
- a group creation that loses the reply of its second command frees the name of a stored group
  (`DirectoryHistory.DropNameKeeps`, `LostReplySplitsName`, `DirectoryExamples.LostReplyFallsShort`);
- in any run the directory agrees so far if and only if so far no such deletion succeeded, no creation gave up
  the name of a stored group, and none wrote its group after its name was lost
  (`DirectoryHistory.DirectoryAlwaysAgrees`);
- deletion by email leaves tenant memberships and a federated record of the same id behind, and drops a SAML
  alias without checking its owner (`DirectoryErasure.EmailDeletionErases`, `EmailDeletionSparesAliases`,
  `DirectoryHistory.OneIdTwoRecords`, `DirectoryExamples.EmailDeletionFallsShort`);
- a SAML user put into a group is listed in the group's foreign tenants without holding a role there
  (`DirectoryAccess.ForeignUserListedWithoutRoles`, `ForeignReadersAgree`);
- an authorization code can be consumed after its expiry, by at most the time its record took to reach the
  store (`NativeAuth.TokenProvenance`, `TokenHappens`);
- strict base64 decoding skips line breaks, so only the re-encoding check makes page tokens unique
  (`PageToken.Encode64Decode64`, `EncodeDecode`).

## Model

| member | source | states |
|---|---|---|
| DirectoryAtomic.ReadsAreWatched | internal/repository/directory_user_deletion.go:225-416 | whatever replies it gets, no transaction reads a key it has not watched first, keys discovered midway included |
| DirectoryAtomic.StepFaithful | internal/repository/directory_user_deletion.go:167-204 | a command answered by an unchanged store keeps every local variable of the transaction equal to what the store holds |
| DirectoryAtomic.StepAuthorised | internal/repository/directory_user_deletion.go:120-154 | a deletion reaches its writes only with a stored, active, current ADMIN actor, the backfill marker and the expected version of its subject |
| DirectoryRuns.CommitsOnce | internal/repository/directory_user_deletion.go:27-73 | a transaction body has one outcome per store |
| DirectoryRuns.RunUndisturbed | internal/repository/directory_user_deletion.go:27-73 | if no watched key changed, the body so far would have run the same on the new store |
| DirectoryRuns.CommitIsAtomic | internal/repository/identity_directory_repository.go:238-290 | serializability: in every interleaving a successful EXEC has the effect of running the whole body atomically on the store as it is then, and no other plan could result |
| DirectoryRuns.AtomicOutcomeIsReached | internal/repository/directory_user_deletion.go:27-73 | the converse: whatever a body commits when run atomically on a store, some run commits |
| DirectoryConditions.CommitHonours | internal/repository/identity_directory_repository.go:804-834 | in every interleaving a committed write is the one asked for, and the version, password or foreign trust its caller relied on is that of the store it replaces |
| DirectoryCommits.CommitsIffAllowed | internal/repository/identity_directory_repository.go:215-1119 | run undisturbed, each of the ten other transactions commits a write if and only if the store allows it, by a condition on records, versions, names and bounds alone |
| DirectoryCommits.RefusalsTrue | internal/repository/identity_directory_repository.go:215-1119 | a body that ends without a write reports an error that is true of the store, or that there is nothing to do, or that what was read before the WATCH has changed |
| DirectoryEffects.CommittedEffect | internal/repository/identity_directory_repository.go:215-1119 | in every run a committed write leaves exactly the effect of its operation, key by key: what is stored, what is removed, and that nothing else has changed |
| DirectoryEffects.WithdrawalAccess | internal/repository/identity_directory_repository.go:1081-1119 | after a withdrawn assignment a user holds in the tenant what it held apart from that principal, and everywhere else what it held before |
| DirectoryEffects.PutAccess | internal/repository/identity_directory_repository.go:991-1079 | after a put assignment the principal's users hold the roles put, as far as they are eligible, and what they held apart; nobody else's access changes |
| DirectoryEffects.CreateUserEffect | internal/repository/identity_directory_repository.go:172-213 | the user creation script stores record, email key and index entry if the email is not another's and the id is free or holds this record, and nothing otherwise |
| DirectoryEffects.CreateFederatedEffect | internal/repository/user_repository.go:52-59 | the federated creation script stores record and alias if both are free, and nothing otherwise |
| DirectoryEffects.LegacyMembershipEffect | internal/repository/membership_repository.go:44-64 | guarded legacy create and delete write one pair and its reverse entry unless a v2 entry exists |
| DirectoryEffects.EnsureEffect | internal/repository/membership_v2_repository.go:75-119 | Ensure writes all four entries of a pair that has none, and nothing otherwise |
| DirectoryEffects.WorkloadEffect | internal/repository/workload_account_deletion_repository.go:14-42 | workload account deletion removes exactly seven entries of a complete account, and nothing otherwise |
| DirectoryEffects.GroupCreationEffect | internal/repository/identity_directory_repository.go:641-668 | what the commands of a group creation write |
| DirectoryInvariant.UserKeeps | internal/repository/identity_directory_repository.go:215-300 | an update, with or without a change of email, keeps email key, ordered index and records in agreement |
| DirectoryInvariant.SecretKeeps | internal/repository/identity_directory_repository.go:305-362 | consuming a temporary password keeps the directory invariant |
| DirectoryInvariant.NewUserKeeps | internal/repository/user_legacy_import.go:13-78 | importing a legacy user under an unused id and email keeps the directory invariant |
| DirectoryInvariant.GroupKeeps | internal/repository/identity_directory_repository.go:766-846 | patching or renaming a group keeps name keys, order index and records in agreement |
| DirectoryInvariant.GroupErasureKeeps | internal/repository/identity_directory_repository.go:848-900 | deleting a group removes it from members, user groups and assignments together |
| DirectoryInvariant.MemberChangeKeeps | internal/repository/identity_directory_repository.go:910-989 | adding or removing a member keeps group-to-user and user-to-group sets mirrored |
| DirectoryInvariant.AssignmentKeeps | internal/repository/identity_directory_repository.go:991-1079 | putting an assignment keeps assignments and principal-to-tenant sets mirrored and canonical |
| DirectoryInvariant.AssignmentErasureKeeps | internal/repository/identity_directory_repository.go:1081-1119 | deleting an assignment keeps them mirrored |
| DirectoryInvariant.DeletionKeeps | internal/repository/directory_user_deletion.go:418-442 | the queued writes of a user deletion, made from the current store, keep the directory invariant |
| DirectoryInvariant.EmailErasureKeeps | internal/repository/user_repository.go:318-333 | so do those of a deletion by email |
| DirectoryInvariant.PlanKeepsDirectory | internal/repository/identity_directory_repository.go:766-1119 | every plan that fits the store keeps the whole directory invariant |
| DirectoryHistory.FinishKeeps | internal/repository/identity_directory_repository.go:641-667 | a group creation's second command keeps the directory invariant if and only if the creation still owns the name it reserved |
| DirectoryHistory.CreateUserKeeps | internal/repository/identity_directory_repository.go:172-213 | the user creation script never steals an email or overwrites another record |
| DirectoryHistory.DirectoryAlwaysAgrees | internal/repository/identity_directory_repository.go:172-300 | of any run, under any interleaving, every index of the directory agrees with its records in every state so far, nothing dangling, if and only if no step so far deleted a workload account, wrote a group whose name was lost, or gave up the name of a stored group |
| DirectoryHistory.NameStaysReserved | internal/repository/identity_directory_repository.go:641-667 | while no reply is lost every creation, between its two commands, owns the name it reserved, whatever runs in between |
| DirectoryHistory.OnlyDeletionsBreak | internal/repository/workload_account_deletion_repository.go:34-41 | so in such a run only a workload account deletion that deletes can end the agreement |
| DirectoryHistory.WorkloadDeletionBreaksIndex | internal/repository/workload_account_deletion_repository.go:14-42 | the script keeps the directory invariant if and only if the account is not stored under this email with all four membership entries equal |
| DirectoryHistory.DropNameKeeps | internal/repository/identity_directory_repository.go:666-669 | deleting a name key keeps the directory invariant if and only if no stored group owns the name |
| DirectoryHistory.OneIdTwoRecords | internal/repository/user_repository.go:52-66 | the two creation scripts can give one id a directory record and a federated one |
| DirectoryHistory.LostReplySplitsName | internal/repository/identity_directory_repository.go:652-668 | a creation whose second command ran without its reply frees its own group's name, and the next creation makes two groups of one name |
| DirectoryHistory.NamesUnique | internal/repository/identity_directory_repository.go:1723-1726 | group names are unique up to case |
| DirectoryBounds.GroupsStayBounded | internal/repository/identity_directory_repository.go:958-966 | under any interleaving of member additions no group exceeds 500 members |
| DirectoryErasure.DeletionErases | internal/repository/directory_user_deletion.go:418-442 | a committed deletion leaves no trace of its subject in users, emails, index, groups, assignments or either membership generation |
| DirectoryErasure.DeletionErasesAliases | internal/repository/directory_user_deletion.go:356-394 | nor in the legacy email hash, the SAML alias and the session entries looked up for it |
| DirectoryErasure.DeletionBumps | internal/repository/directory_user_deletion.go:265-296 | it raises the version of exactly the subject's groups, by one |
| DirectoryErasure.DeletionSpares | internal/repository/directory_user_deletion.go:418-442 | records, relations and assignments that do not name the subject are untouched |
| DirectoryErasure.DeletionSparesAliases | internal/repository/directory_user_deletion.go:418-442 | memberships, emails, aliases and sessions of others are untouched |
| DirectoryErasure.DeletionKeepsAccess | internal/repository/directory_user_deletion.go:20-74 | deleting one user changes nobody else's effective roles anywhere |
| DirectoryErasure.PlanKeepsMemberships | internal/repository/directory_user_deletion.go:317-354 | transactions keep the four-entry mirror of v2 memberships |
| DirectoryErasure.EmailDeletionErases | internal/repository/user_repository.go:231-345 | deletion by email erases its subject if and only if it had no tenant membership and no federated record |
| DirectoryErasure.EmailDeletionSparesAliases | internal/repository/user_repository.go:323-325 | it spares the SAML aliases of others if and only if the alias it drops is not another's |
| DirectoryDeletion.CommittedDeletionErases | internal/repository/directory_user_deletion.go:20-74 | in every run in which the directory agreed so far, a committed deletion was authorised at its EXEC and leaves no trace of its subject |
| DirectoryDeletion.CommittedDeletionSpares | internal/repository/directory_user_deletion.go:265-296 | in every such run it bumps exactly the affected groups and spares everyone else's effective access |
| DeletionCommits.DeletionCommitsIff | internal/repository/directory_user_deletion.go:20-416 | on every agreeing store a deletion commits if and only if it is authorised and current, the user's relations are at most 500 together, its legacy record and memberships are consistent, and a SAML user's home is active and its alias and session entries absent or its own |
| DeletionCommits.DeletionRefusalsTrue | internal/repository/directory_user_deletion.go:20-416 | a refused deletion reports what is true of the store; one that finds no such user writes nothing |
| DirectoryDeletion.DeletionHappens | internal/repository/directory_user_deletion.go:20-74 | a concrete run in which an administrator's deletion passes every check, commits and removes its user |
| DirectoryVersions.GroupVersionDetermines | internal/repository/identity_directory_repository.go:804-834 | over any whole run, also one in which indexes come to disagree, a group's id and version determine its name, description, status and member set |
| DirectoryVersions.MembersAlwaysMirrored | internal/repository/identity_directory_repository.go:910-989 | in every state of every run the two member relations mirror each other and no pending creation has a group |
| DirectoryLifetimes.RevisionDetermines | internal/repository/identity_directory_repository.go:254-289 | within one lifetime a user's revision determines the record |
| DirectoryLifetimes.AssignmentVersionDetermines | internal/repository/identity_directory_repository.go:1053-1061 | within one lifetime an assignment's version determines its roles |
| DirectoryLifetimes.TokenVersionCounts | internal/repository/user_repository.go:347-410 | within one lifetime the token version rises by exactly the number of committed increments, status writes and temporary-password consumptions, and the revision by that of all committed writes, updates that carry the token version over included |
| Memberships.NeverCorrupt | internal/repository/membership_v2_repository.go:28-57 | on a mirrored store Ensure and GetExact never report corruption |
| Memberships.EnsureEstablishes | internal/repository/membership_v2_repository.go:75-149 | Ensure succeeds exactly when the pair has no membership, or a v2 one with these roles; then GetExact reads it back; other outcomes write nothing |
| Memberships.EnsureTwice | internal/repository/membership_v2_repository.go:75-119 | a second Ensure replays the first one's membership |
| Memberships.LegacyCreateKeepsMirror | internal/repository/membership_repository.go:44-53 | the guarded legacy create cannot break a v2 membership |
| Memberships.LegacyDeleteKeepsMirror | internal/repository/membership_repository.go:55-64 | nor can the guarded legacy delete |
| Memberships.WorkloadKeepsMirror | internal/repository/workload_account_deletion_repository.go:14-42 | workload account deletion keeps the membership mirror |
| Memberships.MembershipsAlwaysAgree | internal/repository/membership_v2_repository.go:28-57 | in every run a v2 membership has all four entries with one payload |
| Memberships.MembershipImmutable | internal/repository/membership_v2_repository.go:59-65 | its payload never changes until all four entries are removed together |
| Memberships.WorkloadDeletionBreaksMirrored | internal/repository/workload_account_deletion_repository.go:14-42 | on a mirrored store: if and only if the user is not stored with this email or has no v2 membership of the tenant |
| MembershipOwners.PlanKeepsOwners | internal/repository/user_repository.go:231-345 | a transaction leaves a membership without a stored user if and only if it deletes by email a user that has one |
| MembershipOwners.OwnedUntilOrphaned | internal/repository/membership_repository.go:44-64 | in every run a step leaves every membership with a stored user if and only if it is not such a deletion, a membership created for a user not stored, or a workload account deletion that leaves one in another tenant |
| DirectoryExamples.EmailDeletionFallsShort | internal/repository/user_repository.go:231-345 | a run in which a deletion by email leaves its user's membership behind and drops the alias of another principal |
| DirectoryExamples.WorkloadDeletionFallsShort | internal/repository/workload_account_deletion_repository.go:14-42 | a run in which one workload account deletion ends the directory invariant |
| DirectoryExamples.LostReplyFallsShort | internal/repository/identity_directory_repository.go:652-668 | from every agreeing store a run goes on in which one lost reply ends the agreement and two groups come to have one name |
| DirectoryAccess.GetEffectiveTenantRoles | internal/repository/identity_directory_repository.go:1275-1349 | sorted roles, and provenance that names exactly the contributing principals in order with their eligible roles and versions; exact failure condition |
| DirectoryAccess.RolesExplained | internal/repository/identity_directory_repository.go:1304-1342 | a role is effective if and only if some provenance entry carries it |
| DirectoryAccess.CollectTenants | internal/repository/identity_directory_repository.go:1212-1250 | the union of the reverse sets of the user and its active groups, or more than the maximum of them |
| DirectoryAccess.ListEffectiveTenantIds | internal/repository/identity_directory_repository.go:1201-1273 | the sorted tenants reached, those without an eligible role dropped for foreign SAML users |
| DirectoryAccess.CollectTenantUsers | internal/repository/identity_directory_repository.go:451-516 | exactly the users behind the tenant's assigned principals |
| DirectoryAccess.ReadersAgree | internal/repository/identity_directory_repository.go:1201-1349 | in every invariant state tenant list and role reader agree, and the tenant's user list too unless the user is a foreign SAML user |
| DirectoryAccess.ForeignReadersAgree | internal/repository/identity_directory_repository.go:1284-1300 | for any user, listing and roles agree exactly when nothing is assigned or some assigned role is eligible |
| DirectoryAccess.ForeignUserListedWithoutRoles | internal/repository/identity_directory_repository.go:478-503 | an invariant state in which a foreign SAML user is listed without a role |
| Paging.SearchStrings | internal/repository/identity_directory_repository.go:522-525 | the first position not below the cursor |
| Paging.FetchPage | internal/repository/identity_directory_repository.go:1145-1173 | a page is the smallest remaining entries, at most the limit, with a cursor exactly when more remain |
| Paging.TraversalStable | internal/repository/identity_directory_repository.go:505-538 | with arbitrary inserts and deletes between fetches no entry is returned twice, every entry present throughout exactly once, none that was never present |
| Paging.TraversalEnds | internal/repository/identity_directory_repository.go:1145-1173 | once mutations stop the traversal ends within entries / limit + 1 fetches |
| Backfill.Merge | internal/repository/identity_directory_repository.go:1545-1602 | the two loops compute the merge of the scanned hashes, in whatever order a hash yields its fields |
| Backfill.MergeIsMerge | internal/repository/identity_directory_repository.go:1587-1597 | a successful merge covers every value seen and prefers v2 over legacy |
| Backfill.MergeFails | internal/repository/identity_directory_repository.go:1545-1602 | over sorted keys it fails if and only if a hash is unreadable, there are too many pairs, two v2 values of a pair differ, or two legacy values differ whose key sorts before the pair's v2 key or that no v2 value hides |
| Backfill.MergeIgnoresOrder | internal/repository/identity_directory_repository.go:1649-1697 | two scans of the same hashes, found in any order and any number of times, have the same outcome |
| Backfill.ApplyLoop | internal/repository/identity_directory_repository.go:1604-1646 | the apply loop runs over the pairs up to the first failure |
| Backfill.AllExtends | internal/repository/identity_directory_repository.go:1615-1623 | the backfill never alters an existing assignment |
| Backfill.RunProjects | internal/repository/identity_directory_repository.go:1614-1646 | a run finishes if and only if no pair stops it, and then every unassigned pair of a stored user whom the tenant is not foreign to holds its merged roles, and nothing else has changed |
| Backfill.CrashResumable | internal/repository/identity_directory_repository.go:1614-1646 | a run that crashes after any pair, or is stopped there by an error, followed by a full run, ends like one full run |
| Backfill.RepeatWritesNothing | internal/repository/identity_directory_repository.go:1614-1646 | a further run, after one that finished or failed, writes nothing and has the same outcome |
| Backfill.BackfillKeepsDirectory | internal/repository/identity_directory_repository.go:1614-1646 | the projection keeps the directory invariant, finished or not |
| RateLimiter.PruneAttempts | internal/codeqbinding/ratelimit.go:75-84 | exactly the attempts after the cutoff |
| RateLimiter.IdentityRateLimiter.constructor | internal/codeqbinding/ratelimit.go:25-30 | an empty limiter with the default bound |
| RateLimiter.IdentityRateLimiter.EvictExpired | internal/codeqbinding/ratelimit.go:64-73 | exactly the identities with an attempt in the window stay |
| RateLimiter.IdentityRateLimiter.Allow | internal/codeqbinding/ratelimit.go:38-62 | the pruning, evicting limiter answers as one that keeps the whole history; at most the maximum is tracked; the retry hint is the first second at which a retry succeeds |
| RateLimiter.WindowBound | internal/codeqbinding/ratelimit.go:12-16 | no window, wherever it ends, holds more than the limit of allowed attempts |
| RateLimiter.RetrySeconds | internal/codeqbinding/ratelimit.go:86-92 | the least whole number of seconds, at least one, that covers the wait |
| RateLimiter.HintAllows | internal/codeqbinding/ratelimit.go:55-58 | after a limit refusal a retry with no call in between is allowed exactly from the moment the oldest counted attempt leaves the window |
| ScopePolicy.CanonicalAudienceScopes | internal/scopepolicy/policy.go:90-118 | accepts exactly the lists whose trimmed values are all allowed and returns their sorted duplicate-free set |
| ScopePolicy.CanonicalIsFixed | internal/scopepolicy/policy.go:121-124 | canonicalization returns its argument exactly on valid stored scopes |
| Clients.ExecKeepsMirror | internal/repository/client_repository.go:41-87 | every script keeps: a marker implies an equal, valid stored value; an unmarked value has no owner |
| Clients.ExecEvolves | internal/repository/client_repository.go:64-79 | a managed record is never unmarked and never changes id, tenant or owner |
| Clients.ExecEffect | internal/repository/client_repository.go:41-87 | a script writes its client under its own key, with the marker if it is managed, exactly where nothing is stored or the record its caller read, and otherwise writes nothing and says so |
| Clients.CreateOverwritesNothing | internal/repository/client_repository.go:41-51 | a create never changes a stored value |
| Clients.NeverCorrupt | internal/repository/client_repository.go:80-87 | no script reports corruption on a mirrored store |
| Clients.RunKeepsMirror | internal/repository/client_repository.go:41-87 | all of that over every run of the scripts |
| Clients.CreatedOnce | internal/repository/client_repository.go:52-63 | at most one caller sees a managed client created |
| Clients.EnsureManagedAudience | internal/repository/client_repository.go:155-248 | under any interference success means value and marker are the desired client at the last script; a contract mismatch is never reported; alone it succeeds exactly where nothing, a managed or an adoptable record is stored |
| Clients.SetManagedAudienceStatus | internal/repository/client_repository.go:254-316 | a reported change swapped the status of the record then stored and kept every other field; a missing client is never created; alone it succeeds exactly on a managed client of this owner that stays valid |
| Clients.RaiseScopes | internal/repository/client_audience_scopes.go:95-220 | a reported change left exactly the sorted union of the swapped ceiling and the additions, other fields intact; a replay writes nothing; success means the ceiling holds the additions; alone it succeeds exactly where the client may be raised and the union fits |
| Clients.UnionRaises | internal/repository/client_audience_scopes.go:142-147 | the raised ceiling holds the old scopes and the additions |
| Clients.RaisesLoseNothing | internal/repository/client_audience_scopes.go:95-185 | of two calls that succeed over one schedule of raises, however they interleave, both additions and the ceiling before are there at the end |
| SingleUse.ConsumeSound | internal/nativeauth/store.go:88-92 | compare-and-delete spends every created record at most once |
| NativeAuth.StepKeeps | internal/nativeauth/http.go:289-401 | every step of the authorize, consent and token handlers keeps the provenance invariant |
| NativeAuth.TokensBounded | internal/nativeauth/http.go:289-401 | over all interleavings tokens issued <= codes created <= approved requests consumed <= requests authorized |
| NativeAuth.TokenProvenance | internal/nativeauth/store.go:144-178 | each token's grant has its request's client, redirect and challenge, a matching verifier and the identity that approved; the code expires by min(creation + 60 s, session expiry), passed its last check before that and was consumed before that plus the time its record was on its way |
| NativeAuth.ProvenanceInjective | internal/nativeauth/store.go:268-302 | no two tokens share a code, an approval or a request |
| NativeAuth.TokenHappens | internal/nativeauth/store.go:155-178 | the bounds are met: for every such delay some run issues a token whose code is consumed at the last moment allowed, after its expiry if the delay is not zero |
| NativeHistory.RequestHappened | internal/nativeauth/store.go:133-142 | every logged request was authorized for a registered client and redirect, to live five minutes |
| NativeHistory.ApprovalHappened | internal/nativeauth/http.go:289-345 | every approval goes back to one handler that a browser session of that identity began with the decision to approve; it read, checked and consumed the same request in time |
| NativeHistory.DenialSpends | internal/nativeauth/http.go:328-334 | a denied consent is never approved; consuming its request spends it and changes no approval, code, token or other consent |
| NativeHistory.RedemptionHappened | internal/nativeauth/http.go:354-395 | every spent code was read, under the same id and with what the token request asked, by the handler that consumed it |
| ClientAttributes.CleanIffPlain | internal/nativepolicy/policy.go:61-72 | a rooted path is its own clean form if and only if no segment is empty, "." or ".." |
| ClientAttributes.CheckPath | internal/nativepolicy/policy.go:61-72 | accepts exactly the printable clean rooted paths without query, fragment or escape; all their segments are plain |
| ClientAttributes.CheckDisplayName | internal/nativepolicy/policy.go:79-89 | accepts exactly the names of 1 to 100 bytes without control characters or blanks at either end |
| NativePolicy.Normalize | internal/nativepolicy/policy.go:79-119 | the seen-role, scope and ceiling loops accept exactly the valid policies and return the same policy in normal form |
| NativePolicy.NormalUnique | internal/nativepolicy/policy.go:121-132 | one policy has one normal form, so its fingerprint does not depend on listing order |
| NativePolicy.ScopesForRoles | internal/nativepolicy/policy.go:158-189 | exactly the sorted union of the held roles' scopes, if the base role is held and the required scopes are covered |
| NativePolicy.ScopesMonotone | internal/nativepolicy/policy.go:158-189 | more roles never take a scope away and none exceeds the ceiling |
| NativePolicy.SamePolicySameScopes | internal/nativepolicy/policy.go:158-162 | normalizing does not change what a policy grants |
| NativePolicy.NewRegistry | internal/nativepolicy/registry.go:13-43 | refuses exactly lists that are too long, invalid, repeat an id or give a role two meanings; foreign trust is exactly the roles of cross-tenant clients |
| PageToken.Decode64Encode64 | internal/repository/exact_membership_page_token.go:46-47 | raw URL-safe base64 round-trips |
| PageToken.Encode64Decode64 | internal/repository/exact_membership_page_token.go:66-73 | strict decoding accepts what encoding produces with line breaks anywhere; re-encoding gives the text back if and only if it has none |
| PageToken.JsonParses | internal/repository/exact_membership_page_token.go:74-78 | the canonical JSON of a token parses back to it |
| PageToken.EncodeFits | internal/repository/exact_membership_page_token.go:41-53 | every valid token encodes, within 460 of the 512 characters allowed |
| PageToken.DecodeEncode | internal/repository/exact_membership_page_token.go:41-83 | a token decodes to itself, for its own tenant and page size and no other |
| PageToken.EncodeDecode | internal/repository/exact_membership_page_token.go:55-83 | whatever decodes is the encoding of the token it decodes to, which rests on the re-encoding check |
| MembershipPages.ListExact | internal/repository/exact_membership_list_reader.go:57-133 | a page of the sorted snapshot of valid ids from where its token points; exactly when it is broken, stale, invalid or a page |
| MembershipPages.SignedKeysValid | internal/repository/exact_membership_page_token.go:85-90 | the signed codec, under any MAC of 32 bytes and any hexadecimal hash, is one the list reader can rely on |
| MembershipPages.SomeKeysValid | internal/repository/exact_membership_page_token.go:41-83 | a concrete codec and hash meet what the list reader relies on |
| MembershipPages.SerializedInjective | internal/repository/exact_membership_list_reader.go:115-133 | lists of ids have different serializations, so only the hash can confuse two snapshots |
| MembershipPages.ChainEnumerates | internal/repository/exact_membership_list_reader.go:76-112 | a token chain enumerates one sorted snapshot from its front, the whole of it if and only if the last page has no token, or two snapshots it met collide under the hash |
| MembershipPages.StaleIffChanged | internal/repository/exact_membership_list_reader.go:81-84 | a token is stale exactly when the id set has changed and the two snapshots do not collide |
| SamlAcs.BoundedExpiry | internal/saml/cookies.go:53-65 | the earlier of the assertion's and the configured bound |
| SamlAcs.StepKeeps | internal/saml/http_acs.go:53-189 | every step of every callback keeps the provenance invariant |
| SamlAcs.OneSessionPerRequest | internal/saml/store_redis.go:19-24 | across all interleaved callbacks a login request yields at most one token and one exposed session |
| SamlAcs.SessionProvenance | internal/saml/http_acs.go:53-189 | tenant from the request, redirect its RelayState or the default, token after a persisted intent, cookie after a persisted acceptance, lifetime within both bounds |
| SamlAcs.SessionHappens | internal/saml/http_acs.go:53-189 | the bound is met: a login carried through by one callback exposes one session |
| SamlAcs.ReplayGuard | internal/saml/http_acs.go:114-123 | in every run two tokens of one assertion passed the replay guard at least an hour apart |
| SamlHistory.IssueHappened | internal/saml/http_acs.go:53-150 | every token goes back to one callback that consumed its login request, validated a response with that request's RelayState, passed the guard with an unmarked assertion and persisted the intent, in this order |
| SamlHistory.SessionHappened | internal/saml/http_acs.go:168-189 | every session was exposed by the callback that issued its token, after it had persisted its acceptance |
| SamlTrust.GenerationIsLatest | internal/saml/admin.go:110-141 | in every run the stored record carries the generation of the latest administrator Put, and is absent after a Delete |
| SamlTrust.SwapCrossesNoWrite | internal/saml/refresh.go:123-164 | a refresh that swaps has seen no administrator write since it read, not even delete and recreate, stores exactly what it fetched, and never creates a record |
| SamlTrust.NoWriteBetween | internal/saml/refresh.go:123-164 | the same told by the actions of the run: none between the read and the swap is an administrator write to the tenant, and the stored record is the read one with the fetched metadata |
| SamlTrust.AdminEffect | internal/saml/admin.go:110-141 | a Put stores exactly its record, a Delete removes exactly its tenant's, other actions but a swap leave the store alone |
| AiTokens.ScopesCanonical | internal/aigateway/authority.go:118-130 | accepted scopes come back sorted, with the same members, and are a fixed point |
| AiTokens.CanonicalSplits | internal/services/ai_gateway.go:144-146 | the claim of canonical scopes splits back into them |
| AiTokens.EffectiveAgain | internal/services/ai_gateway.go:148-190 | any selection from effective scopes is effective in the same state |
| AiTokens.UserTokenAccepted | internal/services/ai_gateway.go:192-319 | a minted user token is accepted in any later state exactly while it has not expired, the account is active, current and owes no password change, its scopes are still granted and the authority still vouches for the user under its epoch; with nothing changed, expiry and account decide |
| AiTokens.UserTokenScopes | internal/services/ai_gateway.go:148-217 | a user token carries only scopes asked for and held within the ceiling, exactly those asked for unless a ceiling was requested, and no longer than asked |
| AiTokens.WorkloadTokenAccepted | internal/services/ai_workload.go:22-89 | a minted workload token is accepted in any later state exactly while it has not expired and the authority still vouches for the pinned workload under its epoch; it has exactly the scopes asked for and never the usage scope |
| AiTokens.DelegatedTokenAccepted | internal/services/ai_workload.go:44-89 | a minted delegated token is accepted in any later state exactly while it has not expired, the user's account and scopes stand and the authority still vouches for the same service; with nothing changed, until it expires |
| AiTokens.DelegationAttenuates | internal/services/ai_workload.go:48-85 | a delegated token has the user token's subject, tenant and version, some of its scopes, and outlives neither it nor the projected token |
| AiTokens.DelegatedNeverDelegates | internal/services/ai_workload.go:44-89 | no token the workload exchange minted is a user token, and none that is not one ever seeds a delegation, whatever has changed since |
| AiTokens.TokensHappen | internal/services/ai_workload.go:22-89 | in one concrete state all three exchanges issue a token, the delegated one for the user token of the first |
| AiDecisions.ValidateExact | internal/services/ai_gateway.go:236-319 | arbitrary claims are accepted if and only if an explicit condition holds on issuer, audience, id, scope claim, times, kind, version, actor, workload, account, grants and the authority's answer |
| AiDecisions.UserExchangeExact | internal/services/ai_gateway.go:192-232 | the user exchange mints exactly the claims an explicit condition describes, and nothing otherwise |
| AiDecisions.WorkloadExchangeExact | internal/services/ai_workload.go:22-89 | so does the workload exchange without a user token |
| AiDecisions.DelegationExact | internal/services/ai_workload.go:48-85 | and with one, which must itself be accepted, be a user's of the same tenant and carry every scope |

## Left out

- Directory mutators and handlers written as Go loops (directory, native authorization, SAML) are step machines on values here, because the theorems are about interleavings of their single commands; the eight-fold retry loops and their liveness are not modelled.
- `backfillUsers`, the backfill lease and the completion marker's race: the marker is not re-read after the lock is taken, so only the merge and apply loops are proved, sequentially.
- DeletionCommits.DeletionCommitsIff: stored records always decode; session entries hold tenant, subject and name id, not session index and email.
- DirectoryHistory.CreateUserKeeps: the federated creation script is a step of every run, but nothing is proved about SAML aliases beyond what deletions do to them.
- Ids that start with `v2:`: membership keys are datatype constructors, so two Redis keys that would collide as strings are different keys here.
- 64-bit overflow checks of versions, timestamps, and the character grammar of user and group ids; case folding of group names is ASCII only.
- A bounded set read (SCARD, then SMEMBERS of the same watched key) is one read.
- DirectoryAccess.ReadersAgree: the access readers read one snapshot of the store; commands of others between their own reads are not modelled.
- The 1024-character cap of directory cursors: paging works on decoded cursors. `ListDirectoryUsers` and `ListGroups` page by ZRANGEBYLEX, which returns a page in the sense of `Paging.IsPage` by definition.
- MembershipPages.ListExact: pages hold ids; the membership and user records behind them (`readPage`) are not modelled.
- Backfill.Merge: the bound of 20,000 on the keys SCAN returns, repetitions included, is checked before the merge and not modelled.
- RateLimiter.IdentityRateLimiter.Allow: the clock is a parameter that never goes back, as Go's monotonic clock under the mutex.
- NativeAuth.TokenProvenance: one clock, in whole seconds, for handlers and store; CSRF, browser identity, PKCE hashing and audit records are inputs or possible stops. The retries of SETNX under a fresh random id are one attempt.
- SamlAcs.SessionProvenance: XML, signatures and tenant activity are one verdict; session indexes, cookies other than the session's and metrics are left out. `isSafeRedirect` is a parameter.
- ClientAttributes.CheckDisplayName: names are Unicode strings, so bytes that are not UTF-8 do not occur; `ValidateRedirect` is not modelled.
- AiTokens.UserTokenAccepted: concurrency slots, tenant epoch and the identity authority are part of the state a token meets; signing keys do not change; the machine grants of `exchangeAIMachine` are not modelled.
- Clients.EnsureManagedAudience: interference is any schedule of legal script calls by others between our own; transport errors are left out. `List` and `CanonicalPermissions` would only add easy members.
- HTTP routing, CLI, migrations, templates, metrics, XML and JWT libraries, OOB codes, tenant lifecycle.
