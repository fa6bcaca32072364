# Repository service cache and documentation stores, in Dafny

This project models the core of a documentation hosting backend written in Go, plus one
JavaScript module of its front end, and proves properties of the model.

The centre of the model is the read-through cache in front of a repository hosting
service such as GitHub:

- **Identity types.** These are the repository slug, the repository ID and the reference (a branch or a tag). Each has a validation function and a 64-bit FNV-1a hash that addresses cache entries.
- **Cache plumbing.** This covers the key namespace, the decoding of cached items, and the collision guard. The guard accepts a cached item only when the identity stored inside it equals the identity asked for.
- **ServiceWithLatest.** It always asks the wrapped service and writes the answer to the store as a best effort.
- **ServiceWithCache.** It answers from the store when the guard accepts the item, and asks ServiceWithLatest otherwise. Its reference listing chooses among four cases, depending on whether the branches sub-cache and the tags sub-cache each hold a list.
- **The older single-tier cache** of the common-go package, which follows the same key and guard rules.

Around that core, the model covers:

- the nested slug and reference trees;
- the conversions between document lists and document maps;
- the in-memory documentation store used by tests;
- the entity and key rules of the Cloud Datastore documentation store;
- the in-memory repository service used by tests;
- the GitHub push payload, reference and repository mappings;
- the App Engine file-name rules;
- the front end's link builders.

External collaborators are modelled as follows:

- **The wrapped repository service** is an oracle (`ServiceAdapter.Service`). Its answers are fixed functions of the arguments, and every call is appended to a log, so the contracts can say which calls a cache makes.
- **The cache store** (`CacheStore.Store`) is a map from keys to items. It also has a set of keys whose reads fail, and a switch that makes every write fail.
- **encoding/json** is replaced by a self-delimiting byte codec (`Codec`). Every value decodes back to itself.
- **GitHub API calls** are function parameters: a function from the request to the response.
- **The clock** is a `now` parameter.
- **The App Engine default bucket** is a parameter.

Strings are sequences of Unicode scalar values. `[]byte(s)` is their UTF-8 encoding, written out in `Utf8`.

Go's `int64` is a newtype where the source's width matters: sequence IDs and repository IDs. `strconv.Atoi` is bounded to the 64-bit range.

Modules, one per file:

| module | models |
|---|---|
| `Wrappers` | `Option`, `Result`, `Outcome` |
| `Text` | the Go `strings` functions the core uses |
| `Utf8` | `[]byte(s)` and `string(b)` |
| `Fnv` | `hash/fnv` New64a |
| `Decimal` | `strconv.Itoa`, `strconv.Atoi` |
| `Identity` | `src/repository/repository.go` |
| `Codec` | the cached values' byte form |
| `CacheStore` | the cache store |
| `ServiceAdapter` | the `repository.Service` interface |
| `CacheRules` | the key and decoding rules of both caches |
| `RepositoryCache` | `src/repository/cache.go` |
| `SingleTierCache` | `common-go/repository/cache.go` |
| `Tree` | `common-go/repository/tree.go` |
| `Documents` | `src/data/document.go` and the store's shared types |
| `DocumentStoreMock` | `src/data/datatest/mock.go` |
| `DatastoreDocuments` | `src/gcp/documentation_store.go` |
| `RepositoryFake` | `src/repository/repositorytest/mock.go` |
| `GitHub` | `src/github/github.go` |
| `GitHubPushEvent` | `src/github/push_event.go` |
| `GitHubReference` | `src/github/reference.go` |
| `GitHubRepository` | `src/github/repository.go` |
| `AppEngineFS` | `src/aefs/aefs.go` |
| `Urls` | `frontend/src/lib/urls.js` |

## Model

| member | source | states |
|---|---|---|
| Identity.Slug.Validate | src/repository/repository.go:31-45 | passes iff Saas is non-empty and equals the expected service and Owner and Name are non-empty; otherwise the first failing check's message, in the order Saas, expected Saas, Owner, Name |
| Identity.ID.Validate | src/repository/repository.go:73-87 | the same shape over Saas, OwnerID and ID, with each check's own message |
| Identity.Reference.Validate | src/repository/repository.go:133-144 | passes iff Type is exactly "branch" or "tag" and Name is non-empty; an empty type, an unknown type and an empty name each give their own message |
| Identity.DeployKey.Validate | src/repository/repository.go:181-186 | passes iff the key's ID is non-empty |
| Identity.Webhook.Validate | src/repository/repository.go:203-208 | passes iff the hook's ID is non-empty |
| Identity.ValidateSlug | src/repository/repository.go:23-28 | a nil slug is rejected with its own message; otherwise the slug's own validation decides |
| Identity.ValidateID | src/repository/repository.go:65-70 | a nil ID is rejected; otherwise the ID's own validation decides |
| Identity.ValidateReference | src/repository/repository.go:125-130 | a nil reference is rejected; otherwise the reference's own validation decides |
| Identity.ValidateDeployKey | src/repository/repository.go:173-178 | a nil deploy key is rejected; otherwise passes iff its ID is non-empty |
| Identity.ValidateWebhook | src/repository/repository.go:195-200 | a nil webhook is rejected; otherwise passes iff its ID is non-empty |
| Identity.Reference.IsBranch | src/repository/repository.go:156-158 | true iff the Type is "branch", and then the reference is not a tag |
| Identity.Reference.IsTag | src/repository/repository.go:162-164 | true iff the Type is "tag", and then the reference is not a branch |
| Identity.BranchXorTag | src/repository/repository.go:156-164 | a reference is never both a branch and a tag, and a valid one is exactly one of them |
| Identity.Slug.Hash | src/repository/repository.go:48-54 | the 64-bit FNV-1a sum of the UTF-8 bytes of Saas, Owner and Name written in turn |
| Identity.ID.Hash | src/repository/repository.go:90-96 | the FNV-1a sum of Saas, OwnerID and ID written in turn |
| Identity.Reference.Hash | src/repository/repository.go:147-152 | the FNV-1a sum of Type and Name written in turn |
| Identity.SlugHashIgnoresFieldBoundary | src/repository/repository.go:48-54 | slugs whose Owner and Name concatenate to the same text, within one Saas, hash equal |
| Identity.IDHashIgnoresFieldBoundary | src/repository/repository.go:90-96 | IDs whose fields concatenate to the same text hash equal |
| Identity.ReferenceHashIgnoresFieldBoundary | src/repository/repository.go:147-152 | references whose Type and Name concatenate to the same text hash equal |
| Identity.SlugHashCollision | src/repository/repository.go:48-54 | Owner "ab" with Name "c" and Owner "a" with Name "bc" are different slugs with the same hash |
| Fnv.FoldAppend | src/repository/repository.go:48-54 | hashing a + b continues from the state after hashing a |
| Fnv.WriteAllIsFoldOfConcat | src/repository/repository.go:48-54 | a sequence of Write calls hashes the concatenation of the chunks |
| Fnv.WriteStrings3 | src/repository/repository.go:48-54 | writing the encodings of three strings in turn hashes the encoding of their concatenation |
| Utf8.EncodeAppend | src/repository/repository.go:48-54 | the bytes of a + b are the bytes of a followed by those of b |
| Utf8.DecodeEncodeChar | src/repository/cache.go:444-451 | the bytes of one scalar value, followed by anything, decode back to it and consume exactly its own bytes |
| Utf8.DecodeEncode | src/repository/cache.go:444-451 | reading back the bytes of a string gives the string, which the cached user ID relies on |
| Decimal.AtoiOfIntToString | src/github/repository.go:73-84 | a decimal rendering of a 64-bit integer parses back to that integer |
| Decimal.NatToStringDigits | src/repository/cache.go:150-152 | the rendering of a natural number is a non-empty run of digits with no sign, and its digits denote the number |
| Decimal.IntToStringInjective | src/github/repository.go:33-52 | different integers have different decimal renderings |
| Codec.RepositoryRoundTrip | src/repository/cache.go:47-58 | a cached repository decodes back to itself |
| Codec.RepositoriesRoundTrip | src/repository/cache.go:60-71 | a cached repository list, nil included, decodes back to itself |
| Codec.ReferencesRoundTrip | src/repository/cache.go:73-84 | a references envelope decodes back to the same slug and list |
| Codec.CommitRoundTrip | src/repository/cache.go:86-97 | a commit envelope decodes back to the same slug, reference and commit ID |
| CacheStore.Lookup | src/repository/cache.go:115-131 | a read answers the stored item iff the key is present and its read does not fail; a failing read gives the store error, and an absent key gives the cache miss |
| CacheStore.Stored | src/repository/cache.go:133-148 | a write stores the item under its key and keeps every other entry, unless writes fail, in which case nothing changes |
| CacheStore.Store.Set | src/repository/cache.go:133-148 | the store's entries become those of a write of the item |
| ServiceAdapter.Service.ListReferences | src/repository/repository.go:221-242 | the oracle answers its fixed function of the slug and appends exactly one call to the log; the other oracle methods do the same for their own operation |
| CacheRules.HashText | src/repository/cache.go:150-152 | a hash rendered with %d is a non-empty digit string |
| CacheRules.UserIDKey | src/repository/cache.go:261 | the namespace followed by "/GetUserID" |
| CacheRules.RepositoryBySlugKey | src/repository/cache.go:281 | a key inside the namespace that ends in the %d rendering of the slug's hash |
| CacheRules.RepositoryByIDKey | src/repository/cache.go:304 | a key inside the namespace that ends in the %d rendering of the ID's hash |
| CacheRules.RepositoriesKey | src/repository/cache.go:327 | the namespace followed by "/ListRepositories" |
| CacheRules.BranchesKey | src/repository/cache.go:150-152 | a key inside the namespace that ends in the %d rendering of the slug's hash |
| CacheRules.TagsKey | src/repository/cache.go:164-166 | a key inside the namespace that ends in the %d rendering of the slug's hash |
| CacheRules.CommitIDKey | src/repository/cache.go:402 | a key inside the namespace that ends in "/" and the %d rendering of the reference's hash |
| CacheRules.HashTextInjective | src/repository/cache.go:150-152 | different hashes render differently |
| CacheRules.HashedKeysCollide | src/repository/cache.go:456-497 | two slugs, or two IDs, share a repository key exactly when their hashes are equal; the same holds for the branches and tags keys |
| CacheRules.CommitIDKeyCollides | src/repository/cache.go:602-621 | two lookups share a commit key exactly when both the slug hashes and the reference hashes are equal |
| CacheRules.KeysOfOperationsDiffer | src/repository/cache.go:444-511 | keys of different operations never coincide, whatever hashes they carry |
| CacheRules.ListKeysDifferFromGetKeys | src/repository/cache.go:150-166 | branches and tags keys never coincide with any get key or the user-ID key |
| CacheRules.RepositoryFromItem | src/repository/cache.go:47-58 | a nil item decodes to nothing |
| CacheRules.RepositoriesFromItem | src/repository/cache.go:60-71 | a nil item decodes to nothing |
| CacheRules.ReferencesFromItem | src/repository/cache.go:73-84 | a nil item decodes to nothing |
| CacheRules.CommitFromItem | src/repository/cache.go:86-97 | a nil item decodes to nothing |
| CacheRules.CachedUserID | src/repository/cache.go:444-451 | GetUserID trusts any item the store answers: there is a hit iff the read succeeds |
| CacheRules.CachedRepositoryBySlug | src/repository/cache.go:456-474 | a hit requires a successful read, and the cached repository carries exactly the slug asked for |
| CacheRules.CachedRepositoryByID | src/repository/cache.go:479-497 | a hit requires a successful read, and the cached repository carries exactly the ID asked for |
| CacheRules.CachedRepositories | src/repository/cache.go:502-511 | a hit requires a successful read of a non-nil list |
| CacheRules.RetrieveReferences | src/repository/cache.go:115-131 | a store error passes through; an undecodable envelope, or one with another slug, is a cache miss; a hit is exactly the envelope of the asked slug, an empty list included |
| CacheRules.CachedCommitID | src/repository/cache.go:602-621 | a hit is an envelope that carries exactly the slug and reference asked for |
| CacheRules.BranchesOf | src/repository/cache.go:99-113 | the branches of a list are branches drawn from it, no more of them than the list holds |
| CacheRules.TagsOf | src/repository/cache.go:99-113 | the tags of a list are tags drawn from it |
| CacheRules.BranchesOfAppend | src/repository/cache.go:99-113 | splitting a concatenation splits each part, in order |
| CacheRules.BranchesOfSnoc | src/repository/cache.go:103-111 | one more reference goes to the branches if it is a branch, to the tags if it is a tag, and nowhere otherwise |
| CacheRules.SeparationKeepsKnownTypes | src/repository/cache.go:99-113 | the split loses nothing exactly when every reference is a branch or a tag |
| CacheRules.SeparateUniform | src/repository/cache.go:99-113 | a list of branches splits into itself and no tags; a list of tags likewise |
| CacheRules.AfterUserID | src/repository/cache.go:252-267 | an error or a failing store leaves the entries unchanged; otherwise only the user-ID key changes |
| CacheRules.AfterRepository | src/repository/cache.go:272-313 | an error or a failing store leaves the entries unchanged; otherwise only the requested key changes |
| CacheRules.AfterRepositories | src/repository/cache.go:318-336 | an error or a failing store leaves the entries unchanged; otherwise only the list key changes |
| CacheRules.AfterCommitID | src/repository/cache.go:388-411 | an error or a failing store leaves the entries unchanged; otherwise only the commit key changes |
| CacheRules.UserIDWriteThenHit | src/repository/cache.go:252-267 | a stored user ID is read back exactly |
| CacheRules.RepositoryBySlugWriteThenHit | src/repository/cache.go:456-474 | a stored repository answers a slug exactly when it carries that slug |
| CacheRules.RepositoryByIDWriteThenHit | src/repository/cache.go:479-497 | a stored repository answers an ID exactly when it carries that ID |
| CacheRules.RepositoriesWriteThenHit | src/repository/cache.go:502-511 | a stored non-nil list is read back, and a stored nil list stays a miss |
| CacheRules.ReferencesWriteThenHit | src/repository/cache.go:115-148 | a stored envelope answers exactly the slug it was stored for, an empty list included |
| CacheRules.CommitIDWriteThenHit | src/repository/cache.go:602-621 | a stored commit ID answers exactly the slug and reference it was stored for |
| CacheRules.CollidingSlugIsMiss | src/repository/cache.go:456-474 | two colliding slugs share a key, yet the repository stored for one is not returned for the other |
| RepositoryCache.ReferencesItem | src/repository/cache.go:133-148 | the written item has the sub-cache key and the 24-hour expiration, and decodes to the slug's envelope of the list |
| RepositoryCache.AfterSubCache | src/repository/cache.go:358-383 | a hard error or a failing store leaves the entries unchanged; otherwise only the sub-cache key changes |
| RepositoryCache.AfterReferences | src/repository/cache.go:341-353 | a hard error or a failing store leaves the entries unchanged; otherwise only the branches and tags keys change |
| RepositoryCache.Tolerated | src/repository/cache.go:358-368 | a list operation returns nil and the error on a hard error, and otherwise the service's answer unchanged, ErrNotFound included |
| RepositoryCache.Merged | src/repository/cache.go:545-560 | a fetched list's hard error is returned alone; otherwise the result is branches followed by tags, with ErrNotFound dropped |
| RepositoryCache.NonEmpty | src/repository/cache.go:516-529 | the cache-first listing succeeds iff nothing failed and the list is non-empty; an empty list becomes ErrNotFound |
| RepositoryCache.NewServiceWithCacheBase | src/repository/cache.go:30-45 | construction fails iff the service or the store is absent, each with its own message; on success the namespace is "repository-service/<service name>/<key>", and the key may be empty |
| RepositoryCache.CacheBase.constructor | src/repository/cache.go:40-44 | the base holds the wrapped service, the store and the namespace it was built with |
| RepositoryCache.CacheBase.GetServiceName | src/repository/cache.go:179-181 | the wrapped service's name |
| RepositoryCache.CacheBase.SeparateReferences | src/repository/cache.go:99-113 | the loop returns the branches and the tags of the list, in order |
| RepositoryCache.CacheBase.RetrieveBranchesCache | src/repository/cache.go:154-157 | a failing read of the branches key is the store error, any other miss is the cache miss, and a hit is the list of an envelope under that key carrying exactly the asked slug |
| RepositoryCache.CacheBase.RetrieveTagsCache | src/repository/cache.go:168-171 | the same for the tags key |
| RepositoryCache.CacheBase.StoreBranchesCache | src/repository/cache.go:154-162 | writes the slug's envelope of the branches under the branches key |
| RepositoryCache.CacheBase.StoreTagsCache | src/repository/cache.go:168-176 | writes the slug's envelope of the tags under the tags key |
| RepositoryCache.CacheBase.RegisterDeployKey | src/repository/cache.go:185-188 | forwards to the service unchanged, makes exactly that one call, and leaves the store alone |
| RepositoryCache.CacheBase.UnregisterDeployKey | src/repository/cache.go:192-195 | forwards verbatim and leaves the store alone |
| RepositoryCache.CacheBase.ExistsDeployKey | src/repository/cache.go:200-203 | forwards verbatim and leaves the store alone |
| RepositoryCache.CacheBase.RegisterWebhook | src/repository/cache.go:207-210 | forwards verbatim and leaves the store alone |
| RepositoryCache.CacheBase.UnregisterWebhook | src/repository/cache.go:214-217 | forwards verbatim and leaves the store alone |
| RepositoryCache.CacheBase.ExistsWebhook | src/repository/cache.go:222-225 | forwards verbatim and leaves the store alone |
| RepositoryCache.NewServiceWithLatest | src/repository/cache.go:236-247 | the same construction rules as the base |
| RepositoryCache.ServiceWithLatest.GetUserID | src/repository/cache.go:252-267 | returns the service's answer after exactly one call, and stores it under the user-ID key only on success |
| RepositoryCache.ServiceWithLatest.GetRepositoryBySlug | src/repository/cache.go:272-290 | returns the service's answer after exactly one call, and stores it under the slug's key only on success |
| RepositoryCache.ServiceWithLatest.GetRepositoryByID | src/repository/cache.go:295-313 | the same, under the ID's key |
| RepositoryCache.ServiceWithLatest.ListRepositories | src/repository/cache.go:318-336 | the same, under the list key |
| RepositoryCache.ServiceWithLatest.ListReferences | src/repository/cache.go:341-353 | one call; both sub-caches are written with the split lists, even on ErrNotFound; ErrNotFound is still returned |
| RepositoryCache.ServiceWithLatest.ListBranches | src/repository/cache.go:358-368 | one call; the branches sub-cache is written unless the error is a hard one |
| RepositoryCache.ServiceWithLatest.ListTags | src/repository/cache.go:373-383 | one call; the tags sub-cache is written unless the error is a hard one |
| RepositoryCache.ServiceWithLatest.GetCommitID | src/repository/cache.go:388-411 | one call; on success the slug and reference envelope is stored under the commit key |
| RepositoryCache.NewServiceWithCache | src/repository/cache.go:421-433 | the same construction rules; the result shares its store with its latest counterpart |
| RepositoryCache.ServiceWithCache.Latest | src/repository/cache.go:437-439 | the latest counterpart shares this cache's base |
| RepositoryCache.ServiceWithCache.GetUserID | src/repository/cache.go:444-451 | any hit is returned with no call and no write; a miss goes to latest |
| RepositoryCache.ServiceWithCache.GetRepositoryBySlug | src/repository/cache.go:456-474 | a hit that passes the guard is returned with no call and no write; a nil slug or any other case goes to latest, which rewrites the entry |
| RepositoryCache.ServiceWithCache.GetRepositoryByID | src/repository/cache.go:479-497 | the same for IDs |
| RepositoryCache.ServiceWithCache.ListRepositories | src/repository/cache.go:502-511 | a non-nil cached list is returned with no call; otherwise latest |
| RepositoryCache.ServiceWithCache.CollectReferences | src/repository/cache.go:531-567 | both sub-caches hit: branches then tags with no call; only branches hit: exactly one ListTags call; only tags hit: exactly one ListBranches call; both miss: one ListReferences call; a sub-cache read that fails, store errors included, counts as a miss; a hard error of the fetch is returned alone, and the store then changes only as that fetch writes |
| RepositoryCache.ServiceWithCache.ListReferences | src/repository/cache.go:516-529 | a nil slug goes to latest with no write; otherwise, in each of the four sub-cache cases, the result is the merged (or fetched) listing passed through NonEmpty, so an empty listing is ErrNotFound and a hard fetch error is returned; each case states the single call made, or none when both sub-caches hit, and the store afterwards |
| RepositoryCache.ServiceWithCache.ListBranches | src/repository/cache.go:572-582 | a sub-cache hit is returned with no call; otherwise latest's ListBranches |
| RepositoryCache.ServiceWithCache.ListTags | src/repository/cache.go:587-597 | a sub-cache hit is returned with no call; otherwise latest's ListTags |
| RepositoryCache.ServiceWithCache.GetCommitID | src/repository/cache.go:602-621 | a hit whose envelope carries the slug and reference is returned with no call; otherwise latest |
| RepositoryCache.SubCacheRefreshThenHit | src/repository/cache.go:358-383 | after a refresh the sub-cache answers its slug with the listed references, an empty list included |
| RepositoryCache.ReferencesRefreshThenHit | src/repository/cache.go:341-353 | after latest's ListReferences both sub-caches answer the slug with the branches and the tags of the listing |
| RepositoryCache.NotFoundIsRecorded | src/repository/cache.go:341-353 | ErrNotFound still writes two empty sub-caches, which then read back as empty lists, so the next cache-first listing takes its both-hit case |
| RepositoryCache.MergedNotFound | src/repository/cache.go:516-560 | the cache-first listing answers ErrNotFound iff no hard error occurred and neither the cached nor the fetched side has a reference; a hard error is returned alone |
| SingleTierCache.NewServiceWithCache | common-go/repository/cache.go:29-44 | construction fails iff the service or the store is absent; the namespace is built the same way |
| SingleTierCache.ServiceWithCache.constructor | common-go/repository/cache.go:29-44 | the cache holds the wrapped service, the store and the namespace it was built with |
| SingleTierCache.ServiceWithCache.GetServiceName | common-go/repository/cache.go:86-88 | the wrapped service's name |
| SingleTierCache.ServiceWithCache.GetUserID | common-go/repository/cache.go:91-111 | a hit is returned with no call; a miss calls the service once and writes a success under the same key |
| SingleTierCache.ServiceWithCache.GetRepositoryBySlug | common-go/repository/cache.go:114-148 | a nil slug goes to the service with no write; a hit whose slug equals the request is returned with no call; otherwise one call, and a success is written under the key the read used |
| SingleTierCache.ServiceWithCache.GetRepositoryByID | common-go/repository/cache.go:151-185 | the same for IDs |
| SingleTierCache.ServiceWithCache.ListRepositories | common-go/repository/cache.go:188-214 | a non-nil cached list is returned with no call; otherwise one call, and a success is written |
| SingleTierCache.ServiceWithCache.GetCommitID | common-go/repository/cache.go:217-257 | a nil slug or reference goes to the service; a hit whose envelope carries both is returned; otherwise one call, and a success is written |
| SingleTierCache.ServiceWithCache.StoreRepository | common-go/repository/cache.go:131-147 | the write on the miss path: only a success is stored, under the read's key |
| SingleTierCache.ServiceWithCache.StoreRepositories | common-go/repository/cache.go:201-213 | the list write on the miss path |
| SingleTierCache.ServiceWithCache.StoreCommitID | common-go/repository/cache.go:235-256 | the envelope write on the miss path |
| SingleTierCache.ServiceWithCache.RegisterDeployKey | common-go/repository/cache.go:260-263 | forwards verbatim and leaves the store alone |
| SingleTierCache.ServiceWithCache.UnregisterDeployKey | common-go/repository/cache.go:266-269 | forwards verbatim and leaves the store alone |
| SingleTierCache.ServiceWithCache.ExistsDeployKey | common-go/repository/cache.go:273-276 | forwards verbatim and leaves the store alone |
| SingleTierCache.ServiceWithCache.RegisterWebhook | common-go/repository/cache.go:279-282 | forwards verbatim and leaves the store alone |
| SingleTierCache.ServiceWithCache.UnregisterWebhook | common-go/repository/cache.go:285-288 | forwards verbatim and leaves the store alone |
| SingleTierCache.ServiceWithCache.ExistsWebhook | common-go/repository/cache.go:292-295 | forwards verbatim and leaves the store alone |
| Tree.SlugGet | common-go/repository/tree.go:19-40 | a slug's datum exists iff the slug is non-nil and all three levels are present, and it is the leaf there |
| Tree.SlugGetAfterPut | common-go/repository/tree.go:43-61 | after a put the slug reads its datum, and every other slug reads what it read before |
| Tree.SlugPutNotEmpty | common-go/repository/tree.go:43-61 | after a put the tree is not empty |
| Tree.SlugGetAfterPutAll | common-go/repository/tree.go:64-68 | after PutDataMulti exactly the listed slugs carry the datum, and every other slug keeps its own |
| Tree.SlugTree.constructor | common-go/repository/tree.go:19-40 | a new tree holds no slug |
| Tree.SlugTree.PutData | common-go/repository/tree.go:43-61 | a nil slug changes nothing; otherwise the tree becomes the put tree |
| Tree.SlugTree.PutDataMulti | common-go/repository/tree.go:64-68 | the tree becomes that of PutData over the list in order, nils skipped |
| Tree.SlugTree.GetData | common-go/repository/tree.go:19-40 | a datum iff the slug is non-nil and its SaaS, owner and name levels are all present, and then the stored one |
| Tree.SlugTree.Empty | common-go/repository/tree.go:72-74 | true iff the top level has no keys |
| Tree.ReferenceGet | common-go/repository/tree.go:89-105 | a reference's datum exists iff the reference is non-nil and both levels are present |
| Tree.ReferenceGetAfterPut | common-go/repository/tree.go:108-120 | after a put the reference reads its datum, and every other reference reads what it read before |
| Tree.ReferencePutNotEmpty | common-go/repository/tree.go:108-120 | after a put the tree is not empty |
| Tree.ReferenceGetAfterPutAll | common-go/repository/tree.go:123-127 | after PutDataMulti exactly the listed references carry the datum |
| Tree.ReferenceTree.constructor | common-go/repository/tree.go:89-105 | a new tree holds no reference |
| Tree.ReferenceTree.PutData | common-go/repository/tree.go:108-120 | a nil reference changes nothing; otherwise the tree becomes the put tree |
| Tree.ReferenceTree.PutDataMulti | common-go/repository/tree.go:123-127 | PutData over the list in order, nils skipped |
| Tree.ReferenceTree.GetData | common-go/repository/tree.go:89-105 | a datum iff the reference is non-nil and its type and name levels are present, and then the stored one |
| Tree.ReferenceTree.Empty | common-go/repository/tree.go:131-133 | true iff the top level has no keys |
| Documents.MakeDocumentMapFromDocuments | src/data/document.go:21-29 | the loop builds the map in which each document in turn overwrites its type |
| Documents.DocumentMapKeys | src/data/document.go:21-29 | the keys are exactly the types in the list, so an empty list gives an empty map |
| Documents.DocumentMapLastWins | src/data/document.go:21-29 | each type maps to the commit ID of the last document of that type |
| Documents.DocumentMapAgrees | src/data/document.go:21-29 | when every document agrees with a map, so does the built map |
| Documents.ListDocuments | src/data/document.go:32-43 | one document per entry, each agreeing with the map, no type twice |
| Documents.ListThenMakeIsIdentity | src/data/document.go:21-43 | building a map from the list of a map gives back the map |
| DocumentStoreMock.ResultAt | src/data/datatest/mock.go:82-101 | a nil target is refused; a target's result is found iff both levels hold it; otherwise ErrNoSuchTarget |
| DocumentStoreMock.ResultsWith | src/data/datatest/mock.go:124-144 | the target then reads the entity, and every other target reads what it read before |
| DocumentStoreMock.ResultsWithout | src/data/datatest/mock.go:146-167 | the target then has no result, every other target is unchanged, and an absent target changes nothing |
| DocumentStoreMock.StatusAt | src/data/datatest/mock.go:169-193 | a status is found iff its target and sequence ID are present; otherwise ErrNoSuchStatus |
| DocumentStoreMock.StatusesIn | src/data/datatest/mock.go:195-219 | the listed statuses are exactly those found under the target |
| DocumentStoreMock.StatusesWith | src/data/datatest/mock.go:221-247 | the status is then found under its own sequence ID, and every other (target, sequence ID) is unchanged |
| DocumentStoreMock.StatusesWithout | src/data/datatest/mock.go:249-275 | the sequence ID then has no status, and everything else is unchanged |
| DocumentStoreMock.StatusesClearedRemovesTarget | src/data/datatest/mock.go:443-463 | after DeleteTarget the target has no statuses, and every other target's statuses are unchanged |
| DocumentStoreMock.DeletionAt | src/data/datatest/mock.go:277-296 | a mark is found iff both levels hold it |
| DocumentStoreMock.DeletionsWith | src/data/datatest/mock.go:298-318 | the target is then marked with the time, and other targets are unchanged |
| DocumentStoreMock.DeletionsWithout | src/data/datatest/mock.go:320-341 | the target is then unmarked, others are unchanged, and an unmarked target changes nothing |
| DocumentStoreMock.WithDocumentSetsOnlyItsType | src/data/datatest/mock.go:585-605 | PutDocument sets its type to its commit ID and leaves every other type unchanged; a nil map becomes a one-entry map |
| DocumentStoreMock.StatusesWithKeepsKeying | src/data/datatest/mock.go:221-247 | every status stays filed under its own sequence ID |
| DocumentStoreMock.UpdateKeepsRequestedAt | src/data/datatest/mock.go:656-674 | an update keeps the sequence ID and RequestedAt, and takes CommitID, TaskID, Status and UpdatedAt from the request and the clock |
| DocumentStoreMock.FilterByStatus | src/data/datatest/mock.go:719-723 | the list holds exactly the statuses whose Status equals the query, one per sequence ID |
| DocumentStoreMock.CloneResult | src/data/datatest/mock.go:16-22 | the clone equals the original |
| DocumentStoreMock.DocumentationStorage.constructor | src/data/datatest/mock.go:59-65 | a new storage has no results, statuses or deletion marks |
| DocumentStoreMock.DocumentationStorage.GetResultEntity | src/data/datatest/mock.go:82-101 | answers the stored result of the target, with nil and missing targets refused |
| DocumentStoreMock.DocumentationStorage.ListResultEntitiesInRepository | src/data/datatest/mock.go:103-122 | a zero repository ID is refused; otherwise the repository's results, none when absent |
| DocumentStoreMock.DocumentationStorage.PutResultEntity | src/data/datatest/mock.go:124-144 | a nil target or entity is refused and nothing changes; otherwise only that target's result is set |
| DocumentStoreMock.DocumentationStorage.DeleteResultEntity | src/data/datatest/mock.go:146-167 | only that target's result is removed |
| DocumentStoreMock.DocumentationStorage.GetStatusEntity | src/data/datatest/mock.go:169-193 | answers the stored status |
| DocumentStoreMock.DocumentationStorage.ListStatusEntitiesInTarget | src/data/datatest/mock.go:195-219 | answers the target's statuses |
| DocumentStoreMock.DocumentationStorage.PutStatusEntity | src/data/datatest/mock.go:221-247 | a nil target or entity is refused; otherwise only that status is set |
| DocumentStoreMock.DocumentationStorage.DeleteStatusEntity | src/data/datatest/mock.go:249-275 | only that status is removed |
| DocumentStoreMock.DocumentationStorage.GetDeletingTargetEntity | src/data/datatest/mock.go:277-296 | answers the mark's time |
| DocumentStoreMock.DocumentationStorage.PutDeletingTargetEntity | src/data/datatest/mock.go:298-318 | a nil target or time is refused; otherwise only that mark is set |
| DocumentStoreMock.DocumentationStorage.DeleteDeletingTargetEntity | src/data/datatest/mock.go:320-341 | only that mark is removed |
| DocumentStoreMock.DocumentationStorage.Clear | src/data/datatest/mock.go:73-80 | all three maps become empty |
| DocumentStoreMock.DocumentationStore.constructor | src/data/datatest/mock.go:383-408 | the store works on the storage it is given |
| DocumentStoreMock.DocumentationStore.CreateTarget | src/data/datatest/mock.go:422-435 | an existing target gives ErrTargetAlreadyExists and nothing changes; otherwise an empty result is stored, so the target then exists |
| DocumentStoreMock.DocumentationStore.DeleteTarget | src/data/datatest/mock.go:443-463 | removes the result and every status of the target and touches nothing else; an absent target is a no-op |
| DocumentStoreMock.DocumentationStore.ExistsTarget | src/data/datatest/mock.go:472-481 | true iff the target has a result |
| DocumentStoreMock.DocumentationStore.CountTargetsInRepository | src/data/datatest/mock.go:489-496 | the number of the repository's targets; a zero ID is refused |
| DocumentStoreMock.DocumentationStore.MarkDeletingTarget | src/data/datatest/mock.go:504-508 | the target is then marked with now, and nothing else changes |
| DocumentStoreMock.DocumentationStore.UnmarkDeletingTarget | src/data/datatest/mock.go:516-518 | the target is then unmarked; unmarking an unmarked target changes nothing |
| DocumentStoreMock.DocumentationStore.IsDeletingTarget | src/data/datatest/mock.go:526-536 | true iff the target is marked; a nil target is refused |
| DocumentStoreMock.DocumentationStore.GetResult | src/data/datatest/mock.go:544-551 | answers the stored result |
| DocumentStoreMock.DocumentationStore.GetResultMulti | src/data/datatest/mock.go:559-577 | any nil target fails the batch; otherwise the results of exactly the listed targets that exist |
| DocumentStoreMock.DocumentationStore.PutDocument | src/data/datatest/mock.go:585-605 | a missing target gives ErrNoSuchTarget and a nil document an error, with nothing changed; otherwise Documents[type] is set to the commit ID |
| DocumentStoreMock.DocumentationStore.CreateStatus | src/data/datatest/mock.go:613-633 | a taken sequence ID gives ErrStatusAlreadyExists; a new status is stored with RequestedAt equal to UpdatedAt equal to now |
| DocumentStoreMock.DocumentationStore.GetStatus | src/data/datatest/mock.go:641-648 | answers the stored status |
| DocumentStoreMock.DocumentationStore.UpdateStatus | src/data/datatest/mock.go:656-674 | an absent status gives ErrNoSuchStatus; otherwise CommitID, TaskID, Status and UpdatedAt are overwritten and RequestedAt and the sequence ID kept |
| DocumentStoreMock.DocumentationStore.UpdateStatusWithCondition | src/data/datatest/mock.go:683-704 | a stored Status other than prevStatus gives ErrUnsatisfiedStatusCondition and changes nothing; otherwise as UpdateStatus |
| DocumentStoreMock.DocumentationStore.QueryStatus | src/data/datatest/mock.go:712-726 | exactly the target's statuses whose Status equals the query, one per sequence ID |
| DatastoreDocuments.RootKey | src/gcp/documentation_store.go:97-99 | one element of kind Documentation named "root" with no parent |
| DatastoreDocuments.RepositoryIDKey | src/gcp/documentation_store.go:101-104 | the root key with one child numbered by the repository ID |
| DatastoreDocuments.ReferenceTypeKey | src/gcp/documentation_store.go:106-112 | fails iff the reference is nil |
| DatastoreDocuments.DocumentationTargetKey | src/gcp/documentation_store.go:114-124 | fails iff the target is nil; otherwise a four-element path ending in (kind, reference name) |
| DatastoreDocuments.TargetKeyPath | src/gcp/documentation_store.go:97-124 | the target key is root, repository ID, reference type, then (kind, reference name) |
| DatastoreDocuments.TargetKeyInjective | src/gcp/documentation_store.go:114-124 | two targets share a key of one kind only if they are the same target |
| DatastoreDocuments.DocumentationStatusKey | src/gcp/documentation_store.go:126-140 | fails iff the target or status is nil or the sequence ID is zero; otherwise a five-element key ending in the status kind numbered by the sequence ID |
| DatastoreDocuments.StatusKeyIsChildOfTarget | src/gcp/documentation_store.go:126-140 | a status key is the target's status key with the sequence ID appended |
| DatastoreDocuments.StatusKeyErrors | src/gcp/documentation_store.go:126-140 | the status key fails on a nil target, then a nil status, then a zero sequence ID, and on nothing else |
| DatastoreDocuments.StatusKeyInjective | src/gcp/documentation_store.go:126-140 | equal status keys mean the same target and sequence ID |
| DatastoreDocuments.CommitIDKey | src/gcp/documentation_store.go:177-188 | fails iff the target is nil or the commit ID is empty; otherwise the target's key of that kind with one child named by the commit ID |
| DatastoreDocuments.CommitIDKeyErrors | src/gcp/documentation_store.go:177-188 | the commit key fails on a nil target, then an empty commit ID |
| DatastoreDocuments.DeletingTargetKey | src/gcp/documentation_store.go:190-200 | fails iff the target is nil |
| DatastoreDocuments.KindsSeparateKeys | src/gcp/documentation_store.go:114-200 | a target's result key, status key and deleting key never coincide |
| DatastoreDocuments.ToDocumentationStatus | src/gcp/documentation_store.go:72-80 | the status takes its sequence ID from the key and converts back to the same entity |
| DatastoreDocuments.NewDocumentationResultEntity | src/gcp/documentation_store.go:27-37 | a nil result is refused; a nil map lists nothing; otherwise the list names each entry once |
| DatastoreDocuments.ToDocumentationResult | src/gcp/documentation_store.go:39-43 | the result's map is that of the list |
| DatastoreDocuments.ResultEntityRoundTrip | src/gcp/documentation_store.go:27-43 | a result converted to an entity and back is the same result, except that a nil map comes back empty |
| DatastoreDocuments.FirstIndexOfType | src/gcp/documentation_store.go:50-56 | the first index holding the type, or none when no entry has it |
| DatastoreDocuments.DocumentsPut | src/gcp/documentation_store.go:45-62 | the list grows by at most one, and holds only the new document and documents it already had |
| DatastoreDocuments.DocumentsPutShape | src/gcp/documentation_store.go:45-62 | putDocument replaces the first entry of the type in place, keeping the length and the other entries, or appends when none has it |
| DatastoreDocuments.DocumentsPutUpdatesMap | src/gcp/documentation_store.go:45-62 | on a list without repeated types, the list stays so and its map gets a single update |
| DatastoreDocuments.DistinctListsItsMap | src/gcp/documentation_store.go:39-43 | a list without repeated types lists its own map |
| DatastoreDocuments.DocumentationResultEntity.PutDocument | src/gcp/documentation_store.go:45-62 | a nil document is refused and the list is unchanged; otherwise the list becomes the put list |
| DatastoreDocuments.Fetch | src/gcp/documentation_store.go:259-267 | the shared model of every datastore Get of the store (this cite is the one in ExistsTarget): it answers the entity, ErrNoSuchEntity for a missing key, or its own failure |
| DatastoreDocuments.Mark | src/gcp/documentation_store.go:289-311 | the intended rule: a failed Get is reported and nothing is written; an existing mark is kept; otherwise the target is marked |
| DatastoreDocuments.MarkAsWritten | src/gcp/documentation_store.go:289-311 | as written: always reports success; a failed Get writes nothing; otherwise it agrees with the intended rule |
| DatastoreDocuments.MarkAsWrittenLosesMark | src/gcp/documentation_store.go:296-300 | as written, a failed Get is reported as success though no mark exists |
| DatastoreDocuments.MarkKeepsFirstRequest | src/gcp/documentation_store.go:296-300 | marking an already marked target keeps the first RequestedAt |
| DatastoreDocuments.Refreshed | src/gcp/documentation_store.go:504-533 | the updated entity keeps RequestedAt and takes UpdatedAt from the clock |
| DatastoreDocuments.DocumentationStore.CreateTarget | src/gcp/documentation_store.go:204-222 | an existing target is refused; otherwise an empty result entity is stored; nothing else changes |
| DatastoreDocuments.DocumentationStore.ExistsTarget | src/gcp/documentation_store.go:253-268 | true iff the result entity exists, with a failed Get reported |
| DatastoreDocuments.DocumentationStore.GetResult | src/gcp/documentation_store.go:342-358 | the stored entity as a result; a missing one gives ErrNoSuchTarget |
| DatastoreDocuments.DocumentationStore.PutDocument | src/gcp/documentation_store.go:394-417 | a missing target gives ErrNoSuchTarget; otherwise the entity's list is updated by putDocument |
| DatastoreDocuments.DocumentationStore.CreateStatus | src/gcp/documentation_store.go:420-448 | key errors are reported; an existing status is refused; a new one has RequestedAt equal to UpdatedAt equal to now |
| DatastoreDocuments.DocumentationStore.GetStatus | src/gcp/documentation_store.go:451-469 | the stored status with the sequence ID from the key; a missing one gives ErrNoSuchStatus |
| DatastoreDocuments.DocumentationStore.UpdateStatusIf | src/gcp/documentation_store.go:504-533 | a missing status gives ErrNoSuchStatus; a failed condition gives ErrUnsatisfiedStatusCondition with nothing changed; otherwise the entity is refreshed |
| DatastoreDocuments.DocumentationStore.UpdateStatus | src/gcp/documentation_store.go:487-491 | the unconditional update |
| DatastoreDocuments.DocumentationStore.UpdateStatusWithCondition | src/gcp/documentation_store.go:495-502 | the update conditioned on the stored Status equalling prevStatus |
| DatastoreDocuments.DocumentationStore.MarkDeletingTarget | src/gcp/documentation_store.go:289-311 | a nil target is refused; otherwise the marks follow the intended Mark rule |
| DatastoreDocuments.DocumentationStore.UnmarkDeletingTarget | src/gcp/documentation_store.go:314-321 | the mark is removed; a nil target is refused |
| DatastoreDocuments.DocumentationStore.IsDeletingTarget | src/gcp/documentation_store.go:324-339 | true iff the mark exists, with a failed Get reported |
| RepositoryFake.NextIDIsFresh | src/repository/repositorytest/mock.go:228-238 | the decimal rendering of the next counter value was never handed out before |
| RepositoryFake.IssuedBeforeGrows | src/repository/repositorytest/mock.go:228-238 | an issued ID stays issued as the counter grows |
| RepositoryFake.KeysOf | src/repository/repositorytest/mock.go:170-179 | the names are exactly the map's keys, each once |
| RepositoryFake.CopyOf | src/repository/repositorytest/mock.go:182-191 | the copy has the same entries |
| RepositoryFake.NamedReferences | src/repository/repositorytest/mock.go:647-652 | one reference of the type per name, in order |
| RepositoryFake.NamedListsKeys | src/repository/repositorytest/mock.go:636-657 | references built from a key listing are exactly the keys as references of the type |
| RepositoryFake.VirtualRepository.constructor | src/repository/repositorytest/mock.go:26-36 | a new repository has no users, references, keys or hooks, and its counter at zero |
| RepositoryFake.VirtualRepository.IsUser | src/repository/repositorytest/mock.go:71-77 | true iff the user is registered, administrator or not |
| RepositoryFake.VirtualRepository.IsAdminUser | src/repository/repositorytest/mock.go:81-86 | true iff the user is registered with the administrator flag, so every administrator is a user |
| RepositoryFake.VirtualRepository.Detail | src/repository/repositorytest/mock.go:51-59 | the repository's slug and ID, with Admin true iff the user is registered as an administrator |
| RepositoryFake.VirtualRepository.RegisterUser | src/repository/repositorytest/mock.go:62-67 | sets the user's administrator flag and nothing else |
| RepositoryFake.VirtualRepository.RegisterBranch | src/repository/repositorytest/mock.go:162-167 | sets or overwrites the branch's commit ID and nothing else |
| RepositoryFake.VirtualRepository.RegisterTag | src/repository/repositorytest/mock.go:196-201 | sets or overwrites the tag's commit ID and nothing else |
| RepositoryFake.VirtualRepository.RegisterReference | src/repository/repositorytest/mock.go:91-100 | dispatches on the type; a nil reference or another type changes nothing |
| RepositoryFake.VirtualRepository.Branches | src/repository/repositorytest/mock.go:170-179 | every branch name once |
| RepositoryFake.VirtualRepository.Tags | src/repository/repositorytest/mock.go:204-213 | every tag name once |
| RepositoryFake.VirtualRepository.BranchCommitIDs | src/repository/repositorytest/mock.go:182-191 | a copy of the branch map |
| RepositoryFake.VirtualRepository.TagCommitIDs | src/repository/repositorytest/mock.go:216-225 | a copy of the tag map |
| RepositoryFake.VirtualRepository.References | src/repository/repositorytest/mock.go:103-121 | every branch and then every tag, each once |
| RepositoryFake.VirtualRepository.HasReference | src/repository/repositorytest/mock.go:125-134 | true iff the reference is a registered branch or tag |
| RepositoryFake.VirtualRepository.ReferenceCommitIDs | src/repository/repositorytest/mock.go:137-157 | each branch and tag as a reference with its commit ID, and nothing else |
| RepositoryFake.VirtualRepository.NewDeployKey | src/repository/repositorytest/mock.go:228-238 | the counter moves by one and the key gets its decimal ID, which no key or hook had |
| RepositoryFake.VirtualRepository.NewWebhook | src/repository/repositorytest/mock.go:265-275 | the webhook draws from the same counter as the keys, so its ID is fresh too |
| RepositoryFake.VirtualRepository.FreshAfter | src/repository/repositorytest/mock.go:228-275 | before the counter moves, the next ID is unused and every stored ID stays issued |
| RepositoryFake.VirtualRepository.DeleteDeployKey | src/repository/repositorytest/mock.go:241-251 | removes the key by its ID; a nil key is a no-op |
| RepositoryFake.VirtualRepository.DeleteWebhook | src/repository/repositorytest/mock.go:278-288 | removes the hook by its ID; a nil hook is a no-op |
| RepositoryFake.VirtualRepository.DeployKeyByID | src/repository/repositorytest/mock.go:254-262 | found iff stored, and then it carries that ID |
| RepositoryFake.VirtualRepository.WebhookByID | src/repository/repositorytest/mock.go:291-299 | found iff stored, and then it carries that ID |
| RepositoryFake.RepositoryStore.constructor | src/repository/repositorytest/mock.go:315-319 | a new store holds no repositories |
| RepositoryFake.RepositoryStore.Clear | src/repository/repositorytest/mock.go:327-332 | no repositories remain |
| RepositoryFake.RepositoryStore.RegisterRepository | src/repository/repositorytest/mock.go:337-344 | files the repository under its slug, replacing any other; nil changes nothing |
| RepositoryFake.RepositoryStore.UnregisterRepository | src/repository/repositorytest/mock.go:347-354 | removes the slug; nil changes nothing |
| RepositoryFake.RepositoryStore.RepositoryBySlug | src/repository/repositorytest/mock.go:357-366 | found iff the slug is non-nil and registered |
| RepositoryFake.RepositoryStore.RepositoryByID | src/repository/repositorytest/mock.go:369-384 | some repository with that ID when one exists, and none otherwise |
| RepositoryFake.Service.constructor | src/repository/repositorytest/mock.go:442-470 | the service starts with the given user and works on the given store |
| RepositoryFake.Service.GetServiceName | src/repository/repositorytest/mock.go:505-512 | the default delegate's service name, "mock" |
| RepositoryFake.Service.GetUserID | src/repository/repositorytest/mock.go:520-525 | always succeeds, with the user set last |
| RepositoryFake.Service.SetUserID | src/repository/repositorytest/mock.go:528-533 | sets the authenticated user |
| RepositoryFake.Service.UserRepositoryBySlug | src/repository/repositorytest/mock.go:472-478 | found iff the slug is registered and the user is one of its users |
| RepositoryFake.Service.GetRepositoryBySlug | src/repository/repositorytest/mock.go:541-558 | the slug is validated first; an unregistered repository or a non-member gives ErrNotFound; otherwise the user's view |
| RepositoryFake.Service.GetRepositoryByID | src/repository/repositorytest/mock.go:566-583 | the ID is validated first; a success is the view of a repository with that ID that the user belongs to; ErrNotFound when none lets the user in |
| RepositoryFake.Service.ListRepositories | src/repository/repositorytest/mock.go:591-605 | the user's view of exactly the repositories the user belongs to, each listed once |
| RepositoryFake.Service.ListReferences | src/repository/repositorytest/mock.go:613-628 | validated first; an inaccessible repository lists nothing without error; otherwise branches then tags, and ErrNotFound when there are none |
| RepositoryFake.Service.ListBranches | src/repository/repositorytest/mock.go:636-657 | the same for branches |
| RepositoryFake.Service.ListTags | src/repository/repositorytest/mock.go:665-686 | the same for tags |
| RepositoryFake.Service.GetCommitID | src/repository/repositorytest/mock.go:694-719 | slug then reference validated; the commit is looked up in the map of the reference's own type, and an absent name is an error |
| RepositoryFake.Service.RegisterDeployKey | src/repository/repositorytest/mock.go:727-738 | a new key on an accessible repository, numbered by its counter; its webhooks, users, branches and tags are unchanged; ErrNotFound otherwise; no other repository changes |
| RepositoryFake.Service.UnregisterDeployKey | src/repository/repositorytest/mock.go:746-760 | slug and key validated; the key is removed from an accessible repository, whose counter, webhooks, users, branches and tags are unchanged; ErrNotFound otherwise; no other repository changes |
| RepositoryFake.Service.ExistsDeployKey | src/repository/repositorytest/mock.go:769-783 | slug and key validated; true iff the accessible repository holds the key |
| RepositoryFake.Service.RegisterWebhook | src/repository/repositorytest/mock.go:791-802 | a new hook on an accessible repository, numbered from the key counter; its deploy keys, users, branches and tags are unchanged; ErrNotFound otherwise; no other repository changes |
| RepositoryFake.Service.UnregisterWebhook | src/repository/repositorytest/mock.go:810-824 | slug and hook validated; the hook is removed from an accessible repository, whose counter, deploy keys, users, branches and tags are unchanged; ErrNotFound otherwise; no other repository changes |
| RepositoryFake.Service.ExistsWebhook | src/repository/repositorytest/mock.go:833-847 | true iff the accessible repository holds the hook |
| GitHub.TranslateErrorResponse | src/github/github.go:45-53 | a 404 response becomes ErrNotFound, and any other failure keeps its error |
| GitHubPushEvent.IsDeleteEvent | src/github/push_event.go:47-49 | a deletion iff Deleted is present and true; an absent flag is no deletion |
| GitHubPushEvent.ToRepositoryID | src/github/push_event.go:66-78 | Saas is always set; ID and OwnerID are non-empty iff the repository ID and the organization ID are present |
| GitHubPushEvent.IDsAreDecimal | src/github/push_event.go:66-78 | the IDs parse back to the payload's numbers |
| GitHubPushEvent.ToRepositorySlug | src/github/push_event.go:80-93 | Saas is always set; Owner or Name is set only when the full name splits into exactly two parts |
| GitHubPushEvent.SlugOfFullName | src/github/push_event.go:80-93 | "owner/name" with slash-free parts sets both fields |
| GitHubPushEvent.SlugOfBareName | src/github/push_event.go:80-93 | a full name without "/" leaves Owner and Name empty |
| GitHubPushEvent.ToRepositoryReference | src/github/push_event.go:95-111 | a branch, a tag or the empty reference, and a non-empty one only for a ref of exactly three parts |
| GitHubPushEvent.ReferenceOfRefPath | src/github/push_event.go:98-108 | "refs/heads/X" gives branch X, and "refs/K/X" for any other kind K gives tag X |
| GitHubPushEvent.NestedBranchIsEmptyReference | src/github/push_event.go:99-100 | a branch name containing "/" gives the empty reference |
| GitHubPushEvent.ToRepositoryPushEvent | src/github/push_event.go:52-64 | the commit ID is After when present and empty otherwise; the other fields are the three translations |
| GitHubReference.BranchFromGitReference | src/github/reference.go:42-50 | a branch iff Ref is present and starts with "refs/heads/", named by the rest |
| GitHubReference.TagFromGitReference | src/github/reference.go:52-60 | a tag iff Ref is present and starts with "refs/tags/", named by the rest |
| GitHubReference.FromGitReferenceRoundTrip | src/github/reference.go:42-60 | a branch or tag name put behind its prefix is read back as that branch or tag |
| GitHubReference.NeverBranchAndTag | src/github/reference.go:42-60 | no ref is read both as a branch and as a tag |
| GitHubReference.Classified | src/github/reference.go:69-78 | every classified reference is a branch or a tag, and there are no more of them than refs |
| GitHubReference.BranchesOf | src/github/reference.go:88-95 | only branches are kept |
| GitHubReference.TagsOf | src/github/reference.go:105-112 | only tags are kept |
| GitHubReference.ClassifiedBranches | src/github/reference.go:69-95 | the branches of the classified list are exactly what ListBranches keeps |
| GitHubReference.ClassifiedTags | src/github/reference.go:69-112 | the tags of the classified list are exactly what ListTags keeps |
| GitHubReference.ClassifiedAppend | src/github/reference.go:69-78 | classification keeps the input order across a concatenation |
| GitHubReference.ListReferences | src/github/reference.go:63-79 | the slug is validated, a failed listing is translated, and otherwise the loop returns the classified list |
| GitHubReference.ListBranches | src/github/reference.go:82-96 | the same, keeping only branches |
| GitHubReference.ListTags | src/github/reference.go:99-113 | the same, keeping only tags |
| GitHubReference.RefPathInjective | src/github/reference.go:127-132 | different valid references ask for different paths |
| GitHubReference.GetCommitID | src/github/reference.go:118-143 | slug then reference validated before any request; for a valid request, a failed response is translated (404 to ErrNotFound), an answer with an object and a SHA returns that SHA, and an answer missing either is an error; a success is always that SHA |
| GitHubReference.GetCommitIDAsksOnlyItsPath | src/github/reference.go:127-132 | the answer depends only on the response for "tags/<name>" for a tag and "heads/<name>" otherwise |
| GitHubRepository.OwnerLogin | src/github/repository.go:17-28 | the organization's login when present, else the owner's, else none |
| GitHubRepository.OwnerNumber | src/github/repository.go:42-48 | the same precedence for the owner ID |
| GitHubRepository.NewRepositorySlug | src/github/repository.go:12-31 | Saas is always "github.com"; Owner and Name from the record where present |
| GitHubRepository.NewRepositoryID | src/github/repository.go:33-52 | Saas always; ID and OwnerID non-empty iff their numbers are present |
| GitHubRepository.NewRepositoryPermissions | src/github/repository.go:54-63 | Admin iff the "admin" entry is present and true |
| GitHubRepository.NewRepository | src/github/repository.go:65-71 | the three mappings together |
| GitHubRepository.EmptyRecordsMapToBareRepository | src/github/repository.go:12-71 | a nil record and an empty record both map to the bare GitHub repository with Admin false |
| GitHubRepository.ValidateRepositoryID | src/github/repository.go:73-84 | passes iff the generic check passes and both OwnerID and ID parse as integers; the first failure is reported |
| GitHubRepository.MappedIDValidates | src/github/repository.go:33-84 | an ID mapped from a record with both numbers passes the check and parses back to them |
| GitHubRepository.MappedIDInjective | src/github/repository.go:33-52 | records with different numbers map to different IDs |
| GitHubRepository.GetRepositoryBySlug | src/github/repository.go:144-155 | the slug is validated before the request; for a valid slug, a failed response is translated (404 to ErrNotFound) and an answered record is returned mapped |
| GitHubRepository.GetRepositoryByID | src/github/repository.go:158-185 | the ID is validated; for a valid ID a failed response is translated (404 to ErrNotFound); a success maps back to exactly the requested ID |
| GitHubRepository.GetRepositoryByIDConsistency | src/github/repository.go:179-182 | an answered valid request succeeds iff the record maps to the requested ID, and fails with the inconsistency error otherwise |
| GitHubRepository.GetRepositoryByIDFindsMappedRecord | src/github/repository.go:158-185 | a record is found under the ID it maps to |
| AppEngineFS.BucketNameAsWritten | src/aefs/aefs.go:39-44 | as written, the nil file system panics |
| AppEngineFS.BucketNameAsWrittenPanicsOnNil | src/aefs/aefs.go:39-44 | the nil case the guard is there for panics as written, while the corrected rule gives the default bucket |
| AppEngineFS.BucketName | src/aefs/aefs.go:39-44 | the Bucket field when non-empty, and the default bucket otherwise, nil included |
| AppEngineFS.BucketNameAgreesOffNil | src/aefs/aefs.go:39-44 | wherever the code as written does not panic it agrees with the corrected rule |
| AppEngineFS.MakeFileNameAbsolute | src/aefs/aefs.go:46-58 | a "/gs/" name is kept, any other absolute name is an error, and a relative name goes under "/gs/<bucket>/"; the bucket is the corrected BucketName, so for a nil file system with a relative name it gives the default bucket where the code as written panics |
| AppEngineFS.AbsoluteNamesAreGs | src/aefs/aefs.go:46-58 | every name produced is a "/gs/" name |
| AppEngineFS.MakeFileNameAbsoluteIdempotent | src/aefs/aefs.go:46-58 | applied to its own output it returns that output |
| AppEngineFS.RelativeNameRecoverable | src/aefs/aefs.go:53-57 | the relative name can be read back after "/gs/<bucket>/" |
| Urls.Card | frontend/src/lib/urls.js:3-6 | "/card/", then the ID, then "?clone" |
| Urls.Dashboard | frontend/src/lib/urls.js:8-10 | "/dash/" then the ID |
| Urls.Pulse | frontend/src/lib/urls.js:21-23 | "/pulse/#" then the ID |
| Urls.ModelToUrl | frontend/src/lib/urls.js:12-19 | agrees with the three builders for their models and is null for any other model |
| Urls.LinksRoundTrip | frontend/src/lib/urls.js:3-23 | each builder's ID is read back from its link, and a link its reader accepts is built from what it reads |
| Urls.KindsNeverCollide | frontend/src/lib/urls.js:3-23 | card, dashboard and pulse links never coincide |
| Urls.TableRowsQuery | frontend/src/lib/urls.js:25-27 | "/q/?db=", then the database ID, then "&table=", then the table ID, and nothing else |
| Urls.TableRowsQueryInjective | frontend/src/lib/urls.js:25-27 | "/q/?db=" + db + "&table=" + table determines both IDs when the database ID has no "&" |
| Urls.TableRowsQueryUnescaped | frontend/src/lib/urls.js:25-27 | the IDs are not escaped, so a database ID containing "&table=" can pass for another pair |

## Left out

- RepositoryCache.ServiceWithLatest and RepositoryCache.ServiceWithCache (GetRepositoryBySlug, GetRepositoryByID, ListReferences, ListBranches, ListTags and GetCommitID), RepositoryCache.AfterSubCache, RepositoryCache.AfterReferences and CacheRules.AfterCommitID: these assume the wrapped service rejects a nil slug, ID or reference, and for a list operation with a hard error rather than ErrNotFound. ServiceWithCache passes a nil argument straight to ServiceWithLatest. Where the service accepts one, the Go code panics in `Hash()` or `*slug`, and the model does not represent that panic.
- `Utf8.Decode`: Go's `string(b)` keeps malformed bytes as they are, but the model's strings hold scalar values. A cached user ID made of bytes that are not UTF-8, which only a foreign writer of the store could produce, therefore reads back with U+FFFD in their place.
- Mutexes, `atomic.AddInt64` and the Delegate function fields of both test fakes are left out. The fakes are modelled sequentially, with their `default*` operations called directly.
- Go map iteration order is left out. Listings built from maps are specified by membership and count (for `RepositoryFake.Service.ListRepositories`, by membership and the absence of repeats), not order. `RepositoryFake.RepositoryStore.RepositoryByID` returns some matching repository.
- `RepositoryFake.VirtualRepository` counter: `lastID` is unbounded, so `int64` overflow of the counter is not modelled.
- Nil inner maps in a slug or reference tree are left out: `PutData` never creates them, so the model's trees have none.
- `DocumentStoreMock.DocumentationStore.GetResultMulti`: results are keyed by position in the list, because the source keys them by pointer.
- `clone` in the in-memory store is a value copy, since Dafny values cannot be aliased. `CloneResult` states that the copy is equal.
- The Cloud Datastore store's transactions, its ancestor queries (`DeleteTarget`, `CountTargetsInRepository`, `QueryStatus`), `GetResultMulti` with its MultiError handling, and `GetStatusMulti` are left out. So are its Put and Delete failure paths. The model keeps the entity and key rules over an abstract map.
- DatastoreDocuments.DocumentationStore.UnmarkDeletingTarget: always passes for a non-nil target; the error a failed `datastore.Delete` returns (src/gcp/documentation_store.go:320) is not modelled.
- `DatastoreDocuments.DocumentationStore.CreateStatus`: whether the Put uses the transaction's context or the outer one is not modelled.
- Datastore keys are abstract ancestor paths of (kind, name, ID) elements, not the library's key type.
- The byte form of encoding/json is replaced by `Codec`. It round-trips every value, and it may reject bytes that JSON would have accepted.
- `%d` rendering of `uint64` in cache keys is modelled by `CacheRules.HashText`, a decimal rendering, without leading zeros.
- Cache item expiration is carried as a number and never acted on; expiry belongs to the external store.
- `log.Printf` in the single-tier cache is left out.
- Page-by-page fetching in `listRefs` and in the repository listings of the GitHub client is left out. `GitHubReference.ListReferences` and its siblings take the complete list as already fetched.
- The concurrent `ListRepositories` fan-out of the GitHub client (goroutines and channels) is left out. So are `listOrganizations`, the by-organization and by-user listings, and the register, unregister and exists HTTP wrappers for deploy keys, webhooks and profiles.
- `GitHubRepository.GetRepositoryByID`: the request-building error of the HTTP client is not modelled.
- `GitHubRepository.AtoiErrorText` quotes its input without Go's `%q` escaping of unusual characters.
- `Urls`: IDs are taken as the text JavaScript's string concatenation gives them. Rendering numbers to text is not modelled.
- `AppEngineFS`: the App Engine context is replaced by a default-bucket parameter. The Files API operations (Create, Open and the rest) are left out.
- OAuth, the user-manager client, the request handler, the file storage backends and the query builder selectors are not part of this model.

## Findings

| source | as written | input that shows it | evidently intended | confidence | as-written member | corrected member |
|---|---|---|---|---|---|---|
| src/gcp/documentation_store.go:289-311 | `MarkDeletingTarget` returns nil when the Get fails with any error other than ErrNoSuchEntity, so a failed read reports success without writing a mark | a target whose Get fails with a datastore error and which is not yet marked: the call succeeds, yet `IsDeletingTarget` cannot find the mark | report the Get error and write nothing | not executed | DatastoreDocuments.MarkAsWrittenLosesMark | DatastoreDocuments.Mark |
| src/aefs/aefs.go:39-44 | `bucketName` tests `fs == nil` in the same branch as the empty-bucket test and then reads `fs.c` to get the default bucket, dereferencing the nil pointer | a nil `*AppEngineFS` | a nil file system, like an empty Bucket, gives the default bucket | not executed | AppEngineFS.BucketNameAsWrittenPanicsOnNil | AppEngineFS.BucketName |
