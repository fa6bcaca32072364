/**
 * The two-tier read-through cache in front of a repository service. A CacheBase holds the
 * wrapped service, the store and the key namespace; ServiceWithLatest always asks the
 * service and writes what it answers to the store; ServiceWithCache answers from the
 * store when the collision guard accepts the cached item and asks ServiceWithLatest
 * otherwise.
 */
module RepositoryCache {
  import opened Wrappers
  import opened Utf8
  import opened Identity
  import opened Codec
  import opened CacheStore
  import opened ServiceAdapter
  import opened CacheRules

  /** cacheExpiration, 24 hours, in seconds. */
  const CacheExpiration: nat := 86400

  /** The item storeReferencesCache writes: the envelope of the slug and the list. */
  function ReferencesItem(key: string, slug: Slug, refs: seq<Reference>): (r: Item)
    ensures r.key == key && r.expiration == CacheExpiration
    ensures DecodeReferences(r.value) == Some(ReferencesEnvelope(slug, refs))
  {
    ReferencesRoundTrip(ReferencesEnvelope(slug, refs));
    Item(key, EncodeReferences(ReferencesEnvelope(slug, refs)), CacheExpiration)
  }

  // The hash a key is built from. A nil argument has no key: ServiceWithLatest writes
  // nothing for it, since the service answers it with an error, and 0 stands in for it.

  function SlugHash(slug: Option<Slug>): nat {
    if slug.None? then 0 else slug.value.Hash()
  }

  function IDHash(id: Option<ID>): nat {
    if id.None? then 0 else id.value.Hash()
  }

  function ReferenceHash(ref: Option<Reference>): nat {
    if ref.None? then 0 else ref.value.Hash()
  }

  // The store after each ServiceWithLatest list read, given the keys and the service's answer.

  /** A list stored in one sub-cache (ListBranches, ListTags) unless the error is a hard one. */
  function AfterSubCache(entries: Entries, failWrites: bool, key: string, slug: Option<Slug>, answer: Listing): (r: Entries)
    requires !IsHardError(answer.err) ==> slug.Some?
    ensures IsHardError(answer.err) || failWrites ==> r == entries
    ensures OnlyChanged(entries, r, {key})
  {
    if IsHardError(answer.err) then entries
    else Stored(entries, failWrites, ReferencesItem(key, slug.value, answer.refs))
  }

  /** ServiceWithLatest.ListReferences writes both sub-caches unless the error is a hard one. */
  function AfterReferences(entries: Entries, failWrites: bool, branchesKey: string, tagsKey: string, slug: Option<Slug>, answer: Listing): (r: Entries)
    requires !IsHardError(answer.err) ==> slug.Some?
    ensures IsHardError(answer.err) || failWrites ==> r == entries
    ensures OnlyChanged(entries, r, {branchesKey, tagsKey})
  {
    if IsHardError(answer.err) then entries
    else
      var withBranches := Stored(entries, failWrites, ReferencesItem(branchesKey, slug.value, BranchesOf(answer.refs)));
      Stored(withBranches, failWrites, ReferencesItem(tagsKey, slug.value, TagsOf(answer.refs)))
  }

  /** What a list operation of ServiceWithLatest returns: nil and the error on a hard error, else the answer as it is. */
  function Tolerated(answer: Listing): (r: Listing)
    ensures IsHardError(answer.err) ==> r.refs == [] && r.err == answer.err
    ensures !IsHardError(answer.err) ==> r == answer
  {
    if IsHardError(answer.err) then Listing([], answer.err) else answer
  }

  /** A cached list merged with a fetched one: the fetch's ErrNotFound is dropped, a hard error is returned alone. */
  function Merged(branches: seq<Reference>, tags: seq<Reference>, fetchErr: Option<Error>): (r: Listing)
    ensures IsHardError(fetchErr) ==> r == Listing([], fetchErr)
    ensures !IsHardError(fetchErr) ==> r == Listing(branches + tags, None)
  {
    if IsHardError(fetchErr) then Listing([], fetchErr) else Listing(branches + tags, None)
  }

  /** ServiceWithCache.ListReferences: an error is returned alone, and an empty list becomes ErrNotFound. */
  function NonEmpty(found: Listing): (r: Listing)
    ensures r.err.None? <==> found.err.None? && |found.refs| > 0
    ensures r.err.None? ==> r.refs == found.refs
    ensures r.err.Some? ==> r.refs == []
    ensures found.err.None? && found.refs == [] ==> r.err == Some(NotFound)
  {
    if found.err.Some? then Listing([], found.err)
    else if |found.refs| == 0 then Listing([], Some(NotFound))
    else found
  }

  class CacheBase {
    const raw: Service
    const store: Store
    const namespace: string

    constructor (raw: Service, store: Store, namespace: string)
      ensures this.raw == raw && this.store == store && this.namespace == namespace
    {
      this.raw := raw;
      this.store := store;
      this.namespace := namespace;
    }

    function GetServiceName(): (r: string)
      ensures r == raw.serviceName
    {
      raw.serviceName
    }

    /** separateReferences: one pass, appending each branch and each tag in order. */
    method SeparateReferences(refs: seq<Reference>) returns (branches: seq<Reference>, tags: seq<Reference>)
      ensures branches == BranchesOf(refs) && tags == TagsOf(refs)
    {
      branches := [];
      tags := [];
      var i := 0;
      while i < |refs|
        invariant 0 <= i <= |refs|
        invariant branches == BranchesOf(refs[..i]) && tags == TagsOf(refs[..i])
      {
        var ref := refs[i];
        assert refs[..i + 1] == refs[..i] + [ref];
        BranchesOfSnoc(refs[..i], ref);
        if ref.IsBranch() {
          branches := branches + [ref];
        } else if ref.IsTag() {
          tags := tags + [ref];
        }
        i := i + 1;
      }
      assert refs[..|refs|] == refs;
    }

    function RetrieveBranchesCache(slug: Slug): (r: Result<seq<Reference>, Error>)
      reads store
      ensures BranchesKey(namespace, slug.Hash()) in store.faults ==> r == Err(StoreFailure)
      ensures r.Err? && BranchesKey(namespace, slug.Hash()) !in store.faults ==> r.error == CacheMiss
      ensures r.Ok? ==> var key := BranchesKey(namespace, slug.Hash());
        key in store.entries && ReferencesFromItem(Some(Item(key, store.entries[key].value, store.entries[key].expiration))) == Some(ReferencesEnvelope(slug, r.value))
    {
      RetrieveReferences(store.entries, store.faults, BranchesKey(namespace, slug.Hash()), slug)
    }

    function RetrieveTagsCache(slug: Slug): (r: Result<seq<Reference>, Error>)
      reads store
      ensures TagsKey(namespace, slug.Hash()) in store.faults ==> r == Err(StoreFailure)
      ensures r.Err? && TagsKey(namespace, slug.Hash()) !in store.faults ==> r.error == CacheMiss
      ensures r.Ok? ==> var key := TagsKey(namespace, slug.Hash());
        key in store.entries && ReferencesFromItem(Some(Item(key, store.entries[key].value, store.entries[key].expiration))) == Some(ReferencesEnvelope(slug, r.value))
    {
      RetrieveReferences(store.entries, store.faults, TagsKey(namespace, slug.Hash()), slug)
    }

    method StoreBranchesCache(slug: Slug, branches: seq<Reference>)
      modifies store
      ensures store.entries == Stored(old(store.entries), store.failWrites, ReferencesItem(BranchesKey(namespace, slug.Hash()), slug, branches))
    {
      store.Set(ReferencesItem(BranchesKey(namespace, slug.Hash()), slug, branches));
    }

    method StoreTagsCache(slug: Slug, tags: seq<Reference>)
      modifies store
      ensures store.entries == Stored(old(store.entries), store.failWrites, ReferencesItem(TagsKey(namespace, slug.Hash()), slug, tags))
    {
      store.Set(ReferencesItem(TagsKey(namespace, slug.Hash()), slug, tags));
    }

    // The deploy-key and webhook operations go to the service and never touch the store.

    method RegisterDeployKey(slug: Option<Slug>, publicKey: string, title: string) returns (r: Result<DeployKey, Error>)
      modifies raw
      ensures r == raw.answers.registerDeployKey(slug, publicKey, title)
      ensures raw.calls == old(raw.calls) + [RegisterDeployKeyCall(slug, publicKey, title)]
      ensures store.entries == old(store.entries)
    {
      r := raw.RegisterDeployKey(slug, publicKey, title);
    }

    method UnregisterDeployKey(slug: Option<Slug>, deployKey: Option<DeployKey>) returns (r: Outcome<Error>)
      modifies raw
      ensures r == raw.answers.unregisterDeployKey(slug, deployKey)
      ensures raw.calls == old(raw.calls) + [UnregisterDeployKeyCall(slug, deployKey)]
      ensures store.entries == old(store.entries)
    {
      r := raw.UnregisterDeployKey(slug, deployKey);
    }

    method ExistsDeployKey(slug: Option<Slug>, deployKey: Option<DeployKey>) returns (r: Result<bool, Error>)
      modifies raw
      ensures r == raw.answers.existsDeployKey(slug, deployKey)
      ensures raw.calls == old(raw.calls) + [ExistsDeployKeyCall(slug, deployKey)]
      ensures store.entries == old(store.entries)
    {
      r := raw.ExistsDeployKey(slug, deployKey);
    }

    method RegisterWebhook(slug: Option<Slug>, hookURL: string) returns (r: Result<Webhook, Error>)
      modifies raw
      ensures r == raw.answers.registerWebhook(slug, hookURL)
      ensures raw.calls == old(raw.calls) + [RegisterWebhookCall(slug, hookURL)]
      ensures store.entries == old(store.entries)
    {
      r := raw.RegisterWebhook(slug, hookURL);
    }

    method UnregisterWebhook(slug: Option<Slug>, webhook: Option<Webhook>) returns (r: Outcome<Error>)
      modifies raw
      ensures r == raw.answers.unregisterWebhook(slug, webhook)
      ensures raw.calls == old(raw.calls) + [UnregisterWebhookCall(slug, webhook)]
      ensures store.entries == old(store.entries)
    {
      r := raw.UnregisterWebhook(slug, webhook);
    }

    method ExistsWebhook(slug: Option<Slug>, webhook: Option<Webhook>) returns (r: Result<bool, Error>)
      modifies raw
      ensures r == raw.answers.existsWebhook(slug, webhook)
      ensures raw.calls == old(raw.calls) + [ExistsWebhookCall(slug, webhook)]
      ensures store.entries == old(store.entries)
    {
      r := raw.ExistsWebhook(slug, webhook);
    }
  }

  /** newServiceWithCacheBase: both collaborators are required; the cache key may be empty. */
  method NewServiceWithCacheBase(service: Service?, cacheStore: Store?, cacheKey: string) returns (r: Result<CacheBase, Error>)
    ensures service == null ==> r == Err(Failure("no repository service specified"))
    ensures service != null && cacheStore == null ==> r == Err(Failure("no cache store specified"))
    ensures r.Ok? <==> service != null && cacheStore != null
    ensures r.Ok? ==> fresh(r.value) && r.value.raw == service && r.value.store == cacheStore
    ensures r.Ok? ==> r.value.namespace == Namespace(service.serviceName, cacheKey)
  {
    if service == null {
      return Err(Failure("no repository service specified"));
    }
    if cacheStore == null {
      return Err(Failure("no cache store specified"));
    }
    var base := new CacheBase(service, cacheStore, Namespace(service.serviceName, cacheKey));
    return Ok(base);
  }

  class ServiceWithLatest {
    const base: CacheBase

    constructor (base: CacheBase)
      ensures this.base == base
    {
      this.base := base;
    }

    method GetUserID() returns (r: Result<string, Error>)
      modifies base.raw, base.store
      ensures r == base.raw.answers.userID
      ensures base.raw.calls == old(base.raw.calls) + [GetUserIDCall]
      ensures base.store.entries == AfterUserID(old(base.store.entries), base.store.failWrites, CacheExpiration, UserIDKey(base.namespace), r)
    {
      r := base.raw.GetUserID();
      if r.Err? {
        return;
      }
      base.store.Set(Item(UserIDKey(base.namespace), Encode(r.value), CacheExpiration));
    }

    method GetRepositoryBySlug(slug: Option<Slug>) returns (r: Result<Repository, Error>)
      requires base.raw.answers.repositoryBySlug(slug).Ok? ==> slug.Some?
      modifies base.raw, base.store
      ensures r == base.raw.answers.repositoryBySlug(slug)
      ensures base.raw.calls == old(base.raw.calls) + [GetRepositoryBySlugCall(slug)]
      ensures base.store.entries == AfterRepository(old(base.store.entries), base.store.failWrites, CacheExpiration, RepositoryBySlugKey(base.namespace, SlugHash(slug)), r)
    {
      r := base.raw.GetRepositoryBySlug(slug);
      if r.Err? {
        return;
      }
      base.store.Set(Item(RepositoryBySlugKey(base.namespace, slug.value.Hash()), EncodeRepository(r.value), CacheExpiration));
    }

    method GetRepositoryByID(id: Option<ID>) returns (r: Result<Repository, Error>)
      requires base.raw.answers.repositoryByID(id).Ok? ==> id.Some?
      modifies base.raw, base.store
      ensures r == base.raw.answers.repositoryByID(id)
      ensures base.raw.calls == old(base.raw.calls) + [GetRepositoryByIDCall(id)]
      ensures base.store.entries == AfterRepository(old(base.store.entries), base.store.failWrites, CacheExpiration, RepositoryByIDKey(base.namespace, IDHash(id)), r)
    {
      r := base.raw.GetRepositoryByID(id);
      if r.Err? {
        return;
      }
      base.store.Set(Item(RepositoryByIDKey(base.namespace, id.value.Hash()), EncodeRepository(r.value), CacheExpiration));
    }

    method ListRepositories() returns (r: Result<Option<seq<Repository>>, Error>)
      modifies base.raw, base.store
      ensures r == base.raw.answers.repositories
      ensures base.raw.calls == old(base.raw.calls) + [ListRepositoriesCall]
      ensures base.store.entries == AfterRepositories(old(base.store.entries), base.store.failWrites, CacheExpiration, RepositoriesKey(base.namespace), r)
    {
      r := base.raw.ListRepositories();
      if r.Err? {
        return;
      }
      base.store.Set(Item(RepositoriesKey(base.namespace), EncodeRepositories(r.value), CacheExpiration));
    }

    /** Splits the references into the two sub-caches, ErrNotFound included, and returns the answer. */
    method ListReferences(slug: Option<Slug>) returns (r: Listing)
      requires !IsHardError(base.raw.answers.references(slug).err) ==> slug.Some?
      modifies base.raw, base.store
      ensures r == Tolerated(base.raw.answers.references(slug))
      ensures base.raw.calls == old(base.raw.calls) + [ListReferencesCall(slug)]
      ensures base.store.entries == AfterReferences(old(base.store.entries), base.store.failWrites, BranchesKey(base.namespace, SlugHash(slug)), TagsKey(base.namespace, SlugHash(slug)), slug, base.raw.answers.references(slug))
    {
      var answer := base.raw.ListReferences(slug);
      if IsHardError(answer.err) {
        return Listing([], answer.err);
      }
      var branches, tags := base.SeparateReferences(answer.refs);
      base.StoreBranchesCache(slug.value, branches);
      base.StoreTagsCache(slug.value, tags);
      r := answer;
    }

    method ListBranches(slug: Option<Slug>) returns (r: Listing)
      requires !IsHardError(base.raw.answers.branches(slug).err) ==> slug.Some?
      modifies base.raw, base.store
      ensures r == Tolerated(base.raw.answers.branches(slug))
      ensures base.raw.calls == old(base.raw.calls) + [ListBranchesCall(slug)]
      ensures base.store.entries == AfterSubCache(old(base.store.entries), base.store.failWrites, BranchesKey(base.namespace, SlugHash(slug)), slug, base.raw.answers.branches(slug))
    {
      var answer := base.raw.ListBranches(slug);
      if IsHardError(answer.err) {
        return Listing([], answer.err);
      }
      base.StoreBranchesCache(slug.value, answer.refs);
      r := answer;
    }

    method ListTags(slug: Option<Slug>) returns (r: Listing)
      requires !IsHardError(base.raw.answers.tags(slug).err) ==> slug.Some?
      modifies base.raw, base.store
      ensures r == Tolerated(base.raw.answers.tags(slug))
      ensures base.raw.calls == old(base.raw.calls) + [ListTagsCall(slug)]
      ensures base.store.entries == AfterSubCache(old(base.store.entries), base.store.failWrites, TagsKey(base.namespace, SlugHash(slug)), slug, base.raw.answers.tags(slug))
    {
      var answer := base.raw.ListTags(slug);
      if IsHardError(answer.err) {
        return Listing([], answer.err);
      }
      base.StoreTagsCache(slug.value, answer.refs);
      r := answer;
    }

    method GetCommitID(slug: Option<Slug>, ref: Option<Reference>) returns (r: Result<string, Error>)
      requires base.raw.answers.commitID(slug, ref).Ok? ==> slug.Some? && ref.Some?
      modifies base.raw, base.store
      ensures r == base.raw.answers.commitID(slug, ref)
      ensures base.raw.calls == old(base.raw.calls) + [GetCommitIDCall(slug, ref)]
      ensures base.store.entries == AfterCommitID(old(base.store.entries), base.store.failWrites, CacheExpiration, CommitIDKey(base.namespace, SlugHash(slug), ReferenceHash(ref)), slug, ref, r)
    {
      r := base.raw.GetCommitID(slug, ref);
      if r.Err? {
        return;
      }
      var c := CommitEnvelope(slug.value, ref.value, r.value);
      base.store.Set(Item(CommitIDKey(base.namespace, slug.value.Hash(), ref.value.Hash()), EncodeCommit(c), CacheExpiration));
    }
  }

  method NewServiceWithLatest(service: Service?, cacheStore: Store?, cacheKey: string) returns (r: Result<ServiceWithLatest, Error>)
    ensures service == null ==> r == Err(Failure("no repository service specified"))
    ensures service != null && cacheStore == null ==> r == Err(Failure("no cache store specified"))
    ensures r.Ok? <==> service != null && cacheStore != null
    ensures r.Ok? ==> fresh(r.value) && fresh(r.value.base) && r.value.base.raw == service && r.value.base.store == cacheStore
    ensures r.Ok? ==> r.value.base.namespace == Namespace(service.serviceName, cacheKey)
  {
    var base := NewServiceWithCacheBase(service, cacheStore, cacheKey);
    if base.Err? {
      return Err(base.error);
    }
    var s := new ServiceWithLatest(base.value);
    return Ok(s);
  }

  class ServiceWithCache {
    const base: CacheBase
    const latest: ServiceWithLatest

    constructor (latest: ServiceWithLatest)
      ensures this.latest == latest && base == latest.base && Valid()
    {
      this.latest := latest;
      base := latest.base;
    }

    /** The cache and its latest counterpart share one base, hence one store. */
    predicate Valid() {
      latest.base == base
    }

    function Latest(): (r: ServiceWithLatest)
      requires Valid()
      ensures r.base == base
    {
      latest
    }

    // What each cache-first read finds in the store; None sends it on to Latest().

    function HitUserID(): Option<string>
      reads base.store
    {
      CachedUserID(base.store.entries, base.store.faults, UserIDKey(base.namespace))
    }

    function HitRepositoryBySlug(slug: Option<Slug>): Option<Repository>
      reads base.store
    {
      if slug.None? then None
      else CachedRepositoryBySlug(base.store.entries, base.store.faults, RepositoryBySlugKey(base.namespace, slug.value.Hash()), slug.value)
    }

    function HitRepositoryByID(id: Option<ID>): Option<Repository>
      reads base.store
    {
      if id.None? then None
      else CachedRepositoryByID(base.store.entries, base.store.faults, RepositoryByIDKey(base.namespace, id.value.Hash()), id.value)
    }

    function HitRepositories(): Option<seq<Repository>>
      reads base.store
    {
      CachedRepositories(base.store.entries, base.store.faults, RepositoriesKey(base.namespace))
    }

    function HitCommitID(slug: Option<Slug>, ref: Option<Reference>): Option<string>
      reads base.store
    {
      if slug.None? || ref.None? then None
      else CachedCommitID(base.store.entries, base.store.faults, CommitIDKey(base.namespace, slug.value.Hash(), ref.value.Hash()), slug.value, ref.value)
    }

    method GetUserID() returns (r: Result<string, Error>)
      requires Valid()
      modifies base.raw, base.store
      ensures old(HitUserID()).Some? ==>
        r == Ok(old(HitUserID()).value) && base.raw.calls == old(base.raw.calls) && base.store.entries == old(base.store.entries)
      ensures old(HitUserID()).None? ==>
        && r == base.raw.answers.userID
        && base.raw.calls == old(base.raw.calls) + [GetUserIDCall]
        && base.store.entries == AfterUserID(old(base.store.entries), base.store.failWrites, CacheExpiration, UserIDKey(base.namespace), r)
    {
      var item := base.store.Get(UserIDKey(base.namespace));
      if item.Ok? {
        return Ok(Decode(item.value.value));
      }
      r := latest.GetUserID();
    }

    method GetRepositoryBySlug(slug: Option<Slug>) returns (r: Result<Repository, Error>)
      requires Valid()
      requires base.raw.answers.repositoryBySlug(slug).Ok? ==> slug.Some?
      modifies base.raw, base.store
      ensures old(HitRepositoryBySlug(slug)).Some? ==>
        r == Ok(old(HitRepositoryBySlug(slug)).value) && base.raw.calls == old(base.raw.calls) && base.store.entries == old(base.store.entries)
      ensures old(HitRepositoryBySlug(slug)).None? ==>
        && r == base.raw.answers.repositoryBySlug(slug)
        && base.raw.calls == old(base.raw.calls) + [GetRepositoryBySlugCall(slug)]
        && base.store.entries == AfterRepository(old(base.store.entries), base.store.failWrites, CacheExpiration, RepositoryBySlugKey(base.namespace, SlugHash(slug)), r)
    {
      if slug.None? {
        r := latest.GetRepositoryBySlug(slug);
        return;
      }
      var item := base.store.Get(RepositoryBySlugKey(base.namespace, slug.value.Hash()));
      if item.Ok? {
        var repo := RepositoryFromItem(Some(item.value));
        if repo.Some? && repo.value.slug == slug.value {
          return Ok(repo.value);
        }
      }
      r := latest.GetRepositoryBySlug(slug);
    }

    method GetRepositoryByID(id: Option<ID>) returns (r: Result<Repository, Error>)
      requires Valid()
      requires base.raw.answers.repositoryByID(id).Ok? ==> id.Some?
      modifies base.raw, base.store
      ensures old(HitRepositoryByID(id)).Some? ==>
        r == Ok(old(HitRepositoryByID(id)).value) && base.raw.calls == old(base.raw.calls) && base.store.entries == old(base.store.entries)
      ensures old(HitRepositoryByID(id)).None? ==>
        && r == base.raw.answers.repositoryByID(id)
        && base.raw.calls == old(base.raw.calls) + [GetRepositoryByIDCall(id)]
        && base.store.entries == AfterRepository(old(base.store.entries), base.store.failWrites, CacheExpiration, RepositoryByIDKey(base.namespace, IDHash(id)), r)
    {
      if id.None? {
        r := latest.GetRepositoryByID(id);
        return;
      }
      var item := base.store.Get(RepositoryByIDKey(base.namespace, id.value.Hash()));
      if item.Ok? {
        var repo := RepositoryFromItem(Some(item.value));
        if repo.Some? && repo.value.id == id.value {
          return Ok(repo.value);
        }
      }
      r := latest.GetRepositoryByID(id);
    }

    method ListRepositories() returns (r: Result<Option<seq<Repository>>, Error>)
      requires Valid()
      modifies base.raw, base.store
      ensures old(HitRepositories()).Some? ==>
        r == Ok(old(HitRepositories())) && base.raw.calls == old(base.raw.calls) && base.store.entries == old(base.store.entries)
      ensures old(HitRepositories()).None? ==>
        && r == base.raw.answers.repositories
        && base.raw.calls == old(base.raw.calls) + [ListRepositoriesCall]
        && base.store.entries == AfterRepositories(old(base.store.entries), base.store.failWrites, CacheExpiration, RepositoriesKey(base.namespace), r)
    {
      var item := base.store.Get(RepositoriesKey(base.namespace));
      if item.Ok? {
        var repos := RepositoriesFromItem(Some(item.value));
        if repos.Some? {
          return Ok(repos);
        }
      }
      r := latest.ListRepositories();
    }

    /** listReferences: the four cases of the two sub-caches. */
    method CollectReferences(slug: Slug) returns (r: Listing)
      requires Valid()
      modifies base.raw, base.store
      ensures var b := old(base.RetrieveBranchesCache(slug)); var t := old(base.RetrieveTagsCache(slug));
        b.Ok? && t.Ok? ==>
          r == Listing(b.value + t.value, None) && base.raw.calls == old(base.raw.calls) && base.store.entries == old(base.store.entries)
      ensures var b := old(base.RetrieveBranchesCache(slug)); var t := old(base.RetrieveTagsCache(slug));
        b.Ok? && t.Err? ==>
          && r == Merged(b.value, base.raw.answers.tags(Some(slug)).refs, base.raw.answers.tags(Some(slug)).err)
          && base.raw.calls == old(base.raw.calls) + [ListTagsCall(Some(slug))]
          && base.store.entries == AfterSubCache(old(base.store.entries), base.store.failWrites, TagsKey(base.namespace, slug.Hash()), Some(slug), base.raw.answers.tags(Some(slug)))
      ensures var b := old(base.RetrieveBranchesCache(slug)); var t := old(base.RetrieveTagsCache(slug));
        b.Err? && t.Ok? ==>
          && r == Merged(base.raw.answers.branches(Some(slug)).refs, t.value, base.raw.answers.branches(Some(slug)).err)
          && base.raw.calls == old(base.raw.calls) + [ListBranchesCall(Some(slug))]
          && base.store.entries == AfterSubCache(old(base.store.entries), base.store.failWrites, BranchesKey(base.namespace, slug.Hash()), Some(slug), base.raw.answers.branches(Some(slug)))
      ensures var b := old(base.RetrieveBranchesCache(slug)); var t := old(base.RetrieveTagsCache(slug));
        b.Err? && t.Err? ==>
          && r == Tolerated(base.raw.answers.references(Some(slug)))
          && base.raw.calls == old(base.raw.calls) + [ListReferencesCall(Some(slug))]
          && base.store.entries == AfterReferences(old(base.store.entries), base.store.failWrites, BranchesKey(base.namespace, slug.Hash()), TagsKey(base.namespace, slug.Hash()), Some(slug), base.raw.answers.references(Some(slug)))
    {
      var branches := base.RetrieveBranchesCache(slug);
      var tags := base.RetrieveTagsCache(slug);
      if branches.Ok? {
        if tags.Ok? {
          return Listing(branches.value + tags.value, None);
        }
        var fetched := latest.ListTags(Some(slug));
        if IsHardError(fetched.err) {
          return Listing([], fetched.err);
        }
        return Listing(branches.value + fetched.refs, None);
      }
      if tags.Ok? {
        var fetched := latest.ListBranches(Some(slug));
        if IsHardError(fetched.err) {
          return Listing([], fetched.err);
        }
        return Listing(fetched.refs + tags.value, None);
      }
      r := latest.ListReferences(Some(slug));
    }

    /** ListReferences: a nil slug goes to Latest(); otherwise the collected list, with an empty one as ErrNotFound. */
    method ListReferences(slug: Option<Slug>) returns (r: Listing)
      requires Valid()
      requires slug.None? ==> IsHardError(base.raw.answers.references(None).err)
      modifies base.raw, base.store
      ensures slug.None? ==>
        r == Tolerated(base.raw.answers.references(None)) && base.raw.calls == old(base.raw.calls) + [ListReferencesCall(None)]
        && base.store.entries == old(base.store.entries)
      ensures var b := if slug.None? then Err(CacheMiss) else old(base.RetrieveBranchesCache(slug.value));
              var t := if slug.None? then Err(CacheMiss) else old(base.RetrieveTagsCache(slug.value));
        b.Ok? && t.Ok? ==>
          r == NonEmpty(Listing(b.value + t.value, None)) && base.raw.calls == old(base.raw.calls) && base.store.entries == old(base.store.entries)
      ensures slug.Some? ==> var b := old(base.RetrieveBranchesCache(slug.value)); var t := old(base.RetrieveTagsCache(slug.value));
        b.Ok? && t.Err? ==>
          && r == NonEmpty(Merged(b.value, base.raw.answers.tags(slug).refs, base.raw.answers.tags(slug).err))
          && base.raw.calls == old(base.raw.calls) + [ListTagsCall(slug)]
          && base.store.entries == AfterSubCache(old(base.store.entries), base.store.failWrites, TagsKey(base.namespace, slug.value.Hash()), slug, base.raw.answers.tags(slug))
      ensures slug.Some? ==> var b := old(base.RetrieveBranchesCache(slug.value)); var t := old(base.RetrieveTagsCache(slug.value));
        b.Err? && t.Ok? ==>
          && r == NonEmpty(Merged(base.raw.answers.branches(slug).refs, t.value, base.raw.answers.branches(slug).err))
          && base.raw.calls == old(base.raw.calls) + [ListBranchesCall(slug)]
          && base.store.entries == AfterSubCache(old(base.store.entries), base.store.failWrites, BranchesKey(base.namespace, slug.value.Hash()), slug, base.raw.answers.branches(slug))
      ensures slug.Some? ==> var b := old(base.RetrieveBranchesCache(slug.value)); var t := old(base.RetrieveTagsCache(slug.value));
        b.Err? && t.Err? ==>
          && r == NonEmpty(Tolerated(base.raw.answers.references(slug)))
          && base.raw.calls == old(base.raw.calls) + [ListReferencesCall(slug)]
          && base.store.entries == AfterReferences(old(base.store.entries), base.store.failWrites, BranchesKey(base.namespace, slug.value.Hash()), TagsKey(base.namespace, slug.value.Hash()), slug, base.raw.answers.references(slug))
      ensures r.err.None? ==> |r.refs| > 0
      ensures r.err.Some? ==> r.refs == []
    {
      if slug.None? {
        r := latest.ListReferences(slug);
        return;
      }
      var found := CollectReferences(slug.value);
      r := NonEmpty(found);
    }

    method ListBranches(slug: Option<Slug>) returns (r: Listing)
      requires Valid()
      requires slug.None? ==> IsHardError(base.raw.answers.branches(None).err)
      modifies base.raw, base.store
      ensures var hit := if slug.None? then Err(CacheMiss) else old(base.RetrieveBranchesCache(slug.value));
        hit.Ok? ==> r == Listing(hit.value, None) && base.raw.calls == old(base.raw.calls) && base.store.entries == old(base.store.entries)
      ensures var hit := if slug.None? then Err(CacheMiss) else old(base.RetrieveBranchesCache(slug.value));
        hit.Err? ==>
          && r == Tolerated(base.raw.answers.branches(slug))
          && base.raw.calls == old(base.raw.calls) + [ListBranchesCall(slug)]
          && base.store.entries == AfterSubCache(old(base.store.entries), base.store.failWrites, BranchesKey(base.namespace, SlugHash(slug)), slug, base.raw.answers.branches(slug))
    {
      if slug.None? {
        r := latest.ListBranches(slug);
        return;
      }
      var branches := base.RetrieveBranchesCache(slug.value);
      if branches.Ok? {
        return Listing(branches.value, None);
      }
      r := latest.ListBranches(slug);
    }

    method ListTags(slug: Option<Slug>) returns (r: Listing)
      requires Valid()
      requires slug.None? ==> IsHardError(base.raw.answers.tags(None).err)
      modifies base.raw, base.store
      ensures var hit := if slug.None? then Err(CacheMiss) else old(base.RetrieveTagsCache(slug.value));
        hit.Ok? ==> r == Listing(hit.value, None) && base.raw.calls == old(base.raw.calls) && base.store.entries == old(base.store.entries)
      ensures var hit := if slug.None? then Err(CacheMiss) else old(base.RetrieveTagsCache(slug.value));
        hit.Err? ==>
          && r == Tolerated(base.raw.answers.tags(slug))
          && base.raw.calls == old(base.raw.calls) + [ListTagsCall(slug)]
          && base.store.entries == AfterSubCache(old(base.store.entries), base.store.failWrites, TagsKey(base.namespace, SlugHash(slug)), slug, base.raw.answers.tags(slug))
    {
      if slug.None? {
        r := latest.ListTags(slug);
        return;
      }
      var tags := base.RetrieveTagsCache(slug.value);
      if tags.Ok? {
        return Listing(tags.value, None);
      }
      r := latest.ListTags(slug);
    }

    method GetCommitID(slug: Option<Slug>, ref: Option<Reference>) returns (r: Result<string, Error>)
      requires Valid()
      requires base.raw.answers.commitID(slug, ref).Ok? ==> slug.Some? && ref.Some?
      modifies base.raw, base.store
      ensures old(HitCommitID(slug, ref)).Some? ==>
        r == Ok(old(HitCommitID(slug, ref)).value) && base.raw.calls == old(base.raw.calls) && base.store.entries == old(base.store.entries)
      ensures old(HitCommitID(slug, ref)).None? ==>
        && r == base.raw.answers.commitID(slug, ref)
        && base.raw.calls == old(base.raw.calls) + [GetCommitIDCall(slug, ref)]
        && base.store.entries == AfterCommitID(old(base.store.entries), base.store.failWrites, CacheExpiration, CommitIDKey(base.namespace, SlugHash(slug), ReferenceHash(ref)), slug, ref, r)
    {
      if slug.None? || ref.None? {
        r := latest.GetCommitID(slug, ref);
        return;
      }
      var item := base.store.Get(CommitIDKey(base.namespace, slug.value.Hash(), ref.value.Hash()));
      if item.Ok? {
        var c := CommitFromItem(Some(item.value));
        if c.Some? && c.value.slug == slug.value && c.value.ref == ref.value {
          return Ok(c.value.id);
        }
      }
      r := latest.GetCommitID(slug, ref);
    }
  }

  method NewServiceWithCache(service: Service?, cacheStore: Store?, cacheKey: string) returns (r: Result<ServiceWithCache, Error>)
    ensures service == null ==> r == Err(Failure("no repository service specified"))
    ensures service != null && cacheStore == null ==> r == Err(Failure("no cache store specified"))
    ensures r.Ok? <==> service != null && cacheStore != null
    ensures r.Ok? ==> fresh(r.value) && r.value.Valid() && r.value.base.raw == service && r.value.base.store == cacheStore
    ensures r.Ok? ==> r.value.base.namespace == Namespace(service.serviceName, cacheKey)
  {
    var latest := NewServiceWithLatest(service, cacheStore, cacheKey);
    if latest.Err? {
      return Err(latest.error);
    }
    var s := new ServiceWithCache(latest.value);
    return Ok(s);
  }

  // What ServiceWithLatest writes, ServiceWithCache reads back (for a store whose writes succeed).

  /** A refreshed sub-cache answers its slug with the listed references, an empty list included. */
  lemma SubCacheRefreshThenHit(entries: Entries, faults: set<string>, key: string, slug: Slug, answer: Listing)
    requires !IsHardError(answer.err) && key !in faults
    ensures RetrieveReferences(AfterSubCache(entries, false, key, Some(slug), answer), faults, key, slug) == Ok(answer.refs)
  {
    ReferencesWriteThenHit(entries, faults, key, slug, answer.refs, slug, CacheExpiration);
  }

  /**
   * After ServiceWithLatest.ListReferences, both sub-caches answer the slug: the branches
   * and the tags of the listing, empty lists included. The two keys differ for every
   * namespace and hash (CacheRules.KeysOfOperationsDiffer).
   */
  lemma ReferencesRefreshThenHit(entries: Entries, faults: set<string>, branchesKey: string, tagsKey: string, slug: Slug, answer: Listing)
    requires !IsHardError(answer.err)
    requires branchesKey != tagsKey && branchesKey !in faults && tagsKey !in faults
    ensures RetrieveReferences(AfterReferences(entries, false, branchesKey, tagsKey, Some(slug), answer), faults, branchesKey, slug) == Ok(BranchesOf(answer.refs))
    ensures RetrieveReferences(AfterReferences(entries, false, branchesKey, tagsKey, Some(slug), answer), faults, tagsKey, slug) == Ok(TagsOf(answer.refs))
  {
    var mid := Stored(entries, false, ReferencesItem(branchesKey, slug, BranchesOf(answer.refs)));
    var after := Stored(mid, false, ReferencesItem(tagsKey, slug, TagsOf(answer.refs)));
    assert after[branchesKey] == mid[branchesKey];
    ReferencesWriteThenHit(entries, faults, branchesKey, slug, BranchesOf(answer.refs), slug, CacheExpiration);
    ReferencesWriteThenHit(mid, faults, tagsKey, slug, TagsOf(answer.refs), slug, CacheExpiration);
  }

  /**
   * ErrNotFound with no references still records two empty sub-caches, so the next
   * cache-first ListReferences finds both and answers ErrNotFound without a service call.
   */
  lemma NotFoundIsRecorded(entries: Entries, faults: set<string>, branchesKey: string, tagsKey: string, slug: Slug)
    requires branchesKey != tagsKey && branchesKey !in faults && tagsKey !in faults
    ensures var after := AfterReferences(entries, false, branchesKey, tagsKey, Some(slug), Listing([], Some(NotFound)));
      && RetrieveReferences(after, faults, branchesKey, slug) == Ok([])
      && RetrieveReferences(after, faults, tagsKey, slug) == Ok([])
  {
    ReferencesRefreshThenHit(entries, faults, branchesKey, tagsKey, slug, Listing([], Some(NotFound)));
  }

  /**
   * Whatever the sub-caches and the fetch produce, the cache-first listing answers
   * ErrNotFound exactly when no hard error occurred and neither side has a reference.
   */
  lemma MergedNotFound(branches: seq<Reference>, tags: seq<Reference>, fetchErr: Option<Error>)
    ensures NonEmpty(Merged(branches, tags, fetchErr)).err == Some(NotFound) <==>
      !IsHardError(fetchErr) && branches == [] && tags == []
    ensures IsHardError(fetchErr) ==> NonEmpty(Merged(branches, tags, fetchErr)) == Listing([], fetchErr)
  {
    if !IsHardError(fetchErr) && (branches != [] || tags != []) {
      assert |branches + tags| > 0;
    }
  }
}
