/**
 * The older, single-tier cache of the common-go repository package: one class that reads
 * the store first and, on a miss, asks the wrapped service and writes a successful answer
 * back under the key the read used. A nil slug, ID or reference goes straight to the
 * service and nothing is written.
 */
module SingleTierCache {
  import opened Wrappers
  import opened Utf8
  import opened Identity
  import opened Codec
  import opened CacheStore
  import opened ServiceAdapter
  import opened CacheRules

  /** cacheExpiration, 15 minutes, in seconds. */
  const CacheExpiration: nat := 900

  class ServiceWithCache {
    const raw: Service
    const store: Store
    const namespace: string

    constructor (raw: Service, store: Store, namespace: string)
      ensures this.raw == raw && this.store == store && this.namespace == namespace
    {
      this.raw := raw;
      this.store := store;
      this.namespace := namespace;
    }

    function GetServiceName(): (r: string)
      ensures r == raw.serviceName
    {
      raw.serviceName
    }

    // What each read finds in the store; None sends it on to the service.

    function HitUserID(): Option<string>
      reads store
    {
      CachedUserID(store.entries, store.faults, UserIDKey(namespace))
    }

    function HitRepositoryBySlug(slug: Slug): Option<Repository>
      reads store
    {
      CachedRepositoryBySlug(store.entries, store.faults, RepositoryBySlugKey(namespace, slug.Hash()), slug)
    }

    function HitRepositoryByID(id: ID): Option<Repository>
      reads store
    {
      CachedRepositoryByID(store.entries, store.faults, RepositoryByIDKey(namespace, id.Hash()), id)
    }

    function HitRepositories(): Option<seq<Repository>>
      reads store
    {
      CachedRepositories(store.entries, store.faults, RepositoriesKey(namespace))
    }

    function HitCommitID(slug: Slug, ref: Reference): Option<string>
      reads store
    {
      CachedCommitID(store.entries, store.faults, CommitIDKey(namespace, slug.Hash(), ref.Hash()), slug, ref)
    }

    method GetUserID() returns (r: Result<string, Error>)
      modifies raw, store
      ensures old(HitUserID()).Some? ==>
        r == Ok(old(HitUserID()).value) && raw.calls == old(raw.calls) && store.entries == old(store.entries)
      ensures old(HitUserID()).None? ==>
        && r == raw.answers.userID
        && raw.calls == old(raw.calls) + [GetUserIDCall]
        && store.entries == AfterUserID(old(store.entries), store.failWrites, CacheExpiration, UserIDKey(namespace), r)
    {
      var key := UserIDKey(namespace);
      var item := store.Get(key);
      if item.Ok? {
        return Ok(Decode(item.value.value));
      }
      r := raw.GetUserID();
      if r.Err? {
        return;
      }
      store.Set(Item(key, Encode(r.value), CacheExpiration));
    }

    method GetRepositoryBySlug(slug: Option<Slug>) returns (r: Result<Repository, Error>)
      modifies raw, store
      ensures slug.None? ==>
        r == raw.answers.repositoryBySlug(None) && raw.calls == old(raw.calls) + [GetRepositoryBySlugCall(None)]
        && store.entries == old(store.entries)
      ensures slug.Some? && old(HitRepositoryBySlug(slug.value)).Some? ==>
        r == Ok(old(HitRepositoryBySlug(slug.value)).value) && raw.calls == old(raw.calls) && store.entries == old(store.entries)
      ensures slug.Some? && old(HitRepositoryBySlug(slug.value)).None? ==>
        && r == raw.answers.repositoryBySlug(slug)
        && raw.calls == old(raw.calls) + [GetRepositoryBySlugCall(slug)]
        && store.entries == AfterRepository(old(store.entries), store.failWrites, CacheExpiration, RepositoryBySlugKey(namespace, slug.value.Hash()), r)
    {
      if slug.None? {
        r := raw.GetRepositoryBySlug(slug);
        return;
      }
      var key := RepositoryBySlugKey(namespace, slug.value.Hash());
      var item := store.Get(key);
      if item.Ok? {
        var repo := RepositoryFromItem(Some(item.value));
        if repo.Some? && repo.value.slug == slug.value {
          return Ok(repo.value);
        }
      }
      r := raw.GetRepositoryBySlug(slug);
      StoreRepository(key, r);
    }

    method GetRepositoryByID(id: Option<ID>) returns (r: Result<Repository, Error>)
      modifies raw, store
      ensures id.None? ==>
        r == raw.answers.repositoryByID(None) && raw.calls == old(raw.calls) + [GetRepositoryByIDCall(None)]
        && store.entries == old(store.entries)
      ensures id.Some? && old(HitRepositoryByID(id.value)).Some? ==>
        r == Ok(old(HitRepositoryByID(id.value)).value) && raw.calls == old(raw.calls) && store.entries == old(store.entries)
      ensures id.Some? && old(HitRepositoryByID(id.value)).None? ==>
        && r == raw.answers.repositoryByID(id)
        && raw.calls == old(raw.calls) + [GetRepositoryByIDCall(id)]
        && store.entries == AfterRepository(old(store.entries), store.failWrites, CacheExpiration, RepositoryByIDKey(namespace, id.value.Hash()), r)
    {
      if id.None? {
        r := raw.GetRepositoryByID(id);
        return;
      }
      var key := RepositoryByIDKey(namespace, id.value.Hash());
      var item := store.Get(key);
      if item.Ok? {
        var repo := RepositoryFromItem(Some(item.value));
        if repo.Some? && repo.value.id == id.value {
          return Ok(repo.value);
        }
      }
      r := raw.GetRepositoryByID(id);
      StoreRepository(key, r);
    }

    method ListRepositories() returns (r: Result<Option<seq<Repository>>, Error>)
      modifies raw, store
      ensures old(HitRepositories()).Some? ==>
        r == Ok(old(HitRepositories())) && raw.calls == old(raw.calls) && store.entries == old(store.entries)
      ensures old(HitRepositories()).None? ==>
        && r == raw.answers.repositories
        && raw.calls == old(raw.calls) + [ListRepositoriesCall]
        && store.entries == AfterRepositories(old(store.entries), store.failWrites, CacheExpiration, RepositoriesKey(namespace), r)
    {
      var key := RepositoriesKey(namespace);
      var item := store.Get(key);
      if item.Ok? {
        var repos := RepositoriesFromItem(Some(item.value));
        if repos.Some? {
          return Ok(repos);
        }
      }
      r := raw.ListRepositories();
      StoreRepositories(key, r);
    }

    method GetCommitID(slug: Option<Slug>, ref: Option<Reference>) returns (r: Result<string, Error>)
      modifies raw, store
      ensures slug.None? || ref.None? ==>
        r == raw.answers.commitID(slug, ref) && raw.calls == old(raw.calls) + [GetCommitIDCall(slug, ref)]
        && store.entries == old(store.entries)
      ensures slug.Some? && ref.Some? && old(HitCommitID(slug.value, ref.value)).Some? ==>
        r == Ok(old(HitCommitID(slug.value, ref.value)).value) && raw.calls == old(raw.calls) && store.entries == old(store.entries)
      ensures slug.Some? && ref.Some? && old(HitCommitID(slug.value, ref.value)).None? ==>
        && r == raw.answers.commitID(slug, ref)
        && raw.calls == old(raw.calls) + [GetCommitIDCall(slug, ref)]
        && store.entries == AfterCommitID(old(store.entries), store.failWrites, CacheExpiration, CommitIDKey(namespace, slug.value.Hash(), ref.value.Hash()), slug, ref, r)
    {
      if slug.None? || ref.None? {
        r := raw.GetCommitID(slug, ref);
        return;
      }
      var key := CommitIDKey(namespace, slug.value.Hash(), ref.value.Hash());
      var item := store.Get(key);
      if item.Ok? {
        var c := CommitFromItem(Some(item.value));
        if c.Some? && c.value.slug == slug.value && c.value.ref == ref.value {
          return Ok(c.value.id);
        }
      }
      r := raw.GetCommitID(slug, ref);
      StoreCommitID(key, slug, ref, r);
    }

    // The best-effort writes after a miss: a successful answer is stored, an error writes nothing.

    method StoreRepository(key: string, answer: Result<Repository, Error>)
      modifies store
      ensures store.entries == AfterRepository(old(store.entries), store.failWrites, CacheExpiration, key, answer)
    {
      if answer.Ok? {
        store.Set(Item(key, EncodeRepository(answer.value), CacheExpiration));
      }
    }

    method StoreRepositories(key: string, answer: Result<Option<seq<Repository>>, Error>)
      modifies store
      ensures store.entries == AfterRepositories(old(store.entries), store.failWrites, CacheExpiration, key, answer)
    {
      if answer.Ok? {
        store.Set(Item(key, EncodeRepositories(answer.value), CacheExpiration));
      }
    }

    method StoreCommitID(key: string, slug: Option<Slug>, ref: Option<Reference>, answer: Result<string, Error>)
      requires answer.Ok? ==> slug.Some? && ref.Some?
      modifies store
      ensures store.entries == AfterCommitID(old(store.entries), store.failWrites, CacheExpiration, key, slug, ref, answer)
    {
      if answer.Ok? {
        store.Set(Item(key, EncodeCommit(CommitEnvelope(slug.value, ref.value, answer.value)), CacheExpiration));
      }
    }

    // The deploy-key and webhook operations go to the service and never touch the store.

    method RegisterDeployKey(slug: Option<Slug>, publicKey: string, title: string) returns (r: Result<DeployKey, Error>)
      modifies raw
      ensures r == raw.answers.registerDeployKey(slug, publicKey, title)
      ensures raw.calls == old(raw.calls) + [RegisterDeployKeyCall(slug, publicKey, title)]
      ensures store.entries == old(store.entries)
    {
      r := raw.RegisterDeployKey(slug, publicKey, title);
    }

    method UnregisterDeployKey(slug: Option<Slug>, deployKey: Option<DeployKey>) returns (r: Outcome<Error>)
      modifies raw
      ensures r == raw.answers.unregisterDeployKey(slug, deployKey)
      ensures raw.calls == old(raw.calls) + [UnregisterDeployKeyCall(slug, deployKey)]
      ensures store.entries == old(store.entries)
    {
      r := raw.UnregisterDeployKey(slug, deployKey);
    }

    method ExistsDeployKey(slug: Option<Slug>, deployKey: Option<DeployKey>) returns (r: Result<bool, Error>)
      modifies raw
      ensures r == raw.answers.existsDeployKey(slug, deployKey)
      ensures raw.calls == old(raw.calls) + [ExistsDeployKeyCall(slug, deployKey)]
      ensures store.entries == old(store.entries)
    {
      r := raw.ExistsDeployKey(slug, deployKey);
    }

    method RegisterWebhook(slug: Option<Slug>, hookURL: string) returns (r: Result<Webhook, Error>)
      modifies raw
      ensures r == raw.answers.registerWebhook(slug, hookURL)
      ensures raw.calls == old(raw.calls) + [RegisterWebhookCall(slug, hookURL)]
      ensures store.entries == old(store.entries)
    {
      r := raw.RegisterWebhook(slug, hookURL);
    }

    method UnregisterWebhook(slug: Option<Slug>, webhook: Option<Webhook>) returns (r: Outcome<Error>)
      modifies raw
      ensures r == raw.answers.unregisterWebhook(slug, webhook)
      ensures raw.calls == old(raw.calls) + [UnregisterWebhookCall(slug, webhook)]
      ensures store.entries == old(store.entries)
    {
      r := raw.UnregisterWebhook(slug, webhook);
    }

    method ExistsWebhook(slug: Option<Slug>, webhook: Option<Webhook>) returns (r: Result<bool, Error>)
      modifies raw
      ensures r == raw.answers.existsWebhook(slug, webhook)
      ensures raw.calls == old(raw.calls) + [ExistsWebhookCall(slug, webhook)]
      ensures store.entries == old(store.entries)
    {
      r := raw.ExistsWebhook(slug, webhook);
    }
  }

  /** NewServiceWithCache: both collaborators are required; the cache key may be empty. */
  method NewServiceWithCache(service: Service?, cacheStore: Store?, cacheKey: string) returns (r: Result<ServiceWithCache, Error>)
    ensures service == null ==> r == Err(Failure("no repository service specified"))
    ensures service != null && cacheStore == null ==> r == Err(Failure("no cache store specified"))
    ensures r.Ok? <==> service != null && cacheStore != null
    ensures r.Ok? ==> fresh(r.value) && r.value.raw == service && r.value.store == cacheStore
    ensures r.Ok? ==> r.value.namespace == Namespace(service.serviceName, cacheKey)
  {
    if service == null {
      return Err(Failure("no repository service specified"));
    }
    if cacheStore == null {
      return Err(Failure("no cache store specified"));
    }
    var s := new ServiceWithCache(service, cacheStore, Namespace(service.serviceName, cacheKey));
    return Ok(s);
  }
}
