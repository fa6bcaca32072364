/**
 * The in-memory repository service used in tests: virtual repositories (members, branches,
 * tags, deploy keys and webhooks, with a counter that numbers new keys and hooks), a store
 * of them keyed by slug, and the service's default operations over that store for the
 * authenticated user.
 */
module RepositoryFake {
  import opened Wrappers
  import opened Identity
  import Decimal

  const ServiceName: string := "mock"
  const NoSuchReference: Error := Failure("repositorytest: no such reference")

  /** The name has been handed out as a decimal ID no larger than last. */
  ghost predicate IssuedBefore(name: string, last: nat) {
    exists n: nat :: 1 <= n <= last && name == Decimal.IntToString(n)
  }

  /** The rendering of the next counter value was never handed out. */
  lemma NextIDIsFresh(name: string, last: nat)
    requires IssuedBefore(name, last)
    ensures name != Decimal.IntToString(last + 1)
  {
    var n: nat :| 1 <= n <= last && name == Decimal.IntToString(n);
    if name == Decimal.IntToString(last + 1) {
      Decimal.IntToStringInjective(n, last + 1);
    }
  }

  lemma IssuedBeforeGrows(name: string, last: nat)
    requires IssuedBefore(name, last)
    ensures IssuedBefore(name, last + 1)
  {
    var n: nat :| 1 <= n <= last && name == Decimal.IntToString(n);
    assert 1 <= n <= last + 1 && name == Decimal.IntToString(n);
  }

  /** Distinct names, listed once each: the result of walking a map's keys. */
  predicate ListsKeys(names: seq<string>, keys: set<string>) {
    (forall i :: 0 <= i < |names| ==> names[i] in keys)
    && (forall k :: k in keys ==> k in names)
    && (forall i, j :: 0 <= i < j < |names| ==> names[i] != names[j])
  }

  /** The keys of a map in an unspecified order. */
  method KeysOf(m: map<string, string>) returns (names: seq<string>)
    ensures ListsKeys(names, m.Keys)
    ensures |names| == |m|
  {
    names := [];
    var remaining := m.Keys;
    while remaining != {}
      invariant remaining <= m.Keys
      invariant |names| + |remaining| == |m|
      invariant forall i :: 0 <= i < |names| ==> names[i] in m && names[i] !in remaining
      invariant forall k :: k in m && k !in remaining ==> k in names
      invariant forall i, j :: 0 <= i < j < |names| ==> names[i] != names[j]
      decreases |remaining|
    {
      var k :| k in remaining;
      names := names + [k];
      remaining := remaining - {k};
    }
  }

  /** A fresh map with the same entries. */
  method CopyOf(m: map<string, string>) returns (c: map<string, string>)
    ensures c == m
  {
    c := map[];
    var remaining := m.Keys;
    while remaining != {}
      invariant remaining <= m.Keys
      invariant forall k :: k in c <==> k in m && k !in remaining
      invariant forall k :: k in c ==> c[k] == m[k]
      decreases |remaining|
    {
      var k :| k in remaining;
      c := c[k := m[k]];
      remaining := remaining - {k};
    }
  }

  /** References of one type named by the names, in their order. */
  method NamedReferences(refType: string, names: seq<string>) returns (refs: seq<Reference>)
    ensures |refs| == |names|
    ensures forall i :: 0 <= i < |refs| ==> refs[i] == Reference(refType, names[i])
  {
    refs := [];
    var i := 0;
    while i < |names|
      invariant 0 <= i <= |names|
      invariant |refs| == i
      invariant forall j :: 0 <= j < i ==> refs[j] == Reference(refType, names[j])
    {
      refs := refs + [Reference(refType, names[i])];
      i := i + 1;
    }
  }

  class VirtualRepository {
    var lastID: nat
    const slug: Slug
    const id: ID
    /** User ID to administrator flag. */
    var userIDs: map<string, bool>
    /** Branch name to head commit ID. */
    var branches: map<string, string>
    /** Tag name to commit ID. */
    var tags: map<string, string>
    var deployKeys: map<string, DeployKey>
    var webhooks: map<string, Webhook>

    /** Every key and hook is stored under its own ID, and that ID is one the counter handed out. */
    ghost predicate Valid()
      reads this
    {
      (forall k :: k in deployKeys ==> deployKeys[k].id == k && IssuedBefore(k, lastID))
      && (forall k :: k in webhooks ==> webhooks[k].id == k && IssuedBefore(k, lastID))
    }

    constructor (slug: Slug, id: ID)
      ensures this.slug == slug && this.id == id && lastID == 0
      ensures userIDs == map[] && branches == map[] && tags == map[] && deployKeys == map[] && webhooks == map[]
      ensures Valid()
    {
      this.slug := slug;
      this.id := id;
      lastID := 0;
      userIDs := map[];
      branches := map[];
      tags := map[];
      deployKeys := map[];
      webhooks := map[];
    }

    predicate IsUser(userID: string): (r: bool)
      reads this
      ensures r <==> userID in userIDs
    {
      userID in userIDs
    }

    /** A user who is not registered reads as the zero value, not an administrator. */
    predicate IsAdminUser(userID: string): (r: bool)
      reads this
      ensures r ==> IsUser(userID)
      ensures r <==> userID in userIDs && userIDs[userID]
    {
      userID in userIDs && userIDs[userID]
    }

    /** The repository as the user sees it. */
    function Detail(userID: string): (r: Repository)
      reads this
      ensures r.slug == slug && r.id == id
      ensures r.permissions.admin <==> IsUser(userID) && userIDs[userID]
    {
      Repository(slug, id, Permissions(IsAdminUser(userID)))
    }

    method RegisterUser(userID: string, admin: bool)
      modifies this
      ensures userIDs == old(userIDs)[userID := admin]
      ensures lastID == old(lastID) && branches == old(branches) && tags == old(tags)
      ensures deployKeys == old(deployKeys) && webhooks == old(webhooks)
    {
      userIDs := userIDs[userID := admin];
    }

    method RegisterBranch(name: string, headCommitID: string)
      modifies this
      ensures branches == old(branches)[name := headCommitID]
      ensures lastID == old(lastID) && userIDs == old(userIDs) && tags == old(tags)
      ensures deployKeys == old(deployKeys) && webhooks == old(webhooks)
    {
      branches := branches[name := headCommitID];
    }

    method RegisterTag(name: string, commitID: string)
      modifies this
      ensures tags == old(tags)[name := commitID]
      ensures lastID == old(lastID) && userIDs == old(userIDs) && branches == old(branches)
      ensures deployKeys == old(deployKeys) && webhooks == old(webhooks)
    {
      tags := tags[name := commitID];
    }

    /** A branch or a tag is registered by its type; a nil reference or any other type changes nothing. */
    method RegisterReference(ref: Option<Reference>, commitID: string)
      modifies this
      ensures ref.Some? && ref.value.IsBranch() ==> branches == old(branches)[ref.value.name := commitID] && tags == old(tags)
      ensures ref.Some? && ref.value.IsTag() ==> tags == old(tags)[ref.value.name := commitID] && branches == old(branches)
      ensures ref.None? || !(ref.value.IsBranch() || ref.value.IsTag()) ==> branches == old(branches) && tags == old(tags)
      ensures lastID == old(lastID) && userIDs == old(userIDs)
      ensures deployKeys == old(deployKeys) && webhooks == old(webhooks)
    {
      if ref.Some? {
        if ref.value.IsBranch() {
          RegisterBranch(ref.value.name, commitID);
        } else if ref.value.IsTag() {
          RegisterTag(ref.value.name, commitID);
        }
      }
    }

    method Branches() returns (names: seq<string>)
      ensures ListsKeys(names, branches.Keys) && |names| == |branches|
    {
      names := KeysOf(branches);
    }

    method Tags() returns (names: seq<string>)
      ensures ListsKeys(names, tags.Keys) && |names| == |tags|
    {
      names := KeysOf(tags);
    }

    method BranchCommitIDs() returns (commitIDs: map<string, string>)
      ensures commitIDs == branches
    {
      commitIDs := CopyOf(branches);
    }

    method TagCommitIDs() returns (commitIDs: map<string, string>)
      ensures commitIDs == tags
    {
      commitIDs := CopyOf(tags);
    }

    /** Every branch, then every tag, each once. */
    method References() returns (refs: seq<Reference>)
      ensures |refs| == |branches| + |tags|
      ensures forall i :: 0 <= i < |refs| ==> (refs[i].refType == ReferenceTypeBranch) == (i < |branches|)
      ensures forall r :: r in refs <==>
        (r.refType == ReferenceTypeBranch && r.name in branches) || (r.refType == ReferenceTypeTag && r.name in tags)
      ensures forall i, j :: 0 <= i < j < |refs| ==> refs[i] != refs[j]
    {
      var branchNames := KeysOf(branches);
      var tagNames := KeysOf(tags);
      var branchRefs := NamedReferences(ReferenceTypeBranch, branchNames);
      var tagRefs := NamedReferences(ReferenceTypeTag, tagNames);
      refs := branchRefs + tagRefs;
      forall r: Reference | (r.refType == ReferenceTypeBranch && r.name in branches) || (r.refType == ReferenceTypeTag && r.name in tags)
        ensures r in refs
      {
        if r.refType == ReferenceTypeBranch {
          var i :| 0 <= i < |branchNames| && branchNames[i] == r.name;
          assert refs[i] == r;
        } else {
          var i :| 0 <= i < |tagNames| && tagNames[i] == r.name;
          assert refs[|branchRefs| + i] == r;
        }
      }
    }

    method HasReference(ref: Option<Reference>) returns (found: bool)
      ensures found <==> (ref.Some? &&
        ((ref.value.refType == ReferenceTypeBranch && ref.value.name in branches)
         || (ref.value.refType == ReferenceTypeTag && ref.value.name in tags)))
    {
      found := false;
      if ref.None? {
        return;
      }
      var refs := References();
      var i := 0;
      while i < |refs|
        invariant 0 <= i <= |refs|
        invariant forall j :: 0 <= j < i ==> refs[j] != ref.value
      {
        if refs[i] == ref.value {
          return true;
        }
        i := i + 1;
      }
    }

    /** Each branch and each tag as a reference, with its commit ID. */
    method ReferenceCommitIDs() returns (commitIDs: map<Reference, string>)
      ensures forall r :: r in commitIDs <==>
        (r.refType == ReferenceTypeBranch && r.name in branches) || (r.refType == ReferenceTypeTag && r.name in tags)
      ensures forall r :: r in commitIDs && r.refType == ReferenceTypeBranch ==> commitIDs[r] == branches[r.name]
      ensures forall r :: r in commitIDs && r.refType == ReferenceTypeTag ==> commitIDs[r] == tags[r.name]
    {
      commitIDs := map[];
      var branchNames := KeysOf(branches);
      var i := 0;
      while i < |branchNames|
        invariant 0 <= i <= |branchNames|
        invariant forall r :: r in commitIDs <==> r.refType == ReferenceTypeBranch && r.name in branchNames[..i]
        invariant forall r :: r in commitIDs ==> commitIDs[r] == branches[r.name]
      {
        commitIDs := commitIDs[Reference(ReferenceTypeBranch, branchNames[i]) := branches[branchNames[i]]];
        i := i + 1;
      }
      assert branchNames[..i] == branchNames;
      var tagNames := KeysOf(tags);
      var j := 0;
      while j < |tagNames|
        invariant 0 <= j <= |tagNames|
        invariant forall r :: r in commitIDs <==>
          (r.refType == ReferenceTypeBranch && r.name in branches) || (r.refType == ReferenceTypeTag && r.name in tagNames[..j])
        invariant forall r :: r in commitIDs && r.refType == ReferenceTypeBranch ==> commitIDs[r] == branches[r.name]
        invariant forall r :: r in commitIDs && r.refType == ReferenceTypeTag ==> commitIDs[r] == tags[r.name]
      {
        commitIDs := commitIDs[Reference(ReferenceTypeTag, tagNames[j]) := tags[tagNames[j]]];
        j := j + 1;
      }
      assert tagNames[..j] == tagNames;
    }

    /** A deploy key numbered by the next counter value; its ID was never handed out before. */
    method NewDeployKey() returns (deployKey: DeployKey)
      requires Valid()
      modifies this
      ensures Valid()
      ensures lastID == old(lastID) + 1 && deployKey.id == Decimal.IntToString(lastID)
      ensures deployKey.id !in old(deployKeys) && deployKey.id !in old(webhooks)
      ensures deployKeys == old(deployKeys)[deployKey.id := deployKey]
      ensures userIDs == old(userIDs) && branches == old(branches) && tags == old(tags) && webhooks == old(webhooks)
    {
      FreshAfter(Decimal.IntToString(lastID + 1));
      lastID := lastID + 1;
      deployKey := DeployKey(Decimal.IntToString(lastID));
      deployKeys := deployKeys[deployKey.id := deployKey];
      assert IssuedBefore(deployKey.id, lastID);
    }

    /** A webhook numbered from the same counter as the deploy keys. */
    method NewWebhook() returns (webhook: Webhook)
      requires Valid()
      modifies this
      ensures Valid()
      ensures lastID == old(lastID) + 1 && webhook.id == Decimal.IntToString(lastID)
      ensures webhook.id !in old(deployKeys) && webhook.id !in old(webhooks)
      ensures webhooks == old(webhooks)[webhook.id := webhook]
      ensures userIDs == old(userIDs) && branches == old(branches) && tags == old(tags) && deployKeys == old(deployKeys)
    {
      FreshAfter(Decimal.IntToString(lastID + 1));
      lastID := lastID + 1;
      webhook := Webhook(Decimal.IntToString(lastID));
      webhooks := webhooks[webhook.id := webhook];
      assert IssuedBefore(webhook.id, lastID);
    }

    /** What Valid() gives before the counter moves: the next ID is unused and the others stay issued. */
    lemma FreshAfter(next: string)
      requires Valid() && next == Decimal.IntToString(lastID + 1)
      ensures next !in deployKeys && next !in webhooks
      ensures forall k :: k in deployKeys ==> IssuedBefore(k, lastID + 1)
      ensures forall k :: k in webhooks ==> IssuedBefore(k, lastID + 1)
    {
      if next in deployKeys {
        NextIDIsFresh(next, lastID);
      }
      if next in webhooks {
        NextIDIsFresh(next, lastID);
      }
      forall k | k in deployKeys ensures IssuedBefore(k, lastID + 1) {
        IssuedBeforeGrows(k, lastID);
      }
      forall k | k in webhooks ensures IssuedBefore(k, lastID + 1) {
        IssuedBeforeGrows(k, lastID);
      }
    }

    method DeleteDeployKey(deployKey: Option<DeployKey>) returns (err: Outcome<Error>)
      modifies this
      ensures err == Pass
      ensures deployKey.None? ==> deployKeys == old(deployKeys)
      ensures deployKey.Some? ==> deployKeys == old(deployKeys) - {deployKey.value.id}
      ensures lastID == old(lastID) && userIDs == old(userIDs) && branches == old(branches) && tags == old(tags)
      ensures webhooks == old(webhooks)
      ensures old(Valid()) ==> Valid()
    {
      if deployKey.Some? {
        deployKeys := deployKeys - {deployKey.value.id};
      }
      return Pass;
    }

    method DeleteWebhook(webhook: Option<Webhook>) returns (err: Outcome<Error>)
      modifies this
      ensures err == Pass
      ensures webhook.None? ==> webhooks == old(webhooks)
      ensures webhook.Some? ==> webhooks == old(webhooks) - {webhook.value.id}
      ensures lastID == old(lastID) && userIDs == old(userIDs) && branches == old(branches) && tags == old(tags)
      ensures deployKeys == old(deployKeys)
      ensures old(Valid()) ==> Valid()
    {
      if webhook.Some? {
        webhooks := webhooks - {webhook.value.id};
      }
      return Pass;
    }

    function DeployKeyByID(id: string): (r: Option<DeployKey>)
      reads this
      ensures r.Some? <==> id in deployKeys
      ensures Valid() && r.Some? ==> r.value.id == id
    {
      if id in deployKeys then Some(deployKeys[id]) else None
    }

    function WebhookByID(id: string): (r: Option<Webhook>)
      reads this
      ensures r.Some? <==> id in webhooks
      ensures Valid() && r.Some? ==> r.value.id == id
    {
      if id in webhooks then Some(webhooks[id]) else None
    }
  }

  /** Virtual repositories by slug. */
  class RepositoryStore {
    var repos: map<Slug, VirtualRepository>

    /** Each repository is filed under its own slug and keeps its own invariant. */
    ghost predicate Valid()
      reads this, repos.Values
    {
      forall s :: s in repos ==> repos[s].slug == s && repos[s].Valid()
    }

    constructor ()
      ensures repos == map[] && Valid()
    {
      repos := map[];
    }

    method Clear()
      modifies this
      ensures repos == map[] && Valid()
    {
      repos := map[];
    }

    /** A registered repository replaces the one with its slug; a nil repository changes nothing. */
    method RegisterRepository(repo: VirtualRepository?)
      requires Valid() && (repo != null ==> repo.Valid())
      modifies this
      ensures repo == null ==> repos == old(repos)
      ensures repo != null ==> repos == old(repos)[repo.slug := repo]
      ensures Valid()
    {
      if repo != null {
        repos := repos[repo.slug := repo];
      }
    }

    method UnregisterRepository(repo: VirtualRepository?)
      requires Valid()
      modifies this
      ensures repo == null ==> repos == old(repos)
      ensures repo != null ==> repos == old(repos) - {repo.slug}
      ensures Valid()
    {
      if repo != null {
        repos := repos - {repo.slug};
      }
    }

    function RepositoryBySlug(slug: Option<Slug>): (r: VirtualRepository?)
      reads this
      ensures r != null <==> slug.Some? && slug.value in repos
      ensures r != null ==> r == repos[slug.value]
    {
      if slug.Some? && slug.value in repos then repos[slug.value] else null
    }

    /** Some repository with the ID, when there is one; which one is left to the map's order. */
    method RepositoryByID(id: Option<ID>) returns (r: VirtualRepository?)
      ensures r != null ==> id.Some? && r in repos.Values && r.id == id.value
      ensures r == null ==> id.None? || forall s :: s in repos ==> repos[s].id != id.value
    {
      if id.None? {
        return null;
      }
      var remaining := repos.Keys;
      while remaining != {}
        invariant remaining <= repos.Keys
        invariant forall s :: s in repos && s !in remaining ==> repos[s].id != id.value
        decreases |remaining|
      {
        var s :| s in remaining;
        if repos[s].id == id.value {
          return repos[s];
        }
        remaining := remaining - {s};
      }
      return null;
    }
  }

  class Service {
    var userID: string
    const store: RepositoryStore

    constructor (userID: string, store: RepositoryStore)
      ensures this.userID == userID && this.store == store
    {
      this.userID := userID;
      this.store := store;
    }

    method SetUserID(userID: string)
      modifies this
      ensures this.userID == userID
    {
      this.userID := userID;
    }

    function GetServiceName(): (r: string)
      ensures r == ServiceName && r == "mock"
    {
      ServiceName
    }

    function GetUserID(): (r: Result<string, Error>)
      reads this
      ensures r.Ok?
    {
      Ok(userID)
    }

    /** The repository with the slug when the authenticated user is one of its users. */
    function UserRepositoryBySlug(slug: Option<Slug>): (r: VirtualRepository?)
      reads this, store, store.repos.Values
      ensures r != null <==> slug.Some? && slug.value in store.repos && store.repos[slug.value].IsUser(userID)
      ensures r != null ==> r == store.repos[slug.value]
    {
      var repo := store.RepositoryBySlug(slug);
      if repo != null && repo.IsUser(userID) then repo else null
    }

    method GetRepositoryBySlug(slug: Option<Slug>) returns (r: Result<Repository, Error>)
      ensures ValidateSlug(slug, ServiceName).Fail? ==> r == Err(ValidateSlug(slug, ServiceName).error)
      ensures ValidateSlug(slug, ServiceName).Pass? ==>
        r == if UserRepositoryBySlug(slug) == null then Err(NotFound) else Ok(UserRepositoryBySlug(slug).Detail(userID))
    {
      var valid := ValidateSlug(slug, GetServiceName());
      if valid.Fail? {
        return Err(valid.error);
      }
      var repo := UserRepositoryBySlug(slug);
      if repo == null {
        return Err(NotFound);
      }
      return Ok(repo.Detail(userID));
    }

    /** The user's view of a repository with the ID; NotFound when no such repository lets the user in. */
    method GetRepositoryByID(id: Option<ID>) returns (r: Result<Repository, Error>)
      ensures ValidateID(id, ServiceName).Fail? ==> r == Err(ValidateID(id, ServiceName).error)
      ensures ValidateID(id, ServiceName).Pass? ==> r.Ok? || r == Err(NotFound)
      ensures r.Ok? ==> exists s :: (s in store.repos && store.repos[s].id == id.value
        && store.repos[s].IsUser(userID) && r.value == store.repos[s].Detail(userID))
      ensures ValidateID(id, ServiceName).Pass? && (forall s :: s in store.repos && store.repos[s].id == id.value ==> !store.repos[s].IsUser(userID))
        ==> r == Err(NotFound)
    {
      var valid := ValidateID(id, GetServiceName());
      if valid.Fail? {
        return Err(valid.error);
      }
      var repo := store.RepositoryByID(id);
      if repo == null || !repo.IsUser(userID) {
        return Err(NotFound);
      }
      return Ok(repo.Detail(userID));
    }

    /** The user's view of every repository the user belongs to. */
    method ListRepositories() returns (r: Result<seq<Repository>, Error>)
      ensures r.Ok?
      ensures forall x :: x in r.value <==>
        exists s :: s in store.repos && store.repos[s].IsUser(userID) && x == store.repos[s].Detail(userID)
      ensures store.Valid() ==> forall i, j :: 0 <= i < j < |r.value| ==> r.value[i] != r.value[j]
    {
      var results: seq<Repository> := [];
      var remaining := store.repos.Keys;
      while remaining != {}
        invariant remaining <= store.repos.Keys
        invariant forall x :: x in results <==>
          exists s :: s in store.repos && s !in remaining && store.repos[s].IsUser(userID) && x == store.repos[s].Detail(userID)
        invariant store.Valid() ==> forall i, j :: 0 <= i < j < |results| ==> results[i] != results[j]
        invariant store.Valid() ==> forall i :: 0 <= i < |results| ==> results[i].slug !in remaining
        decreases |remaining|
      {
        var s :| s in remaining;
        var repo := store.repos[s];
        if repo.IsUser(userID) {
          results := results + [repo.Detail(userID)];
        }
        remaining := remaining - {s};
      }
      return Ok(results);
    }

    /** Branches then tags of an accessible repository; an inaccessible one lists nothing without error. */
    method ListReferences(slug: Option<Slug>) returns (r: Result<seq<Reference>, Error>)
      ensures ValidateSlug(slug, ServiceName).Fail? ==> r == Err(ValidateSlug(slug, ServiceName).error)
      ensures ValidateSlug(slug, ServiceName).Pass? && UserRepositoryBySlug(slug) == null ==> r == Ok([])
      ensures ValidateSlug(slug, ServiceName).Pass? && UserRepositoryBySlug(slug) != null ==>
        var repo := UserRepositoryBySlug(slug);
        if |repo.branches| + |repo.tags| == 0 then r == Err(NotFound)
        else (r.Ok? && |r.value| == |repo.branches| + |repo.tags|
          && forall x :: x in r.value <==>
            (x.refType == ReferenceTypeBranch && x.name in repo.branches) || (x.refType == ReferenceTypeTag && x.name in repo.tags))
    {
      var valid := ValidateSlug(slug, GetServiceName());
      if valid.Fail? {
        return Err(valid.error);
      }
      var repo := UserRepositoryBySlug(slug);
      if repo == null {
        return Ok([]);
      }
      var refs := repo.References();
      if |refs| == 0 {
        return Err(NotFound);
      }
      return Ok(refs);
    }

    method ListBranches(slug: Option<Slug>) returns (r: Result<seq<Reference>, Error>)
      ensures ValidateSlug(slug, ServiceName).Fail? ==> r == Err(ValidateSlug(slug, ServiceName).error)
      ensures ValidateSlug(slug, ServiceName).Pass? && UserRepositoryBySlug(slug) == null ==> r == Ok([])
      ensures ValidateSlug(slug, ServiceName).Pass? && UserRepositoryBySlug(slug) != null ==>
        var repo := UserRepositoryBySlug(slug);
        if |repo.branches| == 0 then r == Err(NotFound)
        else (r.Ok? && |r.value| == |repo.branches|
          && forall x :: x in r.value <==> x.refType == ReferenceTypeBranch && x.name in repo.branches)
    {
      var valid := ValidateSlug(slug, GetServiceName());
      if valid.Fail? {
        return Err(valid.error);
      }
      var repo := UserRepositoryBySlug(slug);
      if repo == null {
        return Ok([]);
      }
      var names := repo.Branches();
      var branches := NamedReferences(ReferenceTypeBranch, names);
      if |branches| == 0 {
        return Err(NotFound);
      }
      NamedListsKeys(ReferenceTypeBranch, names, branches, repo.branches.Keys);
      return Ok(branches);
    }

    method ListTags(slug: Option<Slug>) returns (r: Result<seq<Reference>, Error>)
      ensures ValidateSlug(slug, ServiceName).Fail? ==> r == Err(ValidateSlug(slug, ServiceName).error)
      ensures ValidateSlug(slug, ServiceName).Pass? && UserRepositoryBySlug(slug) == null ==> r == Ok([])
      ensures ValidateSlug(slug, ServiceName).Pass? && UserRepositoryBySlug(slug) != null ==>
        var repo := UserRepositoryBySlug(slug);
        if |repo.tags| == 0 then r == Err(NotFound)
        else (r.Ok? && |r.value| == |repo.tags|
          && forall x :: x in r.value <==> x.refType == ReferenceTypeTag && x.name in repo.tags)
    {
      var valid := ValidateSlug(slug, GetServiceName());
      if valid.Fail? {
        return Err(valid.error);
      }
      var repo := UserRepositoryBySlug(slug);
      if repo == null {
        return Ok([]);
      }
      var names := repo.Tags();
      var tags := NamedReferences(ReferenceTypeTag, names);
      if |tags| == 0 {
        return Err(NotFound);
      }
      NamedListsKeys(ReferenceTypeTag, names, tags, repo.tags.Keys);
      return Ok(tags);
    }

    /** The commit of a branch or a tag, looked up in the map of the reference's own type. */
    method GetCommitID(slug: Option<Slug>, ref: Option<Reference>) returns (r: Result<string, Error>)
      ensures ValidateSlug(slug, ServiceName).Fail? ==> r == Err(ValidateSlug(slug, ServiceName).error)
      ensures ValidateSlug(slug, ServiceName).Pass? && ValidateReference(ref).Fail? ==> r == Err(ValidateReference(ref).error)
      ensures ValidateSlug(slug, ServiceName).Pass? && ValidateReference(ref).Pass? ==>
        var repo := UserRepositoryBySlug(slug);
        var commitIDs := if repo == null then map[] else if ref.value.IsBranch() then repo.branches else repo.tags;
        r == if repo == null then Err(NotFound)
             else if ref.value.name in commitIDs then Ok(commitIDs[ref.value.name])
             else Err(NoSuchReference)
    {
      var valid := ValidateSlug(slug, GetServiceName());
      if valid.Fail? {
        return Err(valid.error);
      }
      valid := ValidateReference(ref);
      if valid.Fail? {
        return Err(valid.error);
      }
      var repo := UserRepositoryBySlug(slug);
      if repo == null {
        return Err(NotFound);
      }
      var commitIDs: map<string, string> := map[];
      if ref.value.IsBranch() {
        commitIDs := repo.BranchCommitIDs();
      } else if ref.value.IsTag() {
        commitIDs := repo.TagCommitIDs();
      }
      BranchXorTag(ref.value);
      if ref.value.name in commitIDs {
        return Ok(commitIDs[ref.value.name]);
      }
      return Err(NoSuchReference);
    }

    /** A new deploy key on an accessible repository, numbered by that repository's counter. */
    method RegisterDeployKey(slug: Option<Slug>, publicKey: string, title: string) returns (r: Result<DeployKey, Error>)
      requires store.Valid()
      modifies store.repos.Values
      ensures store.Valid()
      ensures ValidateSlug(slug, ServiceName).Fail? ==> r == Err(ValidateSlug(slug, ServiceName).error)
      ensures ValidateSlug(slug, ServiceName).Pass? && old(UserRepositoryBySlug(slug)) == null ==> r == Err(NotFound)
      ensures ValidateSlug(slug, ServiceName).Pass? && old(UserRepositoryBySlug(slug)) != null ==>
        var repo := old(UserRepositoryBySlug(slug));
        r.Ok? && repo.lastID == old(repo.lastID) + 1 && r.value.id == Decimal.IntToString(repo.lastID)
        && r.value.id !in old(repo.deployKeys) && repo.deployKeys == old(repo.deployKeys)[r.value.id := r.value]
        && repo.webhooks == old(repo.webhooks) && repo.userIDs == old(repo.userIDs)
        && repo.branches == old(repo.branches) && repo.tags == old(repo.tags)
      ensures forall x :: x in store.repos.Values && x != old(UserRepositoryBySlug(slug)) ==> unchanged(x)
      ensures r.Err? ==> forall x :: x in store.repos.Values ==> unchanged(x)
    {
      var valid := ValidateSlug(slug, GetServiceName());
      if valid.Fail? {
        return Err(valid.error);
      }
      var repo := UserRepositoryBySlug(slug);
      if repo == null {
        return Err(NotFound);
      }
      var deployKey := repo.NewDeployKey();
      return Ok(deployKey);
    }

    method UnregisterDeployKey(slug: Option<Slug>, deployKey: Option<DeployKey>) returns (err: Outcome<Error>)
      requires store.Valid()
      modifies store.repos.Values
      ensures store.Valid()
      ensures ValidateSlug(slug, ServiceName).Fail? ==> err == Fail(ValidateSlug(slug, ServiceName).error)
      ensures ValidateSlug(slug, ServiceName).Pass? && ValidateDeployKey(deployKey).Fail? ==> err == Fail(ValidateDeployKey(deployKey).error)
      ensures ValidateSlug(slug, ServiceName).Pass? && ValidateDeployKey(deployKey).Pass? ==>
        var repo := old(UserRepositoryBySlug(slug));
        if repo == null then err == Fail(NotFound)
        else (err == Pass && repo.deployKeys == old(repo.deployKeys) - {deployKey.value.id}
          && repo.webhooks == old(repo.webhooks) && repo.lastID == old(repo.lastID) && repo.userIDs == old(repo.userIDs)
          && repo.branches == old(repo.branches) && repo.tags == old(repo.tags))
      ensures forall x :: x in store.repos.Values && x != old(UserRepositoryBySlug(slug)) ==> unchanged(x)
      ensures err.Fail? ==> forall x :: x in store.repos.Values ==> unchanged(x)
    {
      var valid := ValidateSlug(slug, GetServiceName());
      if valid.Fail? {
        return Fail(valid.error);
      }
      valid := ValidateDeployKey(deployKey);
      if valid.Fail? {
        return Fail(valid.error);
      }
      var repo := UserRepositoryBySlug(slug);
      if repo == null {
        return Fail(NotFound);
      }
      err := repo.DeleteDeployKey(deployKey);
    }

    method ExistsDeployKey(slug: Option<Slug>, deployKey: Option<DeployKey>) returns (r: Result<bool, Error>)
      ensures ValidateSlug(slug, ServiceName).Fail? ==> r == Err(ValidateSlug(slug, ServiceName).error)
      ensures ValidateSlug(slug, ServiceName).Pass? && ValidateDeployKey(deployKey).Fail? ==> r == Err(ValidateDeployKey(deployKey).error)
      ensures ValidateSlug(slug, ServiceName).Pass? && ValidateDeployKey(deployKey).Pass? ==>
        var repo := UserRepositoryBySlug(slug);
        r == if repo == null then Err(NotFound) else Ok(deployKey.value.id in repo.deployKeys)
    {
      var valid := ValidateSlug(slug, GetServiceName());
      if valid.Fail? {
        return Err(valid.error);
      }
      valid := ValidateDeployKey(deployKey);
      if valid.Fail? {
        return Err(valid.error);
      }
      var repo := UserRepositoryBySlug(slug);
      if repo == null {
        return Err(NotFound);
      }
      return Ok(repo.DeployKeyByID(deployKey.value.id).Some?);
    }

    /** A new webhook on an accessible repository, numbered from the counter its deploy keys use. */
    method RegisterWebhook(slug: Option<Slug>, hookURL: string) returns (r: Result<Webhook, Error>)
      requires store.Valid()
      modifies store.repos.Values
      ensures store.Valid()
      ensures ValidateSlug(slug, ServiceName).Fail? ==> r == Err(ValidateSlug(slug, ServiceName).error)
      ensures ValidateSlug(slug, ServiceName).Pass? && old(UserRepositoryBySlug(slug)) == null ==> r == Err(NotFound)
      ensures ValidateSlug(slug, ServiceName).Pass? && old(UserRepositoryBySlug(slug)) != null ==>
        var repo := old(UserRepositoryBySlug(slug));
        r.Ok? && repo.lastID == old(repo.lastID) + 1 && r.value.id == Decimal.IntToString(repo.lastID)
        && r.value.id !in old(repo.webhooks) && repo.webhooks == old(repo.webhooks)[r.value.id := r.value]
        && repo.deployKeys == old(repo.deployKeys) && repo.userIDs == old(repo.userIDs)
        && repo.branches == old(repo.branches) && repo.tags == old(repo.tags)
      ensures forall x :: x in store.repos.Values && x != old(UserRepositoryBySlug(slug)) ==> unchanged(x)
      ensures r.Err? ==> forall x :: x in store.repos.Values ==> unchanged(x)
    {
      var valid := ValidateSlug(slug, GetServiceName());
      if valid.Fail? {
        return Err(valid.error);
      }
      var repo := UserRepositoryBySlug(slug);
      if repo == null {
        return Err(NotFound);
      }
      var webhook := repo.NewWebhook();
      return Ok(webhook);
    }

    method UnregisterWebhook(slug: Option<Slug>, webhook: Option<Webhook>) returns (err: Outcome<Error>)
      requires store.Valid()
      modifies store.repos.Values
      ensures store.Valid()
      ensures ValidateSlug(slug, ServiceName).Fail? ==> err == Fail(ValidateSlug(slug, ServiceName).error)
      ensures ValidateSlug(slug, ServiceName).Pass? && ValidateWebhook(webhook).Fail? ==> err == Fail(ValidateWebhook(webhook).error)
      ensures ValidateSlug(slug, ServiceName).Pass? && ValidateWebhook(webhook).Pass? ==>
        var repo := old(UserRepositoryBySlug(slug));
        if repo == null then err == Fail(NotFound)
        else (err == Pass && repo.webhooks == old(repo.webhooks) - {webhook.value.id}
          && repo.deployKeys == old(repo.deployKeys) && repo.lastID == old(repo.lastID) && repo.userIDs == old(repo.userIDs)
          && repo.branches == old(repo.branches) && repo.tags == old(repo.tags))
      ensures forall x :: x in store.repos.Values && x != old(UserRepositoryBySlug(slug)) ==> unchanged(x)
      ensures err.Fail? ==> forall x :: x in store.repos.Values ==> unchanged(x)
    {
      var valid := ValidateSlug(slug, GetServiceName());
      if valid.Fail? {
        return Fail(valid.error);
      }
      valid := ValidateWebhook(webhook);
      if valid.Fail? {
        return Fail(valid.error);
      }
      var repo := UserRepositoryBySlug(slug);
      if repo == null {
        return Fail(NotFound);
      }
      err := repo.DeleteWebhook(webhook);
    }

    method ExistsWebhook(slug: Option<Slug>, webhook: Option<Webhook>) returns (r: Result<bool, Error>)
      ensures ValidateSlug(slug, ServiceName).Fail? ==> r == Err(ValidateSlug(slug, ServiceName).error)
      ensures ValidateSlug(slug, ServiceName).Pass? && ValidateWebhook(webhook).Fail? ==> r == Err(ValidateWebhook(webhook).error)
      ensures ValidateSlug(slug, ServiceName).Pass? && ValidateWebhook(webhook).Pass? ==>
        var repo := UserRepositoryBySlug(slug);
        r == if repo == null then Err(NotFound) else Ok(webhook.value.id in repo.webhooks)
    {
      var valid := ValidateSlug(slug, GetServiceName());
      if valid.Fail? {
        return Err(valid.error);
      }
      valid := ValidateWebhook(webhook);
      if valid.Fail? {
        return Err(valid.error);
      }
      var repo := UserRepositoryBySlug(slug);
      if repo == null {
        return Err(NotFound);
      }
      return Ok(repo.WebhookByID(webhook.value.id).Some?);
    }
  }

  /** References built from a key listing list exactly those keys as references of the type. */
  lemma NamedListsKeys(refType: string, names: seq<string>, refs: seq<Reference>, keys: set<string>)
    requires ListsKeys(names, keys)
    requires |refs| == |names| && forall i :: 0 <= i < |refs| ==> refs[i] == Reference(refType, names[i])
    ensures forall x :: x in refs <==> x.refType == refType && x.name in keys
  {
    forall x: Reference | x.refType == refType && x.name in keys ensures x in refs {
      var i :| 0 <= i < |names| && names[i] == x.name;
      assert refs[i] == x;
    }
  }
}
