/**
 * The pure rules of the repository caches: the namespace every key starts with, the key of
 * each cached operation, the decoding of a cached item, the collision guard that decides
 * whether a cached item answers a request, and the split of a reference list into the
 * branches and the tags sub-caches.
 */
module CacheRules {
  import opened Wrappers
  import opened Utf8
  import opened Identity
  import opened Codec
  import opened CacheStore
  import Decimal
  import Text

  /** The prefix of every key a cache writes: the wrapped service's name, then the caller's key. */
  function Namespace(serviceName: string, cacheKey: string): string {
    "repository-service/" + serviceName + "/" + cacheKey
  }

  /** A hash value rendered with %d. */
  function HashText(h: nat): (r: string)
    ensures |r| > 0 && Decimal.AllDigits(r)
  {
    Decimal.NatToStringDigits(h);
    Decimal.NatToString(h)
  }

  function UserIDKey(ns: string): (r: string)
    ensures |r| > |ns| && r[..|ns|] == ns && r[|ns|..] == "/GetUserID"
  {
    ns + "/GetUserID"
  }

  /** The key of GetRepositoryBySlug for a slug whose hash is h. */
  function RepositoryBySlugKey(ns: string, h: nat): (r: string)
    ensures |r| > |ns| + |HashText(h)| && r[..|ns|] == ns && r[|r| - |HashText(h)|..] == HashText(h)
  {
    ns + "/GetRepositoryBySlug/" + HashText(h)
  }

  function RepositoryByIDKey(ns: string, h: nat): (r: string)
    ensures |r| > |ns| + |HashText(h)| && r[..|ns|] == ns && r[|r| - |HashText(h)|..] == HashText(h)
  {
    ns + "/GetRepositoryByID/" + HashText(h)
  }

  function RepositoriesKey(ns: string): (r: string)
    ensures |r| > |ns| && r[..|ns|] == ns && r[|ns|..] == "/ListRepositories"
  {
    ns + "/ListRepositories"
  }

  function BranchesKey(ns: string, h: nat): (r: string)
    ensures |r| > |ns| + |HashText(h)| && r[..|ns|] == ns && r[|r| - |HashText(h)|..] == HashText(h)
  {
    ns + "/ListBranches/" + HashText(h)
  }

  function TagsKey(ns: string, h: nat): (r: string)
    ensures |r| > |ns| + |HashText(h)| && r[..|ns|] == ns && r[|r| - |HashText(h)|..] == HashText(h)
  {
    ns + "/ListTags/" + HashText(h)
  }

  /** The key of GetCommitID for a slug hash hs and a reference hash hr. */
  function CommitIDKey(ns: string, hs: nat, hr: nat): (r: string)
    ensures |r| > |ns| + |HashText(hr)| && r[..|ns|] == ns && r[|r| - |HashText(hr)|..] == HashText(hr)
    ensures r[|r| - |HashText(hr)| - 1] == '/'
  {
    ns + "/GetCommitID/" + HashText(hs) + "/" + HashText(hr)
  }

  // The *FromCacheItem decoders: a nil item or bytes that do not unmarshal give nil.

  function RepositoryFromItem(item: Option<Item>): (r: Option<Repository>)
    ensures item.None? ==> r.None?
  {
    match item
    case None => None
    case Some(i) => DecodeRepository(i.value)
  }

  /** A cached nil list unmarshals to nil as well, and so is not an answer. */
  function RepositoriesFromItem(item: Option<Item>): (r: Option<seq<Repository>>)
    ensures item.None? ==> r.None?
  {
    match item
    case None => None
    case Some(i) =>
      match DecodeRepositories(i.value)
      case Some(Some(xs)) => Some(xs)
      case _ => None
  }

  function ReferencesFromItem(item: Option<Item>): (r: Option<ReferencesEnvelope>)
    ensures item.None? ==> r.None?
  {
    match item
    case None => None
    case Some(i) => DecodeReferences(i.value)
  }

  function CommitFromItem(item: Option<Item>): (r: Option<CommitEnvelope>)
    ensures item.None? ==> r.None?
  {
    match item
    case None => None
    case Some(i) => DecodeCommit(i.value)
  }

  // What a cache-first read finds: None sends the read on to the service.

  /** GetUserID trusts any item the store answers. */
  function CachedUserID(entries: Entries, faults: set<string>, key: string): (r: Option<string>)
    ensures r.Some? <==> Lookup(entries, faults, key).Ok?
  {
    match Lookup(entries, faults, key)
    case Ok(item) => Some(Decode(item.value))
    case Err(_) => None
  }

  /** The collision guard: a cached repository answers only the slug it carries. */
  function CachedRepositoryBySlug(entries: Entries, faults: set<string>, key: string, slug: Slug): (r: Option<Repository>)
    ensures r.Some? ==> r.value.slug == slug
    ensures r.Some? ==> Lookup(entries, faults, key).Ok?
  {
    match Lookup(entries, faults, key)
    case Err(_) => None
    case Ok(item) =>
      var repo := RepositoryFromItem(Some(item));
      if repo.Some? && repo.value.slug == slug then repo else None
  }

  function CachedRepositoryByID(entries: Entries, faults: set<string>, key: string, id: ID): (r: Option<Repository>)
    ensures r.Some? ==> r.value.id == id
    ensures r.Some? ==> Lookup(entries, faults, key).Ok?
  {
    match Lookup(entries, faults, key)
    case Err(_) => None
    case Ok(item) =>
      var repo := RepositoryFromItem(Some(item));
      if repo.Some? && repo.value.id == id then repo else None
  }

  /** A repository list is an answer only when it decodes to a non-nil list. */
  function CachedRepositories(entries: Entries, faults: set<string>, key: string): (r: Option<seq<Repository>>)
    ensures r.Some? ==> Lookup(entries, faults, key).Ok?
  {
    match Lookup(entries, faults, key)
    case Err(_) => None
    case Ok(item) => RepositoriesFromItem(Some(item))
  }

  /**
   * retrieveReferencesCache: a store error passes through; an item that does not decode,
   * or whose envelope carries another slug, is a miss; otherwise the listed references,
   * an empty list included.
   */
  function RetrieveReferences(entries: Entries, faults: set<string>, key: string, slug: Slug): (r: Result<seq<Reference>, Error>)
    ensures key in faults ==> r == Err(StoreFailure)
    ensures key !in faults ==> r.Err? ==> r.error == CacheMiss
    ensures r.Ok? ==> key in entries && ReferencesFromItem(Some(Item(key, entries[key].value, entries[key].expiration))) == Some(ReferencesEnvelope(slug, r.value))
  {
    match Lookup(entries, faults, key)
    case Err(e) => Err(e)
    case Ok(item) =>
      var refs := ReferencesFromItem(Some(item));
      if refs.None? || refs.value.slug != slug then Err(CacheMiss) else Ok(refs.value.refs)
  }

  /** A cached commit ID answers only the slug and reference its envelope carries. */
  function CachedCommitID(entries: Entries, faults: set<string>, key: string, slug: Slug, ref: Reference): (r: Option<string>)
    ensures r.Some? ==> Lookup(entries, faults, key).Ok?
    ensures r.Some? ==> CommitFromItem(Some(Lookup(entries, faults, key).value)) == Some(CommitEnvelope(slug, ref, r.value))
  {
    match Lookup(entries, faults, key)
    case Err(_) => None
    case Ok(item) =>
      var c := CommitFromItem(Some(item));
      if c.Some? && c.value.slug == slug && c.value.ref == ref then Some(c.value.id) else None
  }

  // separateReferences: branches first, then tags; other types are dropped.

  function BranchesOf(refs: seq<Reference>): (r: seq<Reference>)
    ensures |r| <= |refs|
    ensures forall i :: 0 <= i < |r| ==> r[i].IsBranch() && r[i] in refs
    decreases |refs|
  {
    if refs == [] then []
    else if refs[0].IsBranch() then [refs[0]] + BranchesOf(refs[1..])
    else BranchesOf(refs[1..])
  }

  function TagsOf(refs: seq<Reference>): (r: seq<Reference>)
    ensures |r| <= |refs|
    ensures forall i :: 0 <= i < |r| ==> r[i].IsTag() && r[i] in refs
    decreases |refs|
  {
    if refs == [] then []
    else if !refs[0].IsBranch() && refs[0].IsTag() then [refs[0]] + TagsOf(refs[1..])
    else TagsOf(refs[1..])
  }

  lemma {:induction false} BranchesOfAppend(xs: seq<Reference>, ys: seq<Reference>)
    ensures BranchesOf(xs + ys) == BranchesOf(xs) + BranchesOf(ys)
    ensures TagsOf(xs + ys) == TagsOf(xs) + TagsOf(ys)
    decreases |xs|
  {
    if xs == [] {
      assert xs + ys == ys;
    } else {
      assert (xs + ys)[0] == xs[0];
      assert (xs + ys)[1..] == xs[1..] + ys;
      BranchesOfAppend(xs[1..], ys);
    }
  }

  /** One more reference goes to the branches if it is a branch, else to the tags if it is a tag. */
  lemma BranchesOfSnoc(xs: seq<Reference>, x: Reference)
    ensures BranchesOf(xs + [x]) == BranchesOf(xs) + (if x.IsBranch() then [x] else [])
    ensures TagsOf(xs + [x]) == TagsOf(xs) + (if !x.IsBranch() && x.IsTag() then [x] else [])
  {
    BranchesOfAppend(xs, [x]);
    assert [x][1..] == [];
  }

  predicate KnownTypes(refs: seq<Reference>) {
    forall i :: 0 <= i < |refs| ==> refs[i].IsBranch() || refs[i].IsTag()
  }

  /** Nothing is lost in the split exactly when every reference is a branch or a tag. */
  lemma {:induction false} SeparationKeepsKnownTypes(refs: seq<Reference>)
    ensures |BranchesOf(refs)| + |TagsOf(refs)| <= |refs|
    ensures |BranchesOf(refs)| + |TagsOf(refs)| == |refs| <==> KnownTypes(refs)
    decreases |refs|
  {
    if refs != [] {
      var rest := refs[1..];
      SeparationKeepsKnownTypes(rest);
      assert KnownTypes(refs) <==> (refs[0].IsBranch() || refs[0].IsTag()) && KnownTypes(rest) by {
        assert forall i :: 0 < i < |refs| ==> refs[i] == rest[i - 1];
      }
      if refs[0].IsBranch() {
        assert BranchesOf(refs) == [refs[0]] + BranchesOf(rest) && TagsOf(refs) == TagsOf(rest);
      } else if refs[0].IsTag() {
        assert BranchesOf(refs) == BranchesOf(rest) && TagsOf(refs) == [refs[0]] + TagsOf(rest);
      } else {
        assert BranchesOf(refs) == BranchesOf(rest) && TagsOf(refs) == TagsOf(rest);
      }
    }
  }

  /** A list of branches splits into itself and no tags; a list of tags likewise. */
  lemma {:induction false} SeparateUniform(refs: seq<Reference>)
    ensures (forall i :: 0 <= i < |refs| ==> refs[i].IsBranch()) ==> BranchesOf(refs) == refs && TagsOf(refs) == []
    ensures (forall i :: 0 <= i < |refs| ==> refs[i].IsTag()) ==> TagsOf(refs) == refs && BranchesOf(refs) == []
    decreases |refs|
  {
    if refs != [] {
      SeparateUniform(refs[1..]);
      assert forall i :: 0 <= i < |refs[1..]| ==> refs[1..][i] == refs[i + 1];
      assert [refs[0]] + refs[1..] == refs;
    }
  }

  // Keys

  lemma PrefixCancel(p: string, x: string, y: string)
    requires p + x == p + y
    ensures x == y
  {
    assert x == (p + x)[|p|..];
    assert y == (p + y)[|p|..];
  }

  lemma HashTextInjective(a: nat, b: nat)
    requires HashText(a) == HashText(b)
    ensures a == b
  {
    assert Decimal.IntToString(a) == HashText(a);
    assert Decimal.IntToString(b) == HashText(b);
    Decimal.IntToStringInjective(a, b);
  }

  /** Slugs share a repository key exactly when their hashes are equal; IDs likewise. */
  lemma HashedKeysCollide(ns: string, a: nat, b: nat)
    ensures RepositoryBySlugKey(ns, a) == RepositoryBySlugKey(ns, b) <==> a == b
    ensures RepositoryByIDKey(ns, a) == RepositoryByIDKey(ns, b) <==> a == b
    ensures BranchesKey(ns, a) == BranchesKey(ns, b) <==> a == b
    ensures TagsKey(ns, a) == TagsKey(ns, b) <==> a == b
  {
    if RepositoryBySlugKey(ns, a) == RepositoryBySlugKey(ns, b) {
      PrefixCancel(ns + "/GetRepositoryBySlug/", HashText(a), HashText(b));
      HashTextInjective(a, b);
    }
    if RepositoryByIDKey(ns, a) == RepositoryByIDKey(ns, b) {
      PrefixCancel(ns + "/GetRepositoryByID/", HashText(a), HashText(b));
      HashTextInjective(a, b);
    }
    if BranchesKey(ns, a) == BranchesKey(ns, b) {
      PrefixCancel(ns + "/ListBranches/", HashText(a), HashText(b));
      HashTextInjective(a, b);
    }
    if TagsKey(ns, a) == TagsKey(ns, b) {
      PrefixCancel(ns + "/ListTags/", HashText(a), HashText(b));
      HashTextInjective(a, b);
    }
  }

  lemma NoSlashInDigits(s: string)
    requires Decimal.AllDigits(s)
    ensures !Text.Contains(s, '/')
  {
    forall i | 0 <= i < |s| ensures s[i] != '/' {
      assert Decimal.IsDigit(s[i]);
    }
  }

  /** Two digit strings joined by a slash can be told apart again. */
  lemma SlashPairInjective(a1: string, b1: string, a2: string, b2: string)
    requires Decimal.AllDigits(a1) && Decimal.AllDigits(b1) && Decimal.AllDigits(a2) && Decimal.AllDigits(b2)
    requires a1 + "/" + b1 == a2 + "/" + b2
    ensures a1 == a2 && b1 == b2
  {
    NoSlashInDigits(a1); NoSlashInDigits(b1); NoSlashInDigits(a2); NoSlashInDigits(b2);
    assert [a1, b1][1..] == [b1];
    assert [a2, b2][1..] == [b2];
    assert Text.Join([a1, b1], '/') == a1 + "/" + b1;
    assert Text.Join([a2, b2], '/') == a2 + "/" + b2;
    Text.JoinSplit([a1, b1], '/');
    Text.JoinSplit([a2, b2], '/');
  }

  /** Two lookups share a commit key exactly when both the slug hashes and the reference hashes are equal. */
  lemma CommitIDKeyCollides(ns: string, s1: nat, r1: nat, s2: nat, r2: nat)
    ensures CommitIDKey(ns, s1, r1) == CommitIDKey(ns, s2, r2) <==> s1 == s2 && r1 == r2
  {
    var p := ns + "/GetCommitID/";
    var a1, b1, a2, b2 := HashText(s1), HashText(r1), HashText(s2), HashText(r2);
    assert CommitIDKey(ns, s1, r1) == p + (a1 + "/" + b1);
    assert CommitIDKey(ns, s2, r2) == p + (a2 + "/" + b2);
    if CommitIDKey(ns, s1, r1) == CommitIDKey(ns, s2, r2) {
      PrefixCancel(p, a1 + "/" + b1, a2 + "/" + b2);
      SlashPairInjective(a1, b1, a2, b2);
      HashTextInjective(s1, s2);
      HashTextInjective(r1, r2);
    }
  }

  /** The character at offset k of a literal that follows the namespace. */
  lemma CharAfterNamespace(ns: string, lit: string, rest: string, k: nat)
    requires k < |lit|
    ensures (ns + lit + rest)[|ns| + k] == lit[k]
  {
  }

  /** Keys whose literals differ at some offset differ. */
  lemma LiteralsDiffer(ns: string, lit1: string, rest1: string, lit2: string, rest2: string, k: nat)
    requires k < |lit1| && k < |lit2| && lit1[k] != lit2[k]
    ensures ns + lit1 + rest1 != ns + lit2 + rest2
  {
    CharAfterNamespace(ns, lit1, rest1, k);
    CharAfterNamespace(ns, lit2, rest2, k);
  }

  /** The keys of different operations never coincide, whatever the hashes in them. */
  lemma KeysOfOperationsDiffer(ns: string, h1: nat, h2: nat, h3: nat)
    ensures BranchesKey(ns, h1) != TagsKey(ns, h2)
    ensures RepositoryBySlugKey(ns, h1) != RepositoryByIDKey(ns, h2)
    ensures RepositoryBySlugKey(ns, h1) != CommitIDKey(ns, h2, h3)
    ensures RepositoryByIDKey(ns, h1) != CommitIDKey(ns, h2, h3)
    ensures UserIDKey(ns) != RepositoriesKey(ns)
    ensures UserIDKey(ns) != RepositoryBySlugKey(ns, h1) && UserIDKey(ns) != RepositoryByIDKey(ns, h1)
    ensures UserIDKey(ns) != CommitIDKey(ns, h2, h3)
    ensures RepositoriesKey(ns) != BranchesKey(ns, h1) && RepositoriesKey(ns) != TagsKey(ns, h2)
  {
    var t1, t2 := HashText(h1), HashText(h2);
    var tc := t2 + "/" + HashText(h3);
    assert CommitIDKey(ns, h2, h3) == ns + "/GetCommitID/" + tc;
    assert UserIDKey(ns) == ns + "/GetUserID" + "";
    assert RepositoriesKey(ns) == ns + "/ListRepositories" + "";
    LiteralsDiffer(ns, "/ListBranches/", t1, "/ListTags/", t2, 5);
    LiteralsDiffer(ns, "/GetRepositoryBySlug/", t1, "/GetRepositoryByID/", t2, 16);
    LiteralsDiffer(ns, "/GetRepositoryBySlug/", t1, "/GetCommitID/", tc, 4);
    LiteralsDiffer(ns, "/GetRepositoryByID/", t1, "/GetCommitID/", tc, 4);
    LiteralsDiffer(ns, "/GetUserID", "", "/ListRepositories", "", 1);
    LiteralsDiffer(ns, "/GetUserID", "", "/GetRepositoryBySlug/", t1, 4);
    LiteralsDiffer(ns, "/GetUserID", "", "/GetRepositoryByID/", t1, 4);
    LiteralsDiffer(ns, "/GetUserID", "", "/GetCommitID/", tc, 4);
    LiteralsDiffer(ns, "/ListRepositories", "", "/ListBranches/", t1, 5);
    LiteralsDiffer(ns, "/ListRepositories", "", "/ListTags/", t2, 5);
  }

  /** A list key and a get key never coincide. */
  lemma ListKeysDifferFromGetKeys(ns: string, h1: nat, h2: nat, h3: nat)
    ensures BranchesKey(ns, h1) != RepositoryBySlugKey(ns, h2) && TagsKey(ns, h1) != RepositoryBySlugKey(ns, h2)
    ensures BranchesKey(ns, h1) != RepositoryByIDKey(ns, h2) && TagsKey(ns, h1) != RepositoryByIDKey(ns, h2)
    ensures BranchesKey(ns, h1) != CommitIDKey(ns, h2, h3) && TagsKey(ns, h1) != CommitIDKey(ns, h2, h3)
    ensures BranchesKey(ns, h1) != UserIDKey(ns) && TagsKey(ns, h1) != UserIDKey(ns)
    ensures RepositoriesKey(ns) != RepositoryBySlugKey(ns, h2) && RepositoriesKey(ns) != RepositoryByIDKey(ns, h2)
    ensures RepositoriesKey(ns) != CommitIDKey(ns, h2, h3)
  {
    var t1, t2 := HashText(h1), HashText(h2);
    var tc := t2 + "/" + HashText(h3);
    assert CommitIDKey(ns, h2, h3) == ns + "/GetCommitID/" + tc;
    assert UserIDKey(ns) == ns + "/GetUserID" + "";
    assert RepositoriesKey(ns) == ns + "/ListRepositories" + "";
    LiteralsDiffer(ns, "/ListBranches/", t1, "/GetRepositoryBySlug/", t2, 1);
    LiteralsDiffer(ns, "/ListTags/", t1, "/GetRepositoryBySlug/", t2, 1);
    LiteralsDiffer(ns, "/ListBranches/", t1, "/GetRepositoryByID/", t2, 1);
    LiteralsDiffer(ns, "/ListTags/", t1, "/GetRepositoryByID/", t2, 1);
    LiteralsDiffer(ns, "/ListBranches/", t1, "/GetCommitID/", tc, 1);
    LiteralsDiffer(ns, "/ListTags/", t1, "/GetCommitID/", tc, 1);
    LiteralsDiffer(ns, "/ListBranches/", t1, "/GetUserID", "", 1);
    LiteralsDiffer(ns, "/ListTags/", t1, "/GetUserID", "", 1);
    LiteralsDiffer(ns, "/ListRepositories", "", "/GetRepositoryBySlug/", t2, 1);
    LiteralsDiffer(ns, "/ListRepositories", "", "/GetRepositoryByID/", t2, 1);
    LiteralsDiffer(ns, "/ListRepositories", "", "/GetCommitID/", tc, 1);
  }

  // The store after a read that asks the service, given the key, the expiration and the answer.

  /** The keys of `entries` outside `keys` are present in `after` with the same entry, and nothing else is added. */
  predicate OnlyChanged(entries: Entries, after: Entries, keys: set<string>) {
    && after.Keys <= entries.Keys + keys
    && forall k :: k in entries && k !in keys ==> k in after && after[k] == entries[k]
  }

  function AfterUserID(entries: Entries, failWrites: bool, expiration: nat, key: string, answer: Result<string, Error>): (r: Entries)
    ensures answer.Err? || failWrites ==> r == entries
    ensures OnlyChanged(entries, r, {key})
  {
    if answer.Err? then entries
    else Stored(entries, failWrites, Item(key, Encode(answer.value), expiration))
  }

  /** Both GetRepositoryBySlug and GetRepositoryByID store the repository itself. */
  function AfterRepository(entries: Entries, failWrites: bool, expiration: nat, key: string, answer: Result<Repository, Error>): (r: Entries)
    ensures answer.Err? || failWrites ==> r == entries
    ensures OnlyChanged(entries, r, {key})
  {
    if answer.Err? then entries
    else Stored(entries, failWrites, Item(key, EncodeRepository(answer.value), expiration))
  }

  function AfterRepositories(entries: Entries, failWrites: bool, expiration: nat, key: string, answer: Result<Option<seq<Repository>>, Error>): (r: Entries)
    ensures answer.Err? || failWrites ==> r == entries
    ensures OnlyChanged(entries, r, {key})
  {
    if answer.Err? then entries
    else Stored(entries, failWrites, Item(key, EncodeRepositories(answer.value), expiration))
  }

  function AfterCommitID(entries: Entries, failWrites: bool, expiration: nat, key: string, slug: Option<Slug>, ref: Option<Reference>, answer: Result<string, Error>): (r: Entries)
    requires answer.Ok? ==> slug.Some? && ref.Some?
    ensures answer.Err? || failWrites ==> r == entries
    ensures OnlyChanged(entries, r, {key})
  {
    if answer.Err? then entries
    else Stored(entries, failWrites, Item(key, EncodeCommit(CommitEnvelope(slug.value, ref.value, answer.value)), expiration))
  }

  // Writing a value and reading it back

  /** GetUserID reads back exactly the ID whose bytes were stored. */
  lemma UserIDWriteThenHit(entries: Entries, faults: set<string>, key: string, userID: string, e: nat)
    requires key !in faults
    ensures CachedUserID(AfterUserID(entries, false, e, key, Ok(userID)), faults, key) == Some(userID)
  {
    DecodeEncode(userID);
  }

  /** A stored repository answers a slug exactly when it carries that slug. */
  lemma RepositoryBySlugWriteThenHit(entries: Entries, faults: set<string>, key: string, slug: Slug, repo: Repository, e: nat)
    requires key !in faults
    ensures CachedRepositoryBySlug(AfterRepository(entries, false, e, key, Ok(repo)), faults, key, slug)
            == if repo.slug == slug then Some(repo) else None
  {
    RepositoryRoundTrip(repo);
  }

  lemma RepositoryByIDWriteThenHit(entries: Entries, faults: set<string>, key: string, id: ID, repo: Repository, e: nat)
    requires key !in faults
    ensures CachedRepositoryByID(AfterRepository(entries, false, e, key, Ok(repo)), faults, key, id)
            == if repo.id == id then Some(repo) else None
  {
    RepositoryRoundTrip(repo);
  }

  /** A stored non-nil list is read back; a stored nil list stays a miss. */
  lemma RepositoriesWriteThenHit(entries: Entries, faults: set<string>, key: string, repos: Option<seq<Repository>>, e: nat)
    requires key !in faults
    ensures CachedRepositories(AfterRepositories(entries, false, e, key, Ok(repos)), faults, key) == repos
  {
    RepositoriesRoundTrip(repos);
  }

  /** A stored envelope answers exactly the slug it was stored for, an empty list included. */
  lemma ReferencesWriteThenHit(entries: Entries, faults: set<string>, key: string, stored: Slug, refs: seq<Reference>, slug: Slug, e: nat)
    requires key !in faults
    ensures RetrieveReferences(entries[key := Entry(EncodeReferences(ReferencesEnvelope(stored, refs)), e)], faults, key, slug)
            == if stored == slug then Ok(refs) else Err(CacheMiss)
  {
    ReferencesRoundTrip(ReferencesEnvelope(stored, refs));
  }

  /** A stored commit ID answers exactly the slug and reference it was stored for. */
  lemma CommitIDWriteThenHit(entries: Entries, faults: set<string>, key: string, stored: Slug, storedRef: Reference, id: string, slug: Slug, ref: Reference, e: nat)
    requires key !in faults
    ensures CachedCommitID(AfterCommitID(entries, false, e, key, Some(stored), Some(storedRef), Ok(id)), faults, key, slug, ref)
            == if stored == slug && storedRef == ref then Some(id) else None
  {
    CommitRoundTrip(CommitEnvelope(stored, storedRef, id));
  }

  /**
   * The guard at work: slugs "ab"/"c" and "a"/"bc" share a key, and the repository
   * stored for the first is not returned for the second.
   */
  lemma CollidingSlugIsMiss(entries: Entries, faults: set<string>, ns: string, repo: Repository, e: nat)
    requires repo.slug == Slug("github.com", "ab", "c")
    requires RepositoryBySlugKey(ns, repo.slug.Hash()) !in faults
    ensures RepositoryBySlugKey(ns, repo.slug.Hash()) == RepositoryBySlugKey(ns, Slug("github.com", "a", "bc").Hash())
    ensures CachedRepositoryBySlug(AfterRepository(entries, false, e, RepositoryBySlugKey(ns, repo.slug.Hash()), Ok(repo)),
                                   faults, RepositoryBySlugKey(ns, repo.slug.Hash()), Slug("github.com", "a", "bc")).None?
  {
    SlugHashCollision();
    RepositoryBySlugWriteThenHit(entries, faults, RepositoryBySlugKey(ns, repo.slug.Hash()), Slug("github.com", "a", "bc"), repo, e);
  }
}
