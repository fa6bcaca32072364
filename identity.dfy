/**
 * The identity types of a repository hosting service: a repository slug, a repository ID
 * and a reference (branch or tag), their validation, their 64-bit FNV-1a hashes, and the
 * error values the repository packages share.
 */
module Identity {
  import opened Wrappers
  import opened Utf8
  import Fnv

  /**
   * The errors the repository layer distinguishes: repository.ErrNotFound, the cache
   * store's cache.ErrCacheMiss, and any other error, carried by its message.
   */
  datatype Error = NotFound | CacheMiss | Failure(message: string)

  const ReferenceTypeBranch: string := "branch"
  const ReferenceTypeTag: string := "tag"

  datatype Slug = Slug(saas: string, owner: string, name: string)
  {
    /** The first field check that fails, in the order Saas, expected Saas, Owner, Name. */
    function Validate(expectedSaas: string): (r: Outcome<Error>)
      ensures r.Pass? <==> saas != "" && saas == expectedSaas && owner != "" && name != ""
      ensures saas == "" ==> r == Fail(Failure("no repository saas specified"))
      ensures saas != "" && saas != expectedSaas ==> r == Fail(Failure("unexpected repository saas: " + saas))
      ensures saas != "" && saas == expectedSaas && owner == "" ==> r == Fail(Failure("no repository owner name specified"))
      ensures saas != "" && saas == expectedSaas && owner != "" && name == "" ==> r == Fail(Failure("no repository name specified"))
    {
      if saas == "" then Fail(Failure("no repository saas specified"))
      else if saas != expectedSaas then Fail(Failure("unexpected repository saas: " + saas))
      else if owner == "" then Fail(Failure("no repository owner name specified"))
      else if name == "" then Fail(Failure("no repository name specified"))
      else Pass
    }

    /** Saas, Owner and Name written one after another into a fresh FNV-1a hasher. */
    function Hash(): (h: Fnv.uint64)
      ensures h == Fnv.Sum64(Encode(saas + owner + name))
    {
      Fnv.WriteStrings3(saas, owner, name);
      Fnv.WriteAll(Fnv.OffsetBasis, [Encode(saas), Encode(owner), Encode(name)]) as int
    }
  }

  datatype ID = ID(saas: string, ownerID: string, id: string)
  {
    /** The first field check that fails, in the order Saas, expected Saas, OwnerID, ID. */
    function Validate(expectedSaas: string): (r: Outcome<Error>)
      ensures r.Pass? <==> saas != "" && saas == expectedSaas && ownerID != "" && id != ""
      ensures saas == "" ==> r == Fail(Failure("no repository saas specified"))
      ensures saas != "" && saas != expectedSaas ==> r == Fail(Failure("unexpected repository saas: " + saas))
      ensures saas != "" && saas == expectedSaas && ownerID == "" ==> r == Fail(Failure("no repository owner id specified"))
      ensures saas != "" && saas == expectedSaas && ownerID != "" && id == "" ==> r == Fail(Failure("no repository id specified"))
    {
      if saas == "" then Fail(Failure("no repository saas specified"))
      else if saas != expectedSaas then Fail(Failure("unexpected repository saas: " + saas))
      else if ownerID == "" then Fail(Failure("no repository owner id specified"))
      else if id == "" then Fail(Failure("no repository id specified"))
      else Pass
    }

    function Hash(): (h: Fnv.uint64)
      ensures h == Fnv.Sum64(Encode(saas + ownerID + id))
    {
      Fnv.WriteStrings3(saas, ownerID, id);
      Fnv.WriteAll(Fnv.OffsetBasis, [Encode(saas), Encode(ownerID), Encode(id)]) as int
    }
  }

  datatype Permissions = Permissions(admin: bool)

  /** A repository: its slug (embedded in the Go struct), its ID and the user's permissions. */
  datatype Repository = Repository(slug: Slug, id: ID, permissions: Permissions)

  datatype Reference = Reference(refType: string, name: string)
  {
    predicate IsBranch(): (r: bool)
      ensures r <==> refType == "branch"
      ensures r ==> refType != ReferenceTypeTag
    {
      refType == ReferenceTypeBranch
    }

    predicate IsTag(): (r: bool)
      ensures r <==> refType == "tag"
      ensures r ==> refType != ReferenceTypeBranch
    {
      refType == ReferenceTypeTag
    }

    /** The first check that fails, in the order Type given, Type known, Name given. */
    function Validate(): (r: Outcome<Error>)
      ensures r.Pass? <==> (refType == "branch" || refType == "tag") && name != ""
      ensures refType == "" ==> r == Fail(Failure("no reference type specified"))
      ensures refType != "" && !IsBranch() && !IsTag() ==> r == Fail(Failure("unknown reference type: " + refType))
      ensures (IsBranch() || IsTag()) && name == "" ==> r == Fail(Failure("no reference name specified"))
    {
      if refType == "" then Fail(Failure("no reference type specified"))
      else if !IsBranch() && !IsTag() then Fail(Failure("unknown reference type: " + refType))
      else if name == "" then Fail(Failure("no reference name specified"))
      else Pass
    }

    function Hash(): (h: Fnv.uint64)
      ensures h == Fnv.Sum64(Encode(refType + name))
    {
      Fnv.WriteStrings2(refType, name);
      Fnv.WriteAll(Fnv.OffsetBasis, [Encode(refType), Encode(name)]) as int
    }
  }

  datatype DeployKey = DeployKey(id: string)
  {
    function Validate(): (r: Outcome<Error>)
      ensures r.Pass? <==> id != ""
      ensures r.Fail? ==> r.error == Failure("no deploy key id specified")
    {
      if id == "" then Fail(Failure("no deploy key id specified")) else Pass
    }
  }

  datatype Webhook = Webhook(id: string)
  {
    function Validate(): (r: Outcome<Error>)
      ensures r.Pass? <==> id != ""
      ensures r.Fail? ==> r.error == Failure("no webhook id specified")
    {
      if id == "" then Fail(Failure("no webhook id specified")) else Pass
    }
  }

  /** The payload of a push to a reference of a remote repository. */
  datatype PushEvent = PushEvent(repositoryID: int, id: ID, slug: Slug, reference: Reference, commitID: string)

  /** ValidateSlug: a nil slug is rejected before any field is looked at. */
  function ValidateSlug(slug: Option<Slug>, expectedSaas: string): (r: Outcome<Error>)
    ensures r.Pass? <==> slug.Some? && slug.value.Validate(expectedSaas).Pass?
    ensures slug.None? ==> r == Fail(Failure("no repository slug specified"))
  {
    match slug
    case None => Fail(Failure("no repository slug specified"))
    case Some(s) => s.Validate(expectedSaas)
  }

  function ValidateID(id: Option<ID>, expectedSaas: string): (r: Outcome<Error>)
    ensures r.Pass? <==> id.Some? && id.value.Validate(expectedSaas).Pass?
    ensures id.None? ==> r == Fail(Failure("no repository id specified"))
  {
    match id
    case None => Fail(Failure("no repository id specified"))
    case Some(i) => i.Validate(expectedSaas)
  }

  function ValidateReference(ref: Option<Reference>): (r: Outcome<Error>)
    ensures r.Pass? <==> ref.Some? && ref.value.Validate().Pass?
    ensures ref.None? ==> r == Fail(Failure("no reference specified"))
  {
    match ref
    case None => Fail(Failure("no reference specified"))
    case Some(x) => x.Validate()
  }

  function ValidateDeployKey(deployKey: Option<DeployKey>): (r: Outcome<Error>)
    ensures r.Pass? <==> deployKey.Some? && deployKey.value.id != ""
    ensures deployKey.None? ==> r == Fail(Failure("no deploy key specified"))
  {
    match deployKey
    case None => Fail(Failure("no deploy key specified"))
    case Some(k) => k.Validate()
  }

  function ValidateWebhook(webhook: Option<Webhook>): (r: Outcome<Error>)
    ensures r.Pass? <==> webhook.Some? && webhook.value.id != ""
    ensures webhook.None? ==> r == Fail(Failure("no webhook specified"))
  {
    match webhook
    case None => Fail(Failure("no webhook specified"))
    case Some(w) => w.Validate()
  }

  /** A reference is never both a branch and a tag; a valid one is exactly one of them. */
  lemma BranchXorTag(ref: Reference)
    ensures !(ref.IsBranch() && ref.IsTag())
    ensures ref.Validate().Pass? ==> (ref.IsBranch() != ref.IsTag())
  {
  }

  /**
   * The hash sees only the concatenation of the fields: slugs whose Owner and Name
   * concatenate to the same text (within the same Saas) share a hash.
   */
  lemma SlugHashIgnoresFieldBoundary(a: Slug, b: Slug)
    requires a.saas == b.saas && a.owner + a.name == b.owner + b.name
    ensures a.Hash() == b.Hash()
  {
    assert a.saas + a.owner + a.name == a.saas + (a.owner + a.name);
    assert b.saas + b.owner + b.name == b.saas + (b.owner + b.name);
  }

  lemma IDHashIgnoresFieldBoundary(a: ID, b: ID)
    requires a.saas + a.ownerID + a.id == b.saas + b.ownerID + b.id
    ensures a.Hash() == b.Hash()
  {
  }

  lemma ReferenceHashIgnoresFieldBoundary(a: Reference, b: Reference)
    requires a.refType + a.name == b.refType + b.name
    ensures a.Hash() == b.Hash()
  {
  }

  /** Owner "ab" with name "c" and owner "a" with name "bc" collide. */
  lemma SlugHashCollision()
    ensures Slug("github.com", "ab", "c") != Slug("github.com", "a", "bc")
    ensures Slug("github.com", "ab", "c").Hash() == Slug("github.com", "a", "bc").Hash()
  {
    SlugHashIgnoresFieldBoundary(Slug("github.com", "ab", "c"), Slug("github.com", "a", "bc"));
  }
}
