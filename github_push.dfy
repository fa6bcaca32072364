/**
 * GitHub's push webhook payload and its translation into the repository package's push
 * event. Every payload field is optional, as the JSON decoder leaves absent ones nil.
 */
module GitHubPushEvent {
  import opened Wrappers
  import opened Identity
  import opened Text
  import Decimal
  import GitHub

  datatype RepoPayload = RepoPayload(id: Option<int>, fullName: Option<string>)

  datatype OrganizationPayload = OrganizationPayload(id: Option<int>)

  /** The payload fields the translation reads; the commit list, sizes and flags other than Deleted are not. */
  datatype PushEventPayload = PushEventPayload(
    deleted: Option<bool>,
    ref: Option<string>,
    after: Option<string>,
    organization: Option<OrganizationPayload>,
    repo: Option<RepoPayload>)

  /** A branch or tag deletion: Deleted is present and true; an absent flag is not a deletion. */
  predicate IsDeleteEvent(event: PushEventPayload): (r: bool)
    ensures r <==> event.deleted == Some(true)
    ensures event.deleted.None? ==> !r
  {
    event.deleted.Some? && event.deleted.value
  }

  /** The ID: Saas always, the repository ID and the organization ID in decimal when present. */
  function ToRepositoryID(event: PushEventPayload): (r: ID)
    ensures r.saas == GitHub.ServiceName
    ensures r.id != "" <==> event.repo.Some? && event.repo.value.id.Some?
    ensures r.ownerID != "" <==> event.organization.Some? && event.organization.value.id.Some?
  {
    var repoID := if event.repo.Some? && event.repo.value.id.Some? then Decimal.IntToString(event.repo.value.id.value) else "";
    var ownerID :=
      if event.organization.Some? && event.organization.value.id.Some? then Decimal.IntToString(event.organization.value.id.value) else "";
    ID(GitHub.ServiceName, ownerID, repoID)
  }

  /** The slug: Saas always, Owner and Name only when the full name is exactly two "/"-separated parts. */
  function ToRepositorySlug(event: PushEventPayload): (r: Slug)
    ensures r.saas == GitHub.ServiceName
    ensures (r.owner, r.name) != ("", "") ==>
      event.repo.Some? && event.repo.value.fullName.Some? && |Split(event.repo.value.fullName.value, '/')| == 2
  {
    if event.repo.Some? && event.repo.value.fullName.Some? then
      var parts := Split(event.repo.value.fullName.value, '/');
      if |parts| == 2 then Slug(GitHub.ServiceName, parts[0], parts[1]) else Slug(GitHub.ServiceName, "", "")
    else Slug(GitHub.ServiceName, "", "")
  }

  /** The reference of "refs/<kind>/<name>": a branch for kind "heads", a tag for any other kind, the empty reference otherwise. */
  function ToRepositoryReference(event: PushEventPayload): (r: Reference)
    ensures r != Reference("", "") ==> event.ref.Some? && |Split(event.ref.value, '/')| == 3
    ensures r.refType == ReferenceTypeBranch || r.refType == ReferenceTypeTag || r == Reference("", "")
  {
    if event.ref.Some? then
      var parts := Split(event.ref.value, '/');
      if |parts| == 3 && parts[0] == "refs" then
        Reference(if parts[1] == "heads" then ReferenceTypeBranch else ReferenceTypeTag, parts[2])
      else Reference("", "")
    else Reference("", "")
  }

  /** The repository push event; its RepositoryID is left at zero, and a missing After gives an empty commit ID. */
  function ToRepositoryPushEvent(event: PushEventPayload): (r: PushEvent)
    ensures r.repositoryID == 0
    ensures r.commitID == if event.after.Some? then event.after.value else ""
    ensures r.id == ToRepositoryID(event) && r.slug == ToRepositorySlug(event) && r.reference == ToRepositoryReference(event)
  {
    PushEvent(0, ToRepositoryID(event), ToRepositorySlug(event), ToRepositoryReference(event),
      if event.after.Some? then event.after.value else "")
  }

  /** The decimal IDs parse back to the payload's numbers. */
  lemma IDsAreDecimal(event: PushEventPayload, repoID: int, orgID: int)
    requires event.repo.Some? && event.repo.value.id == Some(repoID)
    requires event.organization.Some? && event.organization.value.id == Some(orgID)
    requires Decimal.MinInt64 <= repoID <= Decimal.MaxInt64 && Decimal.MinInt64 <= orgID <= Decimal.MaxInt64
    ensures Decimal.Atoi(ToRepositoryID(event).id) == Some(repoID)
    ensures Decimal.Atoi(ToRepositoryID(event).ownerID) == Some(orgID)
  {
    Decimal.AtoiOfIntToString(repoID);
    Decimal.AtoiOfIntToString(orgID);
  }

  lemma RefsHeadsNoSlash()
    ensures !Contains("refs", '/') && !Contains("heads", '/')
  {
    assert forall i :: 0 <= i < |"refs"| ==> "refs"[i] != '/';
    assert forall i :: 0 <= i < |"heads"| ==> "heads"[i] != '/';
  }

  /** A string holding the separator splits into at least two parts. */
  lemma SplitOfContains(s: string, sep: char)
    requires Contains(s, sep)
    ensures |Split(s, sep)| >= 2
  {
    SplitJoin(s, sep);
  }

  /** "refs/<kind>/<name>" with slash-free parts: a branch for "heads", a tag for any other kind. */
  lemma ReferenceOfRefPath(event: PushEventPayload, kind: string, name: string)
    requires !Contains(kind, '/') && !Contains(name, '/')
    requires event.ref == Some("refs/" + kind + "/" + name)
    ensures ToRepositoryReference(event) == Reference(if kind == "heads" then ReferenceTypeBranch else ReferenceTypeTag, name)
  {
    RefsHeadsNoSlash();
    assert "refs/" + kind + "/" + name == "refs" + ['/'] + (kind + ['/'] + name);
    SplitAppend("refs", '/', kind + ['/'] + name);
    SplitAppend(kind, '/', name);
    SplitOfPartNoSep(name, '/');
  }

  /** A branch whose name holds a "/" cannot be read back: the result is the empty reference. */
  lemma NestedBranchIsEmptyReference(event: PushEventPayload, name: string)
    requires Contains(name, '/')
    requires event.ref == Some("refs/heads/" + name)
    ensures ToRepositoryReference(event) == Reference("", "")
  {
    RefsHeadsNoSlash();
    assert "refs/heads/" + name == "refs" + ['/'] + ("heads" + ['/'] + name);
    SplitAppend("refs", '/', "heads" + ['/'] + name);
    SplitAppend("heads", '/', name);
    SplitOfContains(name, '/');
  }

  /** "owner/name" with slash-free parts sets both fields. */
  lemma SlugOfFullName(event: PushEventPayload, owner: string, name: string)
    requires !Contains(owner, '/') && !Contains(name, '/')
    requires event.repo.Some? && event.repo.value.fullName == Some(owner + "/" + name)
    ensures ToRepositorySlug(event) == Slug(GitHub.ServiceName, owner, name)
  {
    assert Join([owner, name], '/') == owner + "/" + name;
    JoinSplit([owner, name], '/');
  }

  /** A full name without a "/" leaves Owner and Name empty. */
  lemma SlugOfBareName(event: PushEventPayload, fullName: string)
    requires !Contains(fullName, '/')
    requires event.repo.Some? && event.repo.value.fullName == Some(fullName)
    ensures ToRepositorySlug(event) == Slug(GitHub.ServiceName, "", "")
  {
    SplitOfPartNoSep(fullName, '/');
  }
}
