/**
 * Git references as GitHub lists them ("refs/heads/<name>", "refs/tags/<name>", and any
 * other kind) and their classification into the repository package's branches and tags,
 * over a reference list already fetched; and the path choice of GetCommitID.
 */
module GitHubReference {
  import opened Wrappers
  import opened Identity
  import opened Text
  import GitHub

  const RefPrefixBranch: string := "refs/heads/"
  const RefPrefixTag: string := "refs/tags/"
  const NoCommitIDObtained: Error := Failure("no commit id obtained")

  datatype GitObject = GitObject(sha: Option<string>)

  datatype GitReference = GitReference(ref: Option<string>, obj: Option<GitObject>)

  /** A branch named by the rest of the ref, iff the ref is present and starts with "refs/heads/". */
  function BranchFromGitReference(gitRef: GitReference): (r: Option<Reference>)
    ensures r.Some? <==> gitRef.ref.Some? && HasPrefix(gitRef.ref.value, RefPrefixBranch)
    ensures r.Some? ==> r.value.refType == ReferenceTypeBranch && RefPrefixBranch + r.value.name == gitRef.ref.value
  {
    if gitRef.ref.Some? && HasPrefix(gitRef.ref.value, RefPrefixBranch) then
      Some(Reference(ReferenceTypeBranch, TrimPrefix(gitRef.ref.value, RefPrefixBranch)))
    else None
  }

  /** A tag named by the rest of the ref, iff the ref is present and starts with "refs/tags/". */
  function TagFromGitReference(gitRef: GitReference): (r: Option<Reference>)
    ensures r.Some? <==> gitRef.ref.Some? && HasPrefix(gitRef.ref.value, RefPrefixTag)
    ensures r.Some? ==> r.value.refType == ReferenceTypeTag && RefPrefixTag + r.value.name == gitRef.ref.value
  {
    if gitRef.ref.Some? && HasPrefix(gitRef.ref.value, RefPrefixTag) then
      Some(Reference(ReferenceTypeTag, TrimPrefix(gitRef.ref.value, RefPrefixTag)))
    else None
  }

  /** Each prefix gives back the name it was put in front of, and the other prefix does not match. */
  lemma FromGitReferenceRoundTrip(name: string, obj: Option<GitObject>)
    ensures BranchFromGitReference(GitReference(Some(RefPrefixBranch + name), obj)) == Some(Reference(ReferenceTypeBranch, name))
    ensures TagFromGitReference(GitReference(Some(RefPrefixBranch + name), obj)) == None
    ensures TagFromGitReference(GitReference(Some(RefPrefixTag + name), obj)) == Some(Reference(ReferenceTypeTag, name))
    ensures BranchFromGitReference(GitReference(Some(RefPrefixTag + name), obj)) == None
  {
    TrimPrefixOfConcat(RefPrefixBranch, name);
    TrimPrefixOfConcat(RefPrefixTag, name);
    assert (RefPrefixBranch + name)[5] == 'h';
    assert (RefPrefixTag + name)[5] == 't';
  }

  /** No ref is both a branch and a tag. */
  lemma NeverBranchAndTag(gitRef: GitReference)
    ensures !(BranchFromGitReference(gitRef).Some? && TagFromGitReference(gitRef).Some?)
  {
    if gitRef.ref.Some? {
      var s := gitRef.ref.value;
      assert HasPrefix(s, RefPrefixBranch) ==> s[5] == 'h';
      assert HasPrefix(s, RefPrefixTag) ==> s[5] == 't';
    }
  }

  /** What one ref contributes to ListReferences: its branch, else its tag, else nothing. */
  function Classify(gitRef: GitReference): seq<Reference> {
    match BranchFromGitReference(gitRef)
    case Some(b) => [b]
    case None =>
      match TagFromGitReference(gitRef)
      case Some(t) => [t]
      case None => []
  }

  /** ListReferences: the refs classified one by one, in order. */
  function Classified(gitRefs: seq<GitReference>): (r: seq<Reference>)
    ensures |r| <= |gitRefs|
    ensures forall i :: 0 <= i < |r| ==> r[i].refType == ReferenceTypeBranch || r[i].refType == ReferenceTypeTag
    decreases |gitRefs|
  {
    if gitRefs == [] then [] else Classified(gitRefs[..|gitRefs| - 1]) + Classify(gitRefs[|gitRefs| - 1])
  }

  /** ListBranches: only the refs under "refs/heads/", in order. */
  function BranchesOf(gitRefs: seq<GitReference>): (r: seq<Reference>)
    ensures |r| <= |gitRefs|
    ensures forall i :: 0 <= i < |r| ==> r[i].refType == ReferenceTypeBranch
    decreases |gitRefs|
  {
    if gitRefs == [] then []
    else
      var last := BranchFromGitReference(gitRefs[|gitRefs| - 1]);
      BranchesOf(gitRefs[..|gitRefs| - 1]) + if last.Some? then [last.value] else []
  }

  /** ListTags: only the refs under "refs/tags/", in order. */
  function TagsOf(gitRefs: seq<GitReference>): (r: seq<Reference>)
    ensures |r| <= |gitRefs|
    ensures forall i :: 0 <= i < |r| ==> r[i].refType == ReferenceTypeTag
    decreases |gitRefs|
  {
    if gitRefs == [] then []
    else
      var last := TagFromGitReference(gitRefs[|gitRefs| - 1]);
      TagsOf(gitRefs[..|gitRefs| - 1]) + if last.Some? then [last.value] else []
  }

  /** The references of one type, in order. */
  function OfType(refs: seq<Reference>, refType: string): seq<Reference>
    decreases |refs|
  {
    if refs == [] then []
    else OfType(refs[..|refs| - 1], refType) + if refs[|refs| - 1].refType == refType then [refs[|refs| - 1]] else []
  }

  lemma {:induction false} OfTypeAppend(a: seq<Reference>, b: seq<Reference>, refType: string)
    ensures OfType(a + b, refType) == OfType(a, refType) + OfType(b, refType)
    decreases |b|
  {
    if b != [] {
      var n := |b| - 1;
      assert (a + b)[..|a + b| - 1] == a + b[..n];
      OfTypeAppend(a, b[..n], refType);
    } else {
      assert a + b == a;
    }
  }

  /** The branches among the classified refs are exactly what ListBranches lists, in the same order. */
  lemma {:induction false} ClassifiedBranches(gitRefs: seq<GitReference>)
    ensures OfType(Classified(gitRefs), ReferenceTypeBranch) == BranchesOf(gitRefs)
    decreases |gitRefs|
  {
    if gitRefs != [] {
      var n := |gitRefs| - 1;
      ClassifiedBranches(gitRefs[..n]);
      var c := Classify(gitRefs[n]);
      OfTypeAppend(Classified(gitRefs[..n]), c, ReferenceTypeBranch);
      assert OfType(c, ReferenceTypeBranch) == if BranchFromGitReference(gitRefs[n]).Some? then c else [] by {
        if |c| == 1 {
          assert c[..0] == [];
        }
      }
    }
  }

  /** The tags among the classified refs are exactly what ListTags lists, in the same order. */
  lemma {:induction false} ClassifiedTags(gitRefs: seq<GitReference>)
    ensures OfType(Classified(gitRefs), ReferenceTypeTag) == TagsOf(gitRefs)
    decreases |gitRefs|
  {
    if gitRefs != [] {
      var n := |gitRefs| - 1;
      ClassifiedTags(gitRefs[..n]);
      var c := Classify(gitRefs[n]);
      NeverBranchAndTag(gitRefs[n]);
      OfTypeAppend(Classified(gitRefs[..n]), c, ReferenceTypeTag);
      assert OfType(c, ReferenceTypeTag) == if TagFromGitReference(gitRefs[n]).Some? then c else [] by {
        if |c| == 1 {
          assert c[..0] == [];
        }
      }
    }
  }

  /** Classifying a concatenation classifies each part: input order is kept. */
  lemma {:induction false} ClassifiedAppend(a: seq<GitReference>, b: seq<GitReference>)
    ensures Classified(a + b) == Classified(a) + Classified(b)
    decreases |b|
  {
    if b != [] {
      var n := |b| - 1;
      assert (a + b)[..|a + b| - 1] == a + b[..n];
      ClassifiedAppend(a, b[..n]);
    } else {
      assert a + b == a;
    }
  }

  method ListReferences(slug: Option<Slug>, listed: GitHub.Response<seq<GitReference>>) returns (r: Result<seq<Reference>, Error>)
    ensures ValidateSlug(slug, GitHub.ServiceName).Fail? ==> r == Err(ValidateSlug(slug, GitHub.ServiceName).error)
    ensures ValidateSlug(slug, GitHub.ServiceName).Pass? ==>
      r == match listed
           case Failed(status, err) => Err(GitHub.TranslateErrorResponse(status, err))
           case Answered(gitRefs) => Ok(Classified(gitRefs))
  {
    var valid := ValidateSlug(slug, GitHub.ServiceName);
    if valid.Fail? {
      return Err(valid.error);
    }
    if listed.Failed? {
      return Err(GitHub.TranslateErrorResponse(listed.status, listed.err));
    }
    var gitRefs := listed.payload;
    var totalRefs: seq<Reference> := [];
    var i := 0;
    while i < |gitRefs|
      invariant 0 <= i <= |gitRefs|
      invariant totalRefs == Classified(gitRefs[..i])
    {
      assert gitRefs[..i + 1][..i] == gitRefs[..i];
      var branch := BranchFromGitReference(gitRefs[i]);
      if branch.Some? {
        totalRefs := totalRefs + [branch.value];
      } else {
        var tag := TagFromGitReference(gitRefs[i]);
        if tag.Some? {
          totalRefs := totalRefs + [tag.value];
        }
      }
      i := i + 1;
    }
    assert gitRefs[..i] == gitRefs;
    return Ok(totalRefs);
  }

  method ListBranches(slug: Option<Slug>, listed: GitHub.Response<seq<GitReference>>) returns (r: Result<seq<Reference>, Error>)
    ensures ValidateSlug(slug, GitHub.ServiceName).Fail? ==> r == Err(ValidateSlug(slug, GitHub.ServiceName).error)
    ensures ValidateSlug(slug, GitHub.ServiceName).Pass? ==>
      r == match listed
           case Failed(status, err) => Err(GitHub.TranslateErrorResponse(status, err))
           case Answered(gitRefs) => Ok(BranchesOf(gitRefs))
  {
    var valid := ValidateSlug(slug, GitHub.ServiceName);
    if valid.Fail? {
      return Err(valid.error);
    }
    if listed.Failed? {
      return Err(GitHub.TranslateErrorResponse(listed.status, listed.err));
    }
    var gitRefs := listed.payload;
    var totalRefs: seq<Reference> := [];
    var i := 0;
    while i < |gitRefs|
      invariant 0 <= i <= |gitRefs|
      invariant totalRefs == BranchesOf(gitRefs[..i])
    {
      assert gitRefs[..i + 1][..i] == gitRefs[..i];
      var branch := BranchFromGitReference(gitRefs[i]);
      if branch.Some? {
        totalRefs := totalRefs + [branch.value];
      }
      i := i + 1;
    }
    assert gitRefs[..i] == gitRefs;
    return Ok(totalRefs);
  }

  method ListTags(slug: Option<Slug>, listed: GitHub.Response<seq<GitReference>>) returns (r: Result<seq<Reference>, Error>)
    ensures ValidateSlug(slug, GitHub.ServiceName).Fail? ==> r == Err(ValidateSlug(slug, GitHub.ServiceName).error)
    ensures ValidateSlug(slug, GitHub.ServiceName).Pass? ==>
      r == match listed
           case Failed(status, err) => Err(GitHub.TranslateErrorResponse(status, err))
           case Answered(gitRefs) => Ok(TagsOf(gitRefs))
  {
    var valid := ValidateSlug(slug, GitHub.ServiceName);
    if valid.Fail? {
      return Err(valid.error);
    }
    if listed.Failed? {
      return Err(GitHub.TranslateErrorResponse(listed.status, listed.err));
    }
    var gitRefs := listed.payload;
    var totalRefs: seq<Reference> := [];
    var i := 0;
    while i < |gitRefs|
      invariant 0 <= i <= |gitRefs|
      invariant totalRefs == TagsOf(gitRefs[..i])
    {
      assert gitRefs[..i + 1][..i] == gitRefs[..i];
      var tag := TagFromGitReference(gitRefs[i]);
      if tag.Some? {
        totalRefs := totalRefs + [tag.value];
      }
      i := i + 1;
    }
    assert gitRefs[..i] == gitRefs;
    return Ok(totalRefs);
  }

  /** The ref path GetCommitID asks for: "tags/<name>" for a tag, "heads/<name>" for anything else. */
  function RefPath(ref: Reference): string {
    if ref.IsTag() then "tags/" + ref.name else "heads/" + ref.name
  }

  /** Distinct valid references ask for distinct paths. */
  lemma RefPathInjective(a: Reference, b: Reference)
    requires a.Validate().Pass? && b.Validate().Pass?
    requires RefPath(a) == RefPath(b)
    ensures a == b
  {
    BranchXorTag(a);
    BranchXorTag(b);
    var p := RefPath(a);
    assert p[0] == if a.IsTag() then 't' else 'h';
    assert p[0] == if b.IsTag() then 't' else 'h';
    if a.IsTag() {
      assert a.name == p[5..] == b.name;
    } else {
      assert a.name == p[6..] == b.name;
    }
  }

  /**
   * GetCommitID: the slug is checked, then the reference, and only then is getRef asked for
   * the reference's path; an answer without an obj or SHA is an error.
   */
  function GetCommitID(slug: Option<Slug>, ref: Option<Reference>, getRef: string -> GitHub.Response<GitReference>): (r: Result<string, Error>)
    ensures ValidateSlug(slug, GitHub.ServiceName).Fail? ==> r == Err(ValidateSlug(slug, GitHub.ServiceName).error)
    ensures ValidateSlug(slug, GitHub.ServiceName).Pass? && ValidateReference(ref).Fail? ==> r == Err(ValidateReference(ref).error)
    ensures r.Ok? ==> (ref.Some? && getRef(RefPath(ref.value)).Answered?
      && getRef(RefPath(ref.value)).payload.obj.Some? && getRef(RefPath(ref.value)).payload.obj.value.sha == Some(r.value))
    ensures ValidateSlug(slug, GitHub.ServiceName).Pass? && ValidateReference(ref).Pass? ==>
      match getRef(RefPath(ref.value))
      case Failed(status, err) => r == Err(GitHub.TranslateErrorResponse(status, err))
      case Answered(gitRef) =>
        (gitRef.obj.Some? && gitRef.obj.value.sha.Some? ==> r == Ok(gitRef.obj.value.sha.value))
        && (gitRef.obj.None? || gitRef.obj.value.sha.None? ==> r == Err(NoCommitIDObtained))
  {
    var valid := ValidateSlug(slug, GitHub.ServiceName);
    if valid.Fail? then Err(valid.error)
    else
      var validRef := ValidateReference(ref);
      if validRef.Fail? then Err(validRef.error)
      else
        match getRef(RefPath(ref.value))
        case Failed(status, err) => Err(GitHub.TranslateErrorResponse(status, err))
        case Answered(gitRef) =>
          if gitRef.obj.None? || gitRef.obj.value.sha.None? then Err(NoCommitIDObtained)
          else Ok(gitRef.obj.value.sha.value)
  }

  /** Only the answer for the reference's own path matters, and none matters when validation fails. */
  lemma GetCommitIDAsksOnlyItsPath(slug: Option<Slug>, ref: Option<Reference>, f: string -> GitHub.Response<GitReference>, g: string -> GitHub.Response<GitReference>)
    requires ValidateSlug(slug, GitHub.ServiceName).Fail? || ValidateReference(ref).Fail? || f(RefPath(ref.value)) == g(RefPath(ref.value))
    ensures GetCommitID(slug, ref, f) == GetCommitID(slug, ref, g)
  {
  }
}
