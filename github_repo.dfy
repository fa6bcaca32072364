/**
 * The mapping of a GitHub repository record onto the repository package's Repository, the
 * GitHub-specific check of a repository ID, and the two lookups built on them. The GitHub
 * API is a parameter: a function from the request to its response.
 */
module GitHubRepository {
  import opened Wrappers
  import opened Identity
  import Decimal
  import GitHub

  const InconsistentRepositoryID: Error := Failure("inconsistent repository id")

  /** A user or an organization; both fields may be absent from the JSON. */
  datatype Account = Account(login: Option<string>, id: Option<int>)

  datatype GitHubRepo = GitHubRepo(
    id: Option<int>,
    name: Option<string>,
    owner: Option<Account>,
    organization: Option<Account>,
    permissions: Option<map<string, bool>>)

  /** The login of the organization when it has one, else that of the owner, else nothing. */
  function OwnerLogin(repo: GitHubRepo): (r: Option<string>)
    ensures repo.organization.Some? && repo.organization.value.login.Some? ==> r == repo.organization.value.login
    ensures !(repo.organization.Some? && repo.organization.value.login.Some?) ==>
      r == if repo.owner.Some? then repo.owner.value.login else None
  {
    if repo.organization.Some? && repo.organization.value.login.Some? then repo.organization.value.login
    else if repo.owner.Some? && repo.owner.value.login.Some? then repo.owner.value.login
    else None
  }

  /** The ID of the organization when it has one, else that of the owner, else nothing. */
  function OwnerNumber(repo: GitHubRepo): (r: Option<int>)
    ensures repo.organization.Some? && repo.organization.value.id.Some? ==> r == repo.organization.value.id
    ensures !(repo.organization.Some? && repo.organization.value.id.Some?) ==>
      r == if repo.owner.Some? then repo.owner.value.id else None
  {
    if repo.organization.Some? && repo.organization.value.id.Some? then repo.organization.value.id
    else if repo.owner.Some? && repo.owner.value.id.Some? then repo.owner.value.id
    else None
  }

  function OrEmpty(s: Option<string>): string {
    if s.Some? then s.value else ""
  }

  function DecimalOrEmpty(n: Option<int>): (r: string)
    ensures r == "" <==> n.None?
  {
    if n.Some? then Decimal.IntToString(n.value) else ""
  }

  /** newRepositorySlug: Saas always; Owner and Name from the record where present. */
  function NewRepositorySlug(repo: Option<GitHubRepo>): (r: Slug)
    ensures r.saas == GitHub.ServiceName
    ensures repo.None? ==> r == Slug(GitHub.ServiceName, "", "")
    ensures repo.Some? ==> r.name == OrEmpty(repo.value.name) && r.owner == OrEmpty(OwnerLogin(repo.value))
  {
    match repo
    case None => Slug(GitHub.ServiceName, "", "")
    case Some(g) => Slug(GitHub.ServiceName, OrEmpty(OwnerLogin(g)), OrEmpty(g.name))
  }

  /** newRepositoryID: Saas always; OwnerID and ID the decimal renderings of the numbers present. */
  function NewRepositoryID(repo: Option<GitHubRepo>): (r: ID)
    ensures r.saas == GitHub.ServiceName
    ensures repo.None? ==> r == ID(GitHub.ServiceName, "", "")
    ensures repo.Some? ==> (r.id == "" <==> repo.value.id.None?) && (r.ownerID == "" <==> OwnerNumber(repo.value).None?)
  {
    match repo
    case None => ID(GitHub.ServiceName, "", "")
    case Some(g) => ID(GitHub.ServiceName, DecimalOrEmpty(OwnerNumber(g)), DecimalOrEmpty(g.id))
  }

  /** newRepositoryPermissions: Admin is the "admin" entry, false when absent (Go's zero value). */
  function NewRepositoryPermissions(repo: Option<GitHubRepo>): (r: Permissions)
    ensures r.admin <==> (repo.Some? && repo.value.permissions.Some?
      && "admin" in repo.value.permissions.value && repo.value.permissions.value["admin"])
  {
    if repo.Some? && repo.value.permissions.Some? && "admin" in repo.value.permissions.value then
      Permissions(repo.value.permissions.value["admin"])
    else Permissions(false)
  }

  function NewRepository(repo: Option<GitHubRepo>): (r: Repository)
    ensures r.slug == NewRepositorySlug(repo) && r.id == NewRepositoryID(repo) && r.permissions == NewRepositoryPermissions(repo)
  {
    Repository(NewRepositorySlug(repo), NewRepositoryID(repo), NewRepositoryPermissions(repo))
  }

  /** A missing record and a record with no field set both map to the bare GitHub repository. */
  lemma EmptyRecordsMapToBareRepository()
    ensures NewRepository(None) == Repository(Slug(GitHub.ServiceName, "", ""), ID(GitHub.ServiceName, "", ""), Permissions(false))
    ensures NewRepository(Some(GitHubRepo(None, None, None, None, None))) == NewRepository(None)
  {
  }

  /**
   * The text of strconv.Atoi's error: the input in quotes (Go's escaping of unusual
   * characters is not modelled), then "value out of range" when it is a well-formed
   * number and "invalid syntax" when it is not.
   */
  function AtoiErrorText(s: string): string {
    var digits := if |s| > 0 && (s[0] == '-' || s[0] == '+') then s[1..] else s;
    var reason := if digits != [] && Decimal.AllDigits(digits) then "value out of range" else "invalid syntax";
    "strconv.Atoi: parsing \"" + s + "\": " + reason
  }

  /** validateRepositoryID: the generic ID check, then OwnerID, then ID must parse as integers. */
  function ValidateRepositoryID(id: Option<ID>): (r: Outcome<Error>)
    ensures r.Pass? <==> (ValidateID(id, GitHub.ServiceName).Pass?
      && Decimal.Atoi(id.value.ownerID).Some? && Decimal.Atoi(id.value.id).Some?)
    ensures ValidateID(id, GitHub.ServiceName).Fail? ==> r == ValidateID(id, GitHub.ServiceName)
    ensures (ValidateID(id, GitHub.ServiceName).Pass? && Decimal.Atoi(id.value.ownerID).None?) ==>
      r == Fail(Failure("invalid repository owner id: " + AtoiErrorText(id.value.ownerID)))
  {
    var valid := ValidateID(id, GitHub.ServiceName);
    if valid.Fail? then valid
    else if Decimal.Atoi(id.value.ownerID).None? then
      Fail(Failure("invalid repository owner id: " + AtoiErrorText(id.value.ownerID)))
    else if Decimal.Atoi(id.value.id).None? then
      Fail(Failure("invalid repository id: " + AtoiErrorText(id.value.id)))
    else Pass
  }

  /**
   * The ID mapped from a record with both numbers (in the 64-bit range) passes the check,
   * and its fields parse back to those numbers.
   */
  lemma MappedIDValidates(repo: GitHubRepo)
    requires repo.id.Some? && OwnerNumber(repo).Some?
    requires Decimal.MinInt64 <= repo.id.value <= Decimal.MaxInt64
    requires Decimal.MinInt64 <= OwnerNumber(repo).value <= Decimal.MaxInt64
    ensures ValidateRepositoryID(Some(NewRepositoryID(Some(repo)))).Pass?
    ensures Decimal.Atoi(NewRepositoryID(Some(repo)).id) == repo.id
    ensures Decimal.Atoi(NewRepositoryID(Some(repo)).ownerID) == OwnerNumber(repo)
  {
    Decimal.AtoiOfIntToString(repo.id.value);
    Decimal.AtoiOfIntToString(OwnerNumber(repo).value);
  }

  /** Records with different repository numbers map to different IDs. */
  lemma MappedIDInjective(a: GitHubRepo, b: GitHubRepo)
    requires a.id.Some? && b.id.Some?
    requires NewRepositoryID(Some(a)) == NewRepositoryID(Some(b))
    ensures a.id == b.id
  {
    Decimal.IntToStringInjective(a.id.value, b.id.value);
  }

  /** GetRepositoryBySlug: the slug is checked before the API is asked for owner and name. */
  function GetRepositoryBySlug(slug: Option<Slug>, getRepo: (string, string) -> GitHub.Response<GitHubRepo>): (r: Result<Repository, Error>)
    ensures ValidateSlug(slug, GitHub.ServiceName).Fail? ==> r == Err(ValidateSlug(slug, GitHub.ServiceName).error)
    ensures r.Ok? ==> (getRepo(slug.value.owner, slug.value.name).Answered?
      && r.value == NewRepository(Some(getRepo(slug.value.owner, slug.value.name).payload)))
    ensures ValidateSlug(slug, GitHub.ServiceName).Pass? ==>
      match getRepo(slug.value.owner, slug.value.name)
      case Failed(status, err) => r == Err(GitHub.TranslateErrorResponse(status, err))
      case Answered(g) => r == Ok(NewRepository(Some(g)))
  {
    var valid := ValidateSlug(slug, GitHub.ServiceName);
    if valid.Fail? then Err(valid.error)
    else
      match getRepo(slug.value.owner, slug.value.name)
      case Failed(status, err) => Err(GitHub.TranslateErrorResponse(status, err))
      case Answered(g) => Ok(NewRepository(Some(g)))
  }

  /**
   * GetRepositoryByID: the ID is checked, the API is asked for "repositories/<ID>", and the
   * answer is rejected unless it maps back to the very ID asked for.
   */
  function GetRepositoryByID(id: Option<ID>, getRepo: string -> GitHub.Response<GitHubRepo>): (r: Result<Repository, Error>)
    ensures ValidateRepositoryID(id).Fail? ==> r == Err(ValidateRepositoryID(id).error)
    ensures r.Ok? ==> (id.Some? && r.value.id == id.value && getRepo(id.value.id).Answered?
      && r.value == NewRepository(Some(getRepo(id.value.id).payload)))
    ensures ValidateRepositoryID(id).Pass? && getRepo(id.value.id).Failed? ==>
      r == Err(GitHub.TranslateErrorResponse(getRepo(id.value.id).status, getRepo(id.value.id).err))
  {
    var valid := ValidateRepositoryID(id);
    if valid.Fail? then Err(valid.error)
    else
      match getRepo(id.value.id)
      case Failed(status, err) => Err(GitHub.TranslateErrorResponse(status, err))
      case Answered(g) =>
        var repo := NewRepository(Some(g));
        if repo.id != id.value then Err(InconsistentRepositoryID) else Ok(repo)
  }

  /** A valid request answered with a record succeeds exactly when the record maps to the requested ID. */
  lemma GetRepositoryByIDConsistency(id: ID, getRepo: string -> GitHub.Response<GitHubRepo>)
    requires ValidateRepositoryID(Some(id)).Pass? && getRepo(id.id).Answered?
    ensures GetRepositoryByID(Some(id), getRepo).Ok? <==> NewRepositoryID(Some(getRepo(id.id).payload)) == id
    ensures GetRepositoryByID(Some(id), getRepo).Err? ==> GetRepositoryByID(Some(id), getRepo).error == InconsistentRepositoryID
  {
  }

  /** A record whose numbers are the ones an ID names is found under that ID. */
  lemma GetRepositoryByIDFindsMappedRecord(repo: GitHubRepo, getRepo: string -> GitHub.Response<GitHubRepo>)
    requires repo.id.Some? && OwnerNumber(repo).Some?
    requires Decimal.MinInt64 <= repo.id.value <= Decimal.MaxInt64
    requires Decimal.MinInt64 <= OwnerNumber(repo).value <= Decimal.MaxInt64
    requires getRepo(NewRepositoryID(Some(repo)).id) == GitHub.Answered(repo)
    ensures GetRepositoryByID(Some(NewRepositoryID(Some(repo))), getRepo) == Ok(NewRepository(Some(repo)))
  {
    MappedIDValidates(repo);
  }
}
