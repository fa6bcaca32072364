/**
 * The repository service a cache wraps (the repository.Service interface), as an oracle:
 * its answers are fixed functions of the arguments, and every call is appended to a log,
 * so that which calls a cache makes, and how many, can be stated.
 */
module ServiceAdapter {
  import opened Wrappers
  import opened Identity

  /** The pair (refs, err) a list operation returns; err None is a nil error. */
  datatype Listing = Listing(refs: seq<Reference>, err: Option<Error>)

  datatype Call =
    | GetUserIDCall
    | GetRepositoryBySlugCall(slug: Option<Slug>)
    | GetRepositoryByIDCall(id: Option<ID>)
    | ListRepositoriesCall
    | ListReferencesCall(slug: Option<Slug>)
    | ListBranchesCall(slug: Option<Slug>)
    | ListTagsCall(slug: Option<Slug>)
    | GetCommitIDCall(slug: Option<Slug>, ref: Option<Reference>)
    | RegisterDeployKeyCall(slug: Option<Slug>, publicKey: string, title: string)
    | UnregisterDeployKeyCall(slug: Option<Slug>, deployKey: Option<DeployKey>)
    | ExistsDeployKeyCall(slug: Option<Slug>, deployKey: Option<DeployKey>)
    | RegisterWebhookCall(slug: Option<Slug>, hookURL: string)
    | UnregisterWebhookCall(slug: Option<Slug>, webhook: Option<Webhook>)
    | ExistsWebhookCall(slug: Option<Slug>, webhook: Option<Webhook>)

  /** What the service answers to each operation. A repository list may be nil (None). */
  datatype Answers = Answers(
    userID: Result<string, Error>,
    repositoryBySlug: Option<Slug> -> Result<Repository, Error>,
    repositoryByID: Option<ID> -> Result<Repository, Error>,
    repositories: Result<Option<seq<Repository>>, Error>,
    references: Option<Slug> -> Listing,
    branches: Option<Slug> -> Listing,
    tags: Option<Slug> -> Listing,
    commitID: (Option<Slug>, Option<Reference>) -> Result<string, Error>,
    registerDeployKey: (Option<Slug>, string, string) -> Result<DeployKey, Error>,
    unregisterDeployKey: (Option<Slug>, Option<DeployKey>) -> Outcome<Error>,
    existsDeployKey: (Option<Slug>, Option<DeployKey>) -> Result<bool, Error>,
    registerWebhook: (Option<Slug>, string) -> Result<Webhook, Error>,
    unregisterWebhook: (Option<Slug>, Option<Webhook>) -> Outcome<Error>,
    existsWebhook: (Option<Slug>, Option<Webhook>) -> Result<bool, Error>)

  /** An error that a list operation does not tolerate: anything but ErrNotFound. */
  predicate IsHardError(err: Option<Error>) {
    err.Some? && err.value != NotFound
  }

  class Service {
    const serviceName: string
    const answers: Answers
    var calls: seq<Call>

    constructor (serviceName: string, answers: Answers)
      ensures this.serviceName == serviceName && this.answers == answers && calls == []
    {
      this.serviceName := serviceName;
      this.answers := answers;
      calls := [];
    }

    method GetUserID() returns (r: Result<string, Error>)
      modifies this
      ensures r == answers.userID && calls == old(calls) + [GetUserIDCall]
    {
      r := answers.userID;
      calls := calls + [GetUserIDCall];
    }

    method GetRepositoryBySlug(slug: Option<Slug>) returns (r: Result<Repository, Error>)
      modifies this
      ensures r == answers.repositoryBySlug(slug) && calls == old(calls) + [GetRepositoryBySlugCall(slug)]
    {
      r := answers.repositoryBySlug(slug);
      calls := calls + [GetRepositoryBySlugCall(slug)];
    }

    method GetRepositoryByID(id: Option<ID>) returns (r: Result<Repository, Error>)
      modifies this
      ensures r == answers.repositoryByID(id) && calls == old(calls) + [GetRepositoryByIDCall(id)]
    {
      r := answers.repositoryByID(id);
      calls := calls + [GetRepositoryByIDCall(id)];
    }

    method ListRepositories() returns (r: Result<Option<seq<Repository>>, Error>)
      modifies this
      ensures r == answers.repositories && calls == old(calls) + [ListRepositoriesCall]
    {
      r := answers.repositories;
      calls := calls + [ListRepositoriesCall];
    }

    method ListReferences(slug: Option<Slug>) returns (r: Listing)
      modifies this
      ensures r == answers.references(slug) && calls == old(calls) + [ListReferencesCall(slug)]
    {
      r := answers.references(slug);
      calls := calls + [ListReferencesCall(slug)];
    }

    method ListBranches(slug: Option<Slug>) returns (r: Listing)
      modifies this
      ensures r == answers.branches(slug) && calls == old(calls) + [ListBranchesCall(slug)]
    {
      r := answers.branches(slug);
      calls := calls + [ListBranchesCall(slug)];
    }

    method ListTags(slug: Option<Slug>) returns (r: Listing)
      modifies this
      ensures r == answers.tags(slug) && calls == old(calls) + [ListTagsCall(slug)]
    {
      r := answers.tags(slug);
      calls := calls + [ListTagsCall(slug)];
    }

    method GetCommitID(slug: Option<Slug>, ref: Option<Reference>) returns (r: Result<string, Error>)
      modifies this
      ensures r == answers.commitID(slug, ref) && calls == old(calls) + [GetCommitIDCall(slug, ref)]
    {
      r := answers.commitID(slug, ref);
      calls := calls + [GetCommitIDCall(slug, ref)];
    }

    method RegisterDeployKey(slug: Option<Slug>, publicKey: string, title: string) returns (r: Result<DeployKey, Error>)
      modifies this
      ensures r == answers.registerDeployKey(slug, publicKey, title)
      ensures calls == old(calls) + [RegisterDeployKeyCall(slug, publicKey, title)]
    {
      r := answers.registerDeployKey(slug, publicKey, title);
      calls := calls + [RegisterDeployKeyCall(slug, publicKey, title)];
    }

    method UnregisterDeployKey(slug: Option<Slug>, deployKey: Option<DeployKey>) returns (r: Outcome<Error>)
      modifies this
      ensures r == answers.unregisterDeployKey(slug, deployKey)
      ensures calls == old(calls) + [UnregisterDeployKeyCall(slug, deployKey)]
    {
      r := answers.unregisterDeployKey(slug, deployKey);
      calls := calls + [UnregisterDeployKeyCall(slug, deployKey)];
    }

    method ExistsDeployKey(slug: Option<Slug>, deployKey: Option<DeployKey>) returns (r: Result<bool, Error>)
      modifies this
      ensures r == answers.existsDeployKey(slug, deployKey)
      ensures calls == old(calls) + [ExistsDeployKeyCall(slug, deployKey)]
    {
      r := answers.existsDeployKey(slug, deployKey);
      calls := calls + [ExistsDeployKeyCall(slug, deployKey)];
    }

    method RegisterWebhook(slug: Option<Slug>, hookURL: string) returns (r: Result<Webhook, Error>)
      modifies this
      ensures r == answers.registerWebhook(slug, hookURL)
      ensures calls == old(calls) + [RegisterWebhookCall(slug, hookURL)]
    {
      r := answers.registerWebhook(slug, hookURL);
      calls := calls + [RegisterWebhookCall(slug, hookURL)];
    }

    method UnregisterWebhook(slug: Option<Slug>, webhook: Option<Webhook>) returns (r: Outcome<Error>)
      modifies this
      ensures r == answers.unregisterWebhook(slug, webhook)
      ensures calls == old(calls) + [UnregisterWebhookCall(slug, webhook)]
    {
      r := answers.unregisterWebhook(slug, webhook);
      calls := calls + [UnregisterWebhookCall(slug, webhook)];
    }

    method ExistsWebhook(slug: Option<Slug>, webhook: Option<Webhook>) returns (r: Result<bool, Error>)
      modifies this
      ensures r == answers.existsWebhook(slug, webhook)
      ensures calls == old(calls) + [ExistsWebhookCall(slug, webhook)]
    {
      r := answers.existsWebhook(slug, webhook);
      calls := calls + [ExistsWebhookCall(slug, webhook)];
    }
  }
}
