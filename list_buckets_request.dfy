/**
 The request to list the buckets of a project, and the page of results it
 returns. The request holds a project id and a page token with fluent
 setters that return the request itself, plus the optional parameters of the
 four kinds the request type accepts.
 */
module ListBuckets {
  import opened RequestParameters

  /** The optional parameter kinds a ListBucketsRequest accepts. */
  const ListBucketsAccepts: set<ParamKind> := {MaxResultsKind, PrefixKind, ProjectionKind, UserProjectKind}

  /** A bucket's metadata; only its name is part of this model. */
  datatype BucketMetadata = BucketMetadata(name: string)

  /** One page of results: the buckets and the token of the next page (empty on the last page). */
  datatype ListBucketsResponse = ListBucketsResponse(nextPageToken: string, items: seq<BucketMetadata>)

  class ListBucketsRequest {
    var projectId: string
    var pageToken: string
    var params: map<ParamKind, Parameter>

    /** Stored parameters are well keyed and of accepted kinds only. */
    ghost predicate Valid()
      reads this
    {
      WellKeyed(params) && params.Keys <= ListBucketsAccepts
    }

    /** The default request: no project, no page token, no parameters. */
    constructor ()
      ensures Valid()
      ensures projectId == "" && pageToken == "" && params == map[]
    {
      projectId, pageToken, params := "", "", map[];
    }

    /** A request for the buckets of `projectId`, starting at the first page. */
    constructor ForProject(projectId: string)
      ensures Valid()
      ensures this.projectId == projectId && pageToken == "" && params == map[]
    {
      this.projectId, pageToken, params := projectId, "", map[];
    }

    function ProjectId(): string
      reads this
    {
      projectId
    }

    function PageToken(): string
      reads this
    {
      pageToken
    }

    /** Replaces the project id, leaves everything else, and returns this same request. */
    method SetProjectId(projectId: string) returns (self: ListBucketsRequest)
      requires Valid()
      modifies this
      ensures Valid() && self == this
      ensures this.projectId == projectId
      ensures pageToken == old(pageToken) && params == old(params)
    {
      this.projectId := projectId;
      self := this;
    }

    /** Replaces the page token, leaves everything else, and returns this same request. */
    method SetPageToken(pageToken: string) returns (self: ListBucketsRequest)
      requires Valid()
      modifies this
      ensures Valid() && self == this
      ensures this.pageToken == pageToken
      ensures projectId == old(projectId) && params == old(params)
    {
      this.pageToken := pageToken;
      self := this;
    }

    /**
     Stores each of `ps` in turn; a later parameter of a kind overwrites an
     earlier one. Only accepted kinds can be passed: any other kind is
     rejected before the request is ever built.
     */
    method SetMultipleParameters(ps: seq<Parameter>)
      requires Valid() && AllAccepted(ps, ListBucketsAccepts)
      modifies this
      ensures Valid()
      ensures params == WithParameters(old(params), ps)
      ensures projectId == old(projectId) && pageToken == old(pageToken)
    {
      WithParametersKeepsAccepted(params, ps, ListBucketsAccepts);
      params := WithParameters(params, ps);
    }
  }

  /**
   Chained setters act on one request: setting the project id twice keeps the
   last value, and setting the page token afterwards does not disturb it.
   */
  method ChainSetters(request: ListBucketsRequest, first: string, projectId: string, pageToken: string)
    requires request.Valid()
    modifies request
    ensures request.Valid()
    ensures request.projectId == projectId && request.pageToken == pageToken
    ensures request.params == old(request.params)
  {
    var r := request.SetProjectId(first);
    r := r.SetProjectId(projectId);
    r := r.SetPageToken(pageToken);
  }
}
