/**
 The object access-control requests: one that creates an ACL entry (bucket,
 object, entity and role) and one that names an existing entry (bucket,
 object and entity). Each also stores optional parameters, and each renders
 a debug description that mentions every mandatory field and a `key=value`
 entry for every parameter that is set.
 */
module ObjectAcl {
  import opened Text
  import opened RequestParameters

  /** The optional parameter kinds the object ACL requests accept. */
  const ObjectAclAccepts: set<ParamKind> := {GenerationKind, UserProjectKind}

  class CreateObjectAclRequest {
    var bucketName: string
    var objectName: string
    var entity: string
    var role: string
    var params: map<ParamKind, Parameter>

    ghost predicate Valid()
      reads this
    {
      WellKeyed(params) && params.Keys <= ObjectAclAccepts
    }

    constructor (bucketName: string, objectName: string, entity: string, role: string)
      ensures Valid()
      ensures this.bucketName == bucketName && this.objectName == objectName
      ensures this.entity == entity && this.role == role
      ensures params == map[]
    {
      this.bucketName, this.objectName := bucketName, objectName;
      this.entity, this.role := entity, role;
      params := map[];
    }

    function BucketName(): string
      reads this
    {
      bucketName
    }

    function ObjectName(): string
      reads this
    {
      objectName
    }

    function Entity(): string
      reads this
    {
      entity
    }

    function Role(): string
      reads this
    {
      role
    }

    /** Stores each of `ps` in turn, later ones of a kind overwriting earlier ones; mandatory fields stay. */
    method SetMultipleParameters(ps: seq<Parameter>)
      requires Valid() && AllAccepted(ps, ObjectAclAccepts)
      modifies this
      ensures Valid()
      ensures params == WithParameters(old(params), ps)
      ensures bucketName == old(bucketName) && objectName == old(objectName)
      ensures entity == old(entity) && role == old(role)
    {
      WithParametersKeepsAccepted(params, ps, ObjectAclAccepts);
      params := WithParameters(params, ps);
    }

    /** The stream rendering: it mentions every mandatory field and every present parameter. */
    function Describe(): (s: string)
      reads this
      ensures Contains(s, bucketName) && Contains(s, objectName)
      ensures Contains(s, entity) && Contains(s, role)
      ensures forall k :: k in params ==> Contains(s, Entry(params[k]))
    {
      var fields := [("bucket_name", bucketName), ("object_name", objectName), ("entity", entity), ("role", role)];
      var s := RequestParameters.Describe("CreateObjectAclRequest", fields, params);
      assert fields[0].1 == bucketName && fields[1].1 == objectName;
      assert fields[2].1 == entity && fields[3].1 == role;
      s
    }
  }

  class ObjectAclRequest {
    var bucketName: string
    var objectName: string
    var entity: string
    var params: map<ParamKind, Parameter>

    ghost predicate Valid()
      reads this
    {
      WellKeyed(params) && params.Keys <= ObjectAclAccepts
    }

    constructor (bucketName: string, objectName: string, entity: string)
      ensures Valid()
      ensures this.bucketName == bucketName && this.objectName == objectName && this.entity == entity
      ensures params == map[]
    {
      this.bucketName, this.objectName, this.entity := bucketName, objectName, entity;
      params := map[];
    }

    function BucketName(): string
      reads this
    {
      bucketName
    }

    function ObjectName(): string
      reads this
    {
      objectName
    }

    function Entity(): string
      reads this
    {
      entity
    }

    /** Stores each of `ps` in turn, later ones of a kind overwriting earlier ones; mandatory fields stay. */
    method SetMultipleParameters(ps: seq<Parameter>)
      requires Valid() && AllAccepted(ps, ObjectAclAccepts)
      modifies this
      ensures Valid()
      ensures params == WithParameters(old(params), ps)
      ensures bucketName == old(bucketName) && objectName == old(objectName) && entity == old(entity)
    {
      WithParametersKeepsAccepted(params, ps, ObjectAclAccepts);
      params := WithParameters(params, ps);
    }

    /** The stream rendering: it mentions every mandatory field and every present parameter. */
    function Describe(): (s: string)
      reads this
      ensures Contains(s, bucketName) && Contains(s, objectName) && Contains(s, entity)
      ensures forall k :: k in params ==> Contains(s, Entry(params[k]))
    {
      var fields := [("bucket_name", bucketName), ("object_name", objectName), ("entity", entity)];
      var s := RequestParameters.Describe("ObjectAclRequest", fields, params);
      assert fields[0].1 == bucketName && fields[1].1 == objectName && fields[2].1 == entity;
      s
    }
  }

  /** The entries the user-project and generation parameters of the stream tests render as. */
  lemma StreamTestEntries()
    ensures Entry(UserProject("my-project")) == "userProject=my-project"
    ensures Entry(Generation(7)) == "generation=7"
  {
  }

  /**
   A create request with a user project and a generation set renders all
   four mandatory fields and both parameters.
   */
  method CreateObjectAclRequestStream() returns (s: string)
    ensures Contains(s, "userProject=my-project") && Contains(s, "generation=7")
    ensures Contains(s, "my-bucket") && Contains(s, "my-object")
    ensures Contains(s, "user-testuser") && Contains(s, "READER")
  {
    var request := new CreateObjectAclRequest("my-bucket", "my-object", "user-testuser", "READER");
    request.SetMultipleParameters([UserProject("my-project"), Generation(7)]);
    SetTwoDistinctStoresBoth(map[], UserProject("my-project"), Generation(7));
    StreamTestEntries();
    s := request.Describe();
  }

  /** An ACL request with a user project and a generation set renders its three mandatory fields and both parameters. */
  method ObjectAclRequestStream() returns (s: string)
    ensures Contains(s, "userProject=my-project") && Contains(s, "generation=7")
    ensures Contains(s, "my-bucket") && Contains(s, "my-object") && Contains(s, "user-test-user")
  {
    var request := new ObjectAclRequest("my-bucket", "my-object", "user-test-user");
    request.SetMultipleParameters([UserProject("my-project"), Generation(7)]);
    SetTwoDistinctStoresBoth(map[], UserProject("my-project"), Generation(7));
    StreamTestEntries();
    s := request.Describe();
  }
}
