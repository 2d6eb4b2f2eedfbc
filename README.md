# IAM bindings and storage request records, in Dafny

This project models three pieces of the Google Cloud C++ client library:

- **`IamBindings`** (`google/cloud/iam_bindings.cc`). This is a mutable table
  from a role name to the set of members granted that role. Members are
  added and removed one at a time, as a set, or as a whole `IamBinding`
  (a role with its member set). In the model it is the class
  `Iam.IamBindings` over a field `bindings: map<string, set<string>>`. Each
  method is specified against a pure function of the old table (`Added`,
  `Removed`). The lemmas next to those functions prove what the source
  promises:
  - an add creates the role's entry, even when nothing is added;
  - a remove never creates or deletes an entry;
  - removing a role's last member leaves an empty set;
  - adds and removes are idempotent;
  - no call touches a role it does not name;
  - over any sequence of calls, the set of roles never shrinks.
- **`ListBucketsRequest`** and **`ListBucketsResponse`**
  (`google/cloud/storage/internal/list_buckets_request.h`). The request is
  the class `ListBuckets.ListBucketsRequest`. It has a project id, a page
  token, fluent setters that return the request itself, and optional
  parameters of the four accepted kinds: MaxResults, Prefix, Projection
  and UserProject. The response is a plain record.
- **`CreateObjectAclRequest`** and **`ObjectAclRequest`**. Their behaviour
  is pinned down by `google/cloud/storage/internal/object_acl_requests_test.cc`.
  They are classes in `ObjectAcl`. Each has its mandatory fields, stored
  optional parameters, and a `Describe` function that models the stream
  rendering. `Describe` is proved to contain every mandatory field and a
  `key=value` entry for every parameter that is set.

The shared generic-request machinery is the module `RequestParameters`. It
holds:

- the parameter kinds;
- typed parameters;
- the kind-to-parameter store;
- `set_multiple_parameters` as the left-to-right function `WithParameters`,
  where the last parameter of a kind wins;
- the shared debug rendering.

`Text` holds substring containment (what the tests check with `HasSubstr`)
and the decimal rendering of integer parameter values, together with its
inverse.

In C++ the accepted parameter kinds of a request type are template
arguments, so a call with any other kind does not compile. The model
states this as a precondition of `SetMultipleParameters`. Each request's
`Valid()` invariant says that only accepted kinds are ever stored.

## Model

| member | source | states |
|---|---|---|
| `Iam.IamBindings.AddMember` | google/cloud/iam_bindings.cc:22-25 | afterwards the role has an entry containing the member; the table is the old one with the member inserted under the role (entry created if absent) |
| `Iam.IamBindings.AddBinding` | google/cloud/iam_bindings.cc:27-32 | the binding overload acts exactly as AddMembers on the binding's role and members |
| `Iam.IamBindings.AddMembers` | google/cloud/iam_bindings.cc:34-37 | the role's entry becomes the old members (none if absent) united with the given set, and it exists even when the set is empty |
| `Iam.IamBindings.RemoveMember` | google/cloud/iam_bindings.cc:39-52 | an absent role leaves the table unchanged; a present role loses the member if it had it; the set of roles is unchanged |
| `Iam.IamBindings.RemoveBinding` | google/cloud/iam_bindings.cc:54-70 | the binding overload removes the binding's members from the binding's role, if present, and keeps every role |
| `Iam.IamBindings.RemoveMembers` | google/cloud/iam_bindings.cc:72-86 | erasing the members one at a time gives the single set difference on a present role, and no change for an absent role; the set of roles is unchanged |
| `Iam.AddedSpec` | google/cloud/iam_bindings.cc:22-37 | after an add the roles are the old ones plus the named role, which holds exactly the old members and the added ones; every other role keeps its members |
| `Iam.AddNothingCreatesEntry` | google/cloud/iam_bindings.cc:34-37 | adding an empty set still creates the role's entry, with the old members, and is a no-op on a role already present |
| `Iam.RemovedSpec` | google/cloud/iam_bindings.cc:39-86 | a remove keeps exactly the same roles; a present role keeps exactly its members not in the removed set; every other role keeps its members |
| `Iam.RemoveFromAbsentRole` | google/cloud/iam_bindings.cc:41-44 | removing from a role with no entry leaves the whole table unchanged, so no entry is created |
| `Iam.RemoveAllKeepsEmptyEntry` | google/cloud/iam_bindings.cc:46-51 | removing every member of a role leaves the role in the table with an empty set |
| `Iam.RemoveMissingMember` | google/cloud/iam_bindings.cc:47-51 | removing a member the role does not have leaves the table unchanged |
| `Iam.AddIdempotent` | google/cloud/iam_bindings.cc:24 | adding the same members to the same role twice gives the same table as adding them once |
| `Iam.RemoveIdempotent` | google/cloud/iam_bindings.cc:64-69 | removing the same members from the same role twice gives the same table as removing them once |
| `Iam.AddThenRemove` | google/cloud/iam_bindings.cc:34-86 | removing what was just added leaves the role present with its old members minus the removed set |
| `Iam.RunNeverShrinksKeys` | google/cloud/iam_bindings.cc:22-86 | over any sequence of adds and removes, every role present at the start is still present at the end |
| `Iam.RunLeavesUnnamedRoles` | google/cloud/iam_bindings.cc:22-86 | a role that no call in a sequence names keeps its presence or absence, and its members, unchanged |
| `Iam.RunMembersCameFromSomewhere` | google/cloud/iam_bindings.cc:22-86 | every member of a role after a sequence of calls was either there at the start or added to that role by some call |
| `ListBuckets.ListBucketsRequest.constructor` | google/cloud/storage/internal/list_buckets_request.h:35 | a default request has an empty project id, an empty page token and no parameters |
| `ListBuckets.ListBucketsRequest.ForProject` | google/cloud/storage/internal/list_buckets_request.h:36-37 | the project id is the one given; the page token is empty |
| `ListBuckets.ListBucketsRequest.SetProjectId` | google/cloud/storage/internal/list_buckets_request.h:40-43 | the project id becomes the one given; the page token and parameters are unchanged; the same request is returned |
| `ListBuckets.ListBucketsRequest.SetPageToken` | google/cloud/storage/internal/list_buckets_request.h:46-49 | the page token becomes the one given; the project id and parameters are unchanged; the same request is returned |
| `ListBuckets.ListBucketsRequest.SetMultipleParameters` | google/cloud/storage/internal/list_buckets_request.h:32-33 | only MaxResults, Prefix, Projection and UserProject are accepted; they are stored left to right, the last of a kind wins, and the other fields are unchanged |
| `ListBuckets.ChainSetters` | google/cloud/storage/internal/list_buckets_request.h:40-49 | chained setters act on one request: setting the project id twice keeps the last value, and a following page-token setter keeps it |
| `ObjectAcl.CreateObjectAclRequest.constructor` | google/cloud/storage/internal/object_acl_requests_test.cc:26-33 | bucket, object, entity and role are the values given; no parameters are set |
| `ObjectAcl.CreateObjectAclRequest.SetMultipleParameters` | google/cloud/storage/internal/object_acl_requests_test.cc:38 | the parameters are stored left to right, the last of a kind wins, and the mandatory fields are unchanged |
| `ObjectAcl.CreateObjectAclRequest.Describe` | google/cloud/storage/internal/object_acl_requests_test.cc:39-47 | the rendering contains the bucket, object, entity and role, and a key=value entry for every parameter that is set |
| `ObjectAcl.ObjectAclRequest.constructor` | google/cloud/storage/internal/object_acl_requests_test.cc:50-55 | bucket, object and entity are the values given; no parameters are set |
| `ObjectAcl.ObjectAclRequest.SetMultipleParameters` | google/cloud/storage/internal/object_acl_requests_test.cc:59 | the parameters are stored left to right, the last of a kind wins, and the mandatory fields are unchanged |
| `ObjectAcl.ObjectAclRequest.Describe` | google/cloud/storage/internal/object_acl_requests_test.cc:60-67 | the rendering contains the bucket, object and entity, and a key=value entry for every parameter that is set |
| `ObjectAcl.StreamTestEntries` | google/cloud/storage/internal/object_acl_requests_test.cc:42-43 | UserProject("my-project") renders as userProject=my-project and Generation(7) as generation=7 |
| `ObjectAcl.CreateObjectAclRequestStream` | google/cloud/storage/internal/object_acl_requests_test.cc:35-48 | with a user project and a generation set, the create request's rendering contains both entries and all four mandatory fields |
| `ObjectAcl.ObjectAclRequestStream` | google/cloud/storage/internal/object_acl_requests_test.cc:57-68 | with a user project and a generation set, the ACL request's rendering contains both entries and all three mandatory fields |
| `RequestParameters.WithParametersFrame` | google/cloud/storage/internal/object_acl_requests_test.cc:38 | setting parameters adds exactly the kinds mentioned, and leaves every other stored parameter as it was |
| `RequestParameters.WithParametersLastWins` | google/cloud/storage/internal/object_acl_requests_test.cc:38 | the stored parameter of a kind is the last one of that kind passed |
| `RequestParameters.SetTwoDistinctStoresBoth` | google/cloud/storage/internal/object_acl_requests_test.cc:38-43 | one call with two parameters of distinct kinds stores both; neither overwrites the other |
| `RequestParameters.WithParametersKeepsAccepted` | google/cloud/storage/internal/list_buckets_request.h:32-33 | setting only accepted parameters keeps the store free of other kinds, with each parameter under its own kind |
| `RequestParameters.KeyInjective` | google/cloud/storage/internal/object_acl_requests_test.cc:42-43 | no two parameter kinds share a query key |
| `RequestParameters.Describe` | google/cloud/storage/internal/object_acl_requests_test.cc:42-47 | a request's rendering contains the value of every mandatory field and the key=value entry of every stored parameter |
| `RequestParameters.RenderFieldsMentions` | google/cloud/storage/internal/object_acl_requests_test.cc:44-47 | the rendered mandatory fields contain each field's value |
| `RequestParameters.RenderParamsMentions` | google/cloud/storage/internal/object_acl_requests_test.cc:42-43 | the rendered parameters contain the key=value entry of each present parameter of the listed kinds |
| `RequestParameters.KindsOf` | google/cloud/storage/internal/object_acl_requests_test.cc:38 | the kinds of a parameter list are exactly the kinds of its elements |
| `Text.NatDecimalRoundTrip` | google/cloud/storage/internal/object_acl_requests_test.cc:43 | reading back the decimal rendering of a natural number gives the number |
| `Text.IntToDecimalInjective` | google/cloud/storage/internal/object_acl_requests_test.cc:43 | distinct integer parameter values render differently |

## Left out

- `LoggingClient` (google/cloud/storage/internal/logging_client.h) is not modelled. It only declares a decorator that forwards every call to an inner client and logs it, and logging is I/O. Retry policies, backoff and jitter are not part of this model.
- `ListBucketsResponse::FromHttpResponse` is not modelled: its body is in list_buckets_request.cc, which this model does not cover, and it decodes HTTP and JSON. `ListBucketsResponse` is a plain record of the next page token and the items.
- `BucketMetadata` is reduced to a name. Its definition (bucket_metadata.h) is not part of this model.
- The `operator<<` of `ListBucketsRequest` and `ListBucketsResponse` is not modelled: the bodies are in list_buckets_request.cc and no test modelled here checks them.
- `ObjectAcl.CreateObjectAclRequest.Describe`: the model fixes one rendering layout, but the contract promises only that the rendering contains each field and entry, which is all the tests check. Exact layout, order and escaping are not promised.
- `ObjectAcl.ObjectAclRequest.Describe`: same as above.
- `GenericRequest` and the well-known parameters (request_parameters.h, well_known_parameters.h) are not part of this model. The store is an abstract map from kind to parameter. Only the kinds these request types use are modelled. The keys `maxResults`, `prefix` and `projection` are the service's names; only `userProject` and `generation` are fixed by the tests.
- The object ACL requests' accepted kinds (Generation and UserProject) are inferred from the tests, because object_acl_requests.h is not part of this model.
- Integer parameter values are unbounded integers; the source's 64-bit width is not modelled.
- `IamBinding` and the `IamBindings` constructors and accessors are declared in iam_bindings.h, which is not part of this model. `IamBinding` is a (role, set of members) pair, and `IamBindings` has only a default constructor, giving an empty table.
- `Iam.IamBindings.RemoveBinding` calls `RemoveMembers` instead of repeating its loop. In the source the two loop bodies are identical.
- `Iam.IamBindings.RemoveMembers` visits the members in an arbitrary order, while `std::set` iterates in sorted order. The result is the same whatever the order, which the method's contract proves.
- `Iam.IamBindings.RemoveMembers`: the model assumes the argument set never aliases the role's stored entry. The argument is a value here, so it cannot share storage with the table. In the source, passing the role's own stored set would erase the element the loop is standing on, which is undefined behaviour in C++; the model instead leaves the entry empty. Whether a caller can reach this case depends on accessors declared in iam_bindings.h, which is not part of this model.
- The C++ overloads `AddMembers(binding)` and `RemoveMembers(binding)` are named `AddBinding` and `RemoveBinding`, because Dafny has no overloading.
- The accessor functions (`ProjectId`, `BucketName`, …) return a field, and their contracts are carried by the constructors and setters.
