# leftovers adapter logic in Dafny

This project models five small, sequential pieces of the adapter layer of
*leftovers*, a tool that finds and deletes cloud resources left behind by test
runs:

- **AWS instance profiles** (`InstanceProfiles`): building the display
  identifier of a profile, its name followed by `" (Role:a, Role:b)"` when roles
  are attached. The loop that collects the role labels is a method proved
  against the closed form `Identifier`.
- **GCP compute client** (`ComputeClient`): which part of the compute API every
  `List*`/`Delete*` wrapper reads (the collection of the client's project, region
  or zone, and for a delete only the named item in it), the `selfLink → name` maps built by
  `ListRegions` and `ListZones` (loops proved against `BySelfLink`), and `wait`,
  which returns a request error unchanged or hands the operation to a waiter.
- **GCP Cloud SQL client** (`SqlClient`): `NewClient`, `ListInstances`,
  `DeleteInstance` (which does not wait), and `wait`, which wraps a request error
  as `"Do request: ..."`.
- **AWS IAM policy listing** (`Policies`): `Policies.List` as its test pins it:
  the name filter, one confirmation prompt per matching policy, version listing
  for accepted policies, an item per non-default version before the policy's own
  item, and the error prefixes.
- **GCP IAM service-account deletion** (`ServiceAccounts`): `Delete` reads the
  project IAM policy once, prints a `gcloud ... remove-iam-policy-binding`
  advisory for each binding member naming the account, then deletes the account
  by name; `NewServiceAccount`, `Name` and `Type`.

Collaborators are abstract. Every SDK `Do()`, the operation waiter's `Wait()`,
the user prompt, and the IAM clients' ListPolicyVersions and DeleteServiceAccount
are oracle functions passed in as parameters. The IAM clients' ListPolicies and
GetProjectIamPolicy are each called once, so their responses are plain values
(`listed`, `policy`). A Go `error` is modelled by its message (`Errors.Outcome`,
`Errors.Result`), and `fmt.Errorf("P: %s", err)` is the concatenation
`"P: " + msg`. Where the tests observe calls through fake call counters, the
model records a ghost trace of the calls in order (`Policies.Call`,
`ServiceAccounts.Event`), and the counts follow from lemmas about that trace.
Each imperative operation is a method whose postcondition ties its result and
trace to a recursive specification function. The properties the source and its
tests promise are lemmas about those functions.

The files are `errors.dfy`, `strings.dfy` (Go's `strings.Contains` and
`strings.Join`), `instance_profile.dfy`, `compute_client.dfy`, `sql_client.dfy`,
`policies.dfy` and `service_account.dfy`.

## Model

| member | source | states |
|---|---|---|
| InstanceProfiles.NewInstanceProfile | aws/iam/instance_profile.go:16-33 | the built value keeps the given client and name unchanged, and its identifier is the closed form `Identifier(name, roles)` (the loop over the roles collects exactly `Labels(roles)`) |
| InstanceProfiles.LabelsAt | aws/iam/instance_profile.go:19-22 | there is exactly one label per role, in input order, and label k is `"Role:"` followed by role k's name |
| InstanceProfiles.IdentifierWithoutRoles | aws/iam/instance_profile.go:17-26 | with no roles the identifier is exactly the profile name |
| InstanceProfiles.IdentifierWithRoles | aws/iam/instance_profile.go:24-26 | with one or more roles the identifier is `name + " (" + join(labels, ", ") + ")"` |
| InstanceProfiles.IdentifierExtendsName | aws/iam/instance_profile.go:17-26 | the identifier always begins with the profile name, and differs from it if and only if there are roles |
| InstanceProfiles.IdentifierNamesEveryRole | aws/iam/instance_profile.go:19-26 | every role's `"Role:<name>"` label occurs in the identifier |
| Strings.Contains | aws/iam/policies_test.go:113-121 | the empty filter is contained in every name; a contained string is never longer than the name; a name contains each of its prefixes, as `"banana-policy"` contains `"banana"` |
| Strings.Join | aws/iam/instance_profile.go:25 | joining no strings gives `""`; a joined string starts with the first element and ends with the last |
| Strings.JoinContainsEach | aws/iam/instance_profile.go:25 | every element of a joined list occurs in the string `strings.Join` produces |
| ComputeClient.Wait | gcp/compute/client.go:229-243 | a failing `Do()` returns its error unchanged; otherwise the result is `Wait()` of a waiter holding the returned operation and the client's service, project and logger |
| ComputeClient.WaitSkipsWaiterOnRequestError | gcp/compute/client.go:229-233 | when `Do()` fails no waiter is consulted: replacing the waiter changes nothing and the result is the request's error |
| ComputeClient.DeleteSubnetworkSwapsArguments | gcp/compute/client.go:161-162 | `DeleteSubnetwork(subnetwork, region)` issues the delete with `(project, region, subnetwork)`, the caller's order swapped, which is the shape `DeleteAddress(region, address)` uses without a swap |
| ComputeClient.DeleteAddress | gcp/compute/client.go:65-67 | the result is what `wait` gives for a Delete call on the Addresses service with `(project, region, address)`: the request's error, or the waiter's verdict on its operation |
| ComputeClient.DeleteBackendService | gcp/compute/client.go:73-75 | the result is what `wait` gives for a Delete call on the BackendServices service with `(project, backendService)`: the request's error, or the waiter's verdict on its operation |
| ComputeClient.DeleteDisk | gcp/compute/client.go:81-83 | the result is what `wait` gives for a Delete call on the Disks service with `(project, zone, disk)`: the request's error, or the waiter's verdict on its operation |
| ComputeClient.DeleteInstance | gcp/compute/client.go:89-91 | the result is what `wait` gives for a Delete call on the Instances service with `(project, zone, instance)`: the request's error, or the waiter's verdict on its operation |
| ComputeClient.DeleteInstanceGroup | gcp/compute/client.go:97-99 | the result is what `wait` gives for a Delete call on the InstanceGroups service with `(project, zone, instanceGroup)`: the request's error, or the waiter's verdict on its operation |
| ComputeClient.DeleteGlobalHealthCheck | gcp/compute/client.go:105-107 | the result is what `wait` gives for a Delete call on the GlobalHealthChecks service with `(project, globalHealthCheck)`: the request's error, or the waiter's verdict on its operation |
| ComputeClient.DeleteHttpHealthCheck | gcp/compute/client.go:113-115 | the result is what `wait` gives for a Delete call on the HttpHealthChecks service with `(project, httpHealthCheck)`: the request's error, or the waiter's verdict on its operation |
| ComputeClient.DeleteHttpsHealthCheck | gcp/compute/client.go:121-123 | the result is what `wait` gives for a Delete call on the HttpsHealthChecks service with `(project, httpsHealthCheck)`: the request's error, or the waiter's verdict on its operation |
| ComputeClient.DeleteFirewall | gcp/compute/client.go:129-131 | the result is what `wait` gives for a Delete call on the Firewalls service with `(project, firewall)`: the request's error, or the waiter's verdict on its operation |
| ComputeClient.DeleteGlobalForwardingRule | gcp/compute/client.go:137-139 | the result is what `wait` gives for a Delete call on the GlobalForwardingRules service with `(project, globalForwardingRule)`: the request's error, or the waiter's verdict on its operation |
| ComputeClient.DeleteForwardingRule | gcp/compute/client.go:145-147 | the result is what `wait` gives for a Delete call on the ForwardingRules service with `(project, region, forwardingRule)`: the request's error, or the waiter's verdict on its operation |
| ComputeClient.DeleteNetwork | gcp/compute/client.go:153-155 | the result is what `wait` gives for a Delete call on the Networks service with `(project, network)`: the request's error, or the waiter's verdict on its operation |
| ComputeClient.DeleteSubnetwork | gcp/compute/client.go:161-163 | the result is what `wait` gives for a Delete call on the Subnetworks service with `(project, region, subnetwork)`: the request's error, or the waiter's verdict on its operation |
| ComputeClient.DeleteTargetHttpProxy | gcp/compute/client.go:169-171 | the result is what `wait` gives for a Delete call on the TargetHttpProxies service with `(project, targetHttpProxy)`: the request's error, or the waiter's verdict on its operation |
| ComputeClient.DeleteTargetHttpsProxy | gcp/compute/client.go:177-179 | the result is what `wait` gives for a Delete call on the TargetHttpsProxies service with `(project, targetHttpsProxy)`: the request's error, or the waiter's verdict on its operation |
| ComputeClient.DeleteTargetPool | gcp/compute/client.go:185-187 | the result is what `wait` gives for a Delete call on the TargetPools service with `(project, region, targetPool)`: the request's error, or the waiter's verdict on its operation |
| ComputeClient.DeleteUrlMap | gcp/compute/client.go:193-195 | the result is what `wait` gives for a Delete call on the UrlMaps service with `(project, urlMap)`: the request's error, or the waiter's verdict on its operation |
| ComputeClient.GlobalListsStayInProject | gcp/compute/client.go:69-191 | every global list (backend services, health checks, firewalls, global forwarding rules, networks, target proxies, URL maps) reads only its own collection in the client's project: two APIs that answer alike on calls there give the same listing |
| ComputeClient.GlobalDeletesStayOnTheItem | gcp/compute/client.go:73-131 | deleting a backend service, global, HTTP or HTTPS health check, or firewall reads only the call on `(project, name)` in its collection and the waiters of the client's project: two APIs that agree there give the same result |
| ComputeClient.GlobalNetworkDeletesStayOnTheItem | gcp/compute/client.go:137-195 | the same for deleting a global forwarding rule, network, target HTTP or HTTPS proxy, or URL map |
| ComputeClient.RegionalListsStayInRegion | gcp/compute/client.go:61-183 | listing addresses, forwarding rules, subnetworks or target pools reads only the collection at `(project, region)` |
| ComputeClient.RegionalDeletesStayOnTheItem | gcp/compute/client.go:65-187 | a regional delete reads only the call on `(project, region, name)` and the project's waiters, for `DeleteSubnetwork(name, region)` too |
| ComputeClient.ZonalListsStayInZone | gcp/compute/client.go:77-95 | listing disks, instances or instance groups reads only the collection at `(project, zone)` |
| ComputeClient.ZonalDeletesStayOnTheItem | gcp/compute/client.go:81-99 | a zonal delete reads only the call on `(project, zone, name)` and the project's waiters |
| ComputeClient.BySelfLinkKeys | gcp/compute/client.go:205-208 | the key set of the map the listing loop builds is exactly the set of the items' self links |
| ComputeClient.BySelfLinkLastWins | gcp/compute/client.go:205-208 | each self link maps to the name of the last item carrying that self link |
| ComputeClient.ListRegions | gcp/compute/client.go:197-209 | if listing the project's regions fails the result is an empty map with that same error; otherwise no error and the map from every self link to the name of the last region carrying it, its keys exactly the self links |
| ComputeClient.ListZones | gcp/compute/client.go:211-223 | the same two properties as `ListRegions`, over the project's zones |
| SqlClient.NewClient | gcp/sql/client.go:18-25 | the client keeps project, logger and service, and its instances field is the service's instances sub-service |
| SqlClient.NewClientRoutesToServiceInstances | gcp/sql/client.go:18-34 | a client made by `NewClient` lists and deletes through `service.Instances` with its project |
| SqlClient.CallsStayWithinClient | gcp/sql/client.go:27-34 | listing reads only the client's instances sub-service for its project, and deleting an instance only the deletion of that instance there |
| SqlClient.DeleteInstance | gcp/sql/client.go:31-34 | the result is only the error of the delete request: a request that succeeds gives no error whatever its operation |
| SqlClient.DeleteInstanceDoesNotWait | gcp/sql/client.go:31-34 | `DeleteInstance` never consults a waiter, so an operation whose wait would fail still reports success where `wait` on the same call reports the failure |
| SqlClient.Wait | gcp/sql/client.go:40-48 | a failing `Do()` gives the error `"Do request: " + message`; otherwise the result is `Wait()` of `NewOperationWaiter(op, service, project, logger)` |
| SqlClient.WaitSkipsWaiterOnRequestError | gcp/sql/client.go:41-46 | on a request failure no waiter is consulted: replacing the waiter changes nothing |
| SqlClient.WaitErrorKeepsMessage | gcp/sql/client.go:41-44 | the wrapped error starts with `"Do request: "` and the rest is exactly the original message |
| Policies.List | aws/iam/policies_test.go:46-136 | the items returned and the calls made (ListPolicies, each Prompt, each ListPolicyVersions) are exactly those of the specification `ListSpec`: filter on name, one prompt per match, versions listed for accepted policies, non-default version items before the policy item, prefixed errors |
| Policies.ListsPoliciesOnceAndDeletesNothing | aws/iam/policies_test.go:50-53 | policies are listed exactly once, as the first call, and `List` never calls DeletePolicyVersion |
| Policies.PromptsAndListingsFollowFilterAndAnswers | aws/iam/policies_test.go:50-56 | on success every policy whose name contains the filter is prompted exactly once, in order, with `"Are you sure you want to delete policy " + name + "?"`; the versions of exactly the accepted policies are listed once each; the policy items are exactly the accepted policies |
| Policies.AppendVersionItems | aws/iam/policies_test.go:62-86 | the inner loop over a policy's versions appends exactly `VersionItems(p, vs)`, the items of its non-default versions in listed order, to what was collected |
| Policies.ListIsExpandOfAccepted | aws/iam/policies_test.go:46-136 | for any listed policies the result (items or error) equals taking the matching, accepted policies first and then expanding each in order into its non-default version items and itself, stopping at the first failed version listing; a non-matching or declined policy contributes nothing |
| Policies.ItemName | aws/iam/policies_test.go:85 | an item's name starts with its policy's name, and equals it exactly for a policy item (a version item's name is longer) |
| Policies.ErrorsArePrefixed | aws/iam/policies_test.go:89-110 | every error is `"Listing policies: " + msg` for a failed policy listing, or `"Listing policy versions: " + msg` for the version listing of an accepted policy |
| Policies.VersionItemsAreTheNonDefaultVersions | aws/iam/policies_test.go:62-86 | the version items of a policy are exactly its non-default versions, each carrying the policy's name and ARN and the version id |
| Policies.NonMatchingPolicyIsIgnored | aws/iam/policies_test.go:113-121 | a policy whose name does not contain the filter is never prompted and yields no items |
| Policies.DeclinedPolicyIsSkipped | aws/iam/policies_test.go:123-135 | a declined policy yields no items and its versions are never listed |
| Policies.DefaultVersionOnlyYieldsThePolicy | aws/iam/policies_test.go:46-58 | an accepted policy whose only version is the default yields exactly the policy item, after one ListPolicies, one prompt and one version listing |
| Policies.NonDefaultVersionComesFirst | aws/iam/policies_test.go:62-86 | an accepted policy with a default and a non-default version yields two items, the first the version item named `policyName + "-" + versionId` |
| Policies.PolicyListingFailureStopsEarly | aws/iam/policies_test.go:89-99 | a failed policy listing returns `"Listing policies: " + msg` and prompts nothing |
| Policies.VersionListingFailureIsReported | aws/iam/policies_test.go:102-110 | a failed version listing returns `"Listing policy versions: " + msg` |
| ServiceAccounts.NewServiceAccountNameAndType | gcp/iam/service_account_test.go:34-102 | an account built by `NewServiceAccount(client, logger, name, email)` has `Name()` equal to `name` and `Type()` equal to `"IAM Service Account"`, and keeps the email, client and logger |
| ServiceAccounts.Delete | gcp/iam/service_account_test.go:37-89 | the error and the calls made (GetProjectIamPolicy, each Printf, DeleteServiceAccount) are exactly those of the specification `DeleteSpec` |
| ServiceAccounts.CallsInOrder | gcp/iam/service_account_test.go:38-46 | once the policy is read it has been fetched exactly once, first; the account is deleted exactly once, last, by its name; every call between is a printed advisory |
| ServiceAccounts.MemberAdvisoriesExact | gcp/iam/service_account_test.go:48-66 | within one binding an advisory is printed exactly for the members equal to `"serviceAccount:" + email`, each for that binding's role |
| ServiceAccounts.AdvisoriesOnlyForTheAccount | gcp/iam/service_account_test.go:48-66 | every printed advisory is the `"gcloud iam service-accounts remove-iam-policy-binding %s --member %s --role %s\n"` format with arguments `[email, member, role]` of a binding naming the account |
| ServiceAccounts.AdvisoryForEveryBinding | gcp/iam/service_account_test.go:48-66 | every binding whose members include `"serviceAccount:" + email` gets its advisory |
| ServiceAccounts.DeleteWithoutBindings | gcp/iam/service_account_test.go:38-46 | with no bindings `Delete` fetches the policy once, deletes the account once passing its name, and returns no error |
| ServiceAccounts.DeleteWithBindingPrintsAdvisory | gcp/iam/service_account_test.go:48-66 | a binding naming the account prints the advisory with `[email, member, role]` between the policy read and the deletion, and no error is returned |
| ServiceAccounts.PolicyReadFailureIsReported | gcp/iam/service_account_test.go:69-78 | a failed policy read returns `"Remove IAM Policy Bindings: Get Project IAM Policy: " + msg` and deletes nothing |
| ServiceAccounts.DeletionFailureIsReported | gcp/iam/service_account_test.go:80-89 | a failed deletion returns `"Delete: " + msg` |

## Left out

- The implementations of `Policies.List` and `ServiceAccount.Delete` (aws/iam/policies.go, gcp/iam/service_account.go) are not part of this model. Their behaviour is taken from the two test files. Where the tests leave a point open, the model makes these choices:
  - `List` checks the filter before prompting.
  - `List` lists versions by the policy's ARN.
  - A version-listing error ends the whole listing with no items.
  - `Delete` prints one advisory per binding member equal to `"serviceAccount:" + email`.
  - `Delete` does not attempt the deletion after a failed policy read.
- Policies.List: the input of the ListPolicies call (its scope) is not modelled, and the prompt is a function of its message, so two policies with the same name get the same answer.
- Policies.PromptsAndListingsFollowFilterAndAnswers: states the prompt and version-listing sequences only for runs that succeed. A run that fails stops at the failing policy, and the lemma says nothing about that run's prefix.
- The seventeen `List*` wrappers of `ComputeClient` and `SqlClient.ListInstances` have no contract of their own: each returns the response to one call. The `...StayIn...` and `...StayOnTheItem` lemmas state what part of the API each wrapper reads.
- The SDK calls themselves and the `*gcpcompute.Service` wiring in the compute `NewClient`: a call is a `Call` value naming the sub-service, and its `Do()` is an oracle.
- The operation waiter's polling, sleeping and timeouts: `Wait()` is an opaque outcome. The waiter's source is not part of this model.
- Nil dereferences: `*name` and `*r.RoleName` in `NewInstanceProfile` are plain strings, so the model has no nil-dereference panic.
- `fmt.Sprintf`/`Errorf` beyond `%s`: messages are concatenations. The advisory is recorded as the format string and its arguments, as the logger receives them.
- main.go (flag and environment parsing, provider dispatch), aws/rds/logger.go (an interface only) and aws/ec2/fakes/route_tables.go (a generated test double with a mutex): no logic to state.
- The modelled files contain no multi-pass sweep, convergence detection, confirmation modes or waiter state machine, so none is modelled:
  - The compute `wait` returns request errors unchanged and does not treat "not found" as success.
  - No orchestration loop is invented.
