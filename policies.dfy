/** Listing AWS IAM policies for deletion (`Policies.List`, whose behaviour
    aws/iam/policies_test.go pins): keep the policies whose name contains the
    filter, ask once per such policy, and for each accepted one list its versions
    and return an item per non-default version followed by the policy itself. */
module Policies {
  import opened Errors
  import Strings

  datatype Policy = Policy(name: string, arn: string)
  datatype PolicyVersion = PolicyVersion(versionId: string, isDefault: bool)

  /** The deletable items `List` returns. */
  datatype Item =
    | PolicyItem(policyName: string, arn: string)
    | PolicyVersionItem(policyName: string, arn: string, versionId: string)

  /** `Name()` of an item: a version is named after its policy and its version id. */
  function ItemName(item: Item): (r: string)
    ensures item.policyName <= r
    ensures r == item.policyName <==> item.PolicyItem?
  {
    match item
    case PolicyItem(name, _) => name
    case PolicyVersionItem(name, _, v) => name + "-" + v
  }

  /** A call on a collaborator, in the order `List` makes them: the client's
      ListPolicies, ListPolicyVersions and DeletePolicyVersion, and the logger's Prompt. */
  datatype Call =
    | ListPolicies
    | Prompt(message: string)
    | ListPolicyVersions(arn: string)
    | DeletePolicyVersion(arn: string, versionId: string)

  /** What a run of `List` (or part of one) returns, with the calls it made. */
  datatype Listing = Listing(result: Result<seq<Item>>, calls: seq<Call>)

  const PoliciesPrefix: string := "Listing policies: "
  const VersionsPrefix: string := "Listing policy versions: "

  function PromptMessage(name: string): string {
    "Are you sure you want to delete policy " + name + "?"
  }

  /** The items of the non-default versions, in listed order. */
  function VersionItems(p: Policy, vs: seq<PolicyVersion>): seq<Item> {
    if |vs| == 0 then []
    else
      var v := vs[|vs| - 1];
      VersionItems(p, vs[..|vs| - 1]) + (if v.isDefault then [] else [PolicyVersionItem(p.name, p.arn, v.versionId)])
  }

  /** What one listed policy contributes. */
  function Visit(filter: string, p: Policy, versions: string -> Result<seq<PolicyVersion>>, prompt: string -> bool): Listing {
    if !Strings.Contains(p.name, filter) then Listing(Ok([]), [])
    else if !prompt(PromptMessage(p.name)) then Listing(Ok([]), [Prompt(PromptMessage(p.name))])
    else
      var calls := [Prompt(PromptMessage(p.name)), ListPolicyVersions(p.arn)];
      match versions(p.arn)
      case Failure(e) => Listing(Failure(VersionsPrefix + e), calls)
      case Ok(vs) => Listing(Ok(VersionItems(p, vs) + [PolicyItem(p.name, p.arn)]), calls)
  }

  /** A successful part followed by another part. */
  function Then(a: Listing, b: Listing): Listing
    requires a.result.Ok?
  {
    Listing(if b.result.Ok? then Ok(a.result.value + b.result.value) else b.result, a.calls + b.calls)
  }

  /** The policies visited in order, stopping at the first failure. */
  function Walk(filter: string, ps: seq<Policy>, versions: string -> Result<seq<PolicyVersion>>, prompt: string -> bool): Listing {
    if |ps| == 0 then Listing(Ok([]), [])
    else
      var v := Visit(filter, ps[0], versions, prompt);
      if v.result.Failure? then v else Then(v, Walk(filter, ps[1..], versions, prompt))
  }

  /** The whole of `List`: one ListPolicies call, then the walk over its policies. */
  function ListSpec(filter: string, listed: Result<seq<Policy>>, versions: string -> Result<seq<PolicyVersion>>, prompt: string -> bool): Listing {
    match listed
    case Failure(e) => Listing(Failure(PoliciesPrefix + e), [ListPolicies])
    case Ok(ps) => Then(Listing(Ok([]), [ListPolicies]), Walk(filter, ps, versions, prompt))
  }

  lemma ThenAssoc(a: Listing, b: Listing, c: Listing)
    requires a.result.Ok? && b.result.Ok?
    ensures Then(a, Then(b, c)) == Then(Then(a, b), c)
  {
    assert a.calls + (b.calls + c.calls) == a.calls + b.calls + c.calls;
    if c.result.Ok? {
      assert a.result.value + (b.result.value + c.result.value) == a.result.value + b.result.value + c.result.value;
    }
  }

  /** The inner loop of `List`: one item per non-default version, appended in order. */
  method AppendVersionItems(items: seq<Item>, p: Policy, vs: seq<PolicyVersion>) returns (r: seq<Item>)
    ensures r == items + VersionItems(p, vs)
  {
    r := items;
    var j := 0;
    while j < |vs|
      invariant 0 <= j <= |vs|
      invariant r == items + VersionItems(p, vs[..j])
    {
      assert vs[..j + 1][..j] == vs[..j];
      if !vs[j].isDefault {
        r := r + [PolicyVersionItem(p.name, p.arn, vs[j].versionId)];
      }
      j := j + 1;
    }
    assert vs[..|vs|] == vs;
  }

  /** `List(filter)`: `listed` is what ListPolicies returned, `versions` what
      ListPolicyVersions returns for an ARN, `prompt` the user's answer to a message. */
  method List(filter: string, listed: Result<seq<Policy>>, versions: string -> Result<seq<PolicyVersion>>, prompt: string -> bool)
      returns (res: Result<seq<Item>>, ghost calls: seq<Call>)
    ensures res == ListSpec(filter, listed, versions, prompt).result
    ensures calls == ListSpec(filter, listed, versions, prompt).calls
  {
    calls := [ListPolicies];
    if listed.Failure? {
      return Failure(PoliciesPrefix + listed.msg), calls;
    }
    var ps := listed.value;
    var items: seq<Item> := [];
    var i := 0;
    while i < |ps|
      invariant 0 <= i <= |ps|
      invariant ListSpec(filter, listed, versions, prompt) == Then(Listing(Ok(items), calls), Walk(filter, ps[i..], versions, prompt))
    {
      var p := ps[i];
      ghost var acc := Listing(Ok(items), calls);
      ghost var v := Visit(filter, p, versions, prompt);
      assert ps[i..][0] == p && ps[i..][1..] == ps[i + 1..];
      if v.result.Ok? {
        ThenAssoc(acc, v, Walk(filter, ps[i + 1..], versions, prompt));
      }
      if Strings.Contains(p.name, filter) {
        var message := PromptMessage(p.name);
        calls := calls + [Prompt(message)];
        var proceed := prompt(message);
        if proceed {
          calls := calls + [ListPolicyVersions(p.arn)];
          var listedVersions := versions(p.arn);
          if listedVersions.Failure? {
            assert calls == acc.calls + v.calls;
            return Failure(VersionsPrefix + listedVersions.msg), calls;
          }
          var vs := listedVersions.value;
          items := AppendVersionItems(items, p, vs);
          items := items + [PolicyItem(p.name, p.arn)];
          assert items == acc.result.value + (VersionItems(p, vs) + [PolicyItem(p.name, p.arn)]);
          assert calls == acc.calls + v.calls;
        } else {
          assert calls == acc.calls + v.calls;
        }
      } else {
        assert items == items + [] && calls == calls + [];
      }
      assert Listing(Ok(items), calls) == Then(acc, v);
      i := i + 1;
    }
    assert ps[|ps|..] == [];
    assert items + [] == items && calls + [] == calls;
    res := Ok(items);
  }

  // Views of a run used to state what the tests count.

  /** The listed policies whose name contains the filter. */
  function Matching(filter: string, ps: seq<Policy>): seq<Policy> {
    if |ps| == 0 then []
    else (if Strings.Contains(ps[0].name, filter) then [ps[0]] else []) + Matching(filter, ps[1..])
  }

  /** The matching policies whose prompt was answered yes. */
  function Accepted(filter: string, ps: seq<Policy>, prompt: string -> bool): seq<Policy> {
    if |ps| == 0 then []
    else
      (if Strings.Contains(ps[0].name, filter) && prompt(PromptMessage(ps[0].name)) then [ps[0]] else [])
      + Accepted(filter, ps[1..], prompt)
  }

  function Messages(ps: seq<Policy>): seq<string> {
    if |ps| == 0 then [] else [PromptMessage(ps[0].name)] + Messages(ps[1..])
  }

  function Arns(ps: seq<Policy>): seq<string> {
    if |ps| == 0 then [] else [ps[0].arn] + Arns(ps[1..])
  }

  function PolicyItems(ps: seq<Policy>): seq<Item> {
    if |ps| == 0 then [] else [PolicyItem(ps[0].name, ps[0].arn)] + PolicyItems(ps[1..])
  }

  /** The messages the user was prompted with, in order. */
  function PromptsIn(calls: seq<Call>): seq<string> {
    if |calls| == 0 then []
    else (if calls[0].Prompt? then [calls[0].message] else []) + PromptsIn(calls[1..])
  }

  /** The ARNs whose versions were listed, in order. */
  function VersionListingsIn(calls: seq<Call>): seq<string> {
    if |calls| == 0 then []
    else (if calls[0].ListPolicyVersions? then [calls[0].arn] else []) + VersionListingsIn(calls[1..])
  }

  /** The policy (not version) items, in order. */
  function PolicyItemsIn(items: seq<Item>): seq<Item> {
    if |items| == 0 then []
    else (if items[0].PolicyItem? then [items[0]] else []) + PolicyItemsIn(items[1..])
  }

  lemma {:induction false} PromptsInAppend(a: seq<Call>, b: seq<Call>)
    ensures PromptsIn(a + b) == PromptsIn(a) + PromptsIn(b)
  {
    if |a| > 0 {
      assert (a + b)[1..] == a[1..] + b;
      PromptsInAppend(a[1..], b);
    } else {
      assert a + b == b;
    }
  }

  lemma {:induction false} VersionListingsInAppend(a: seq<Call>, b: seq<Call>)
    ensures VersionListingsIn(a + b) == VersionListingsIn(a) + VersionListingsIn(b)
  {
    if |a| > 0 {
      assert (a + b)[1..] == a[1..] + b;
      VersionListingsInAppend(a[1..], b);
    } else {
      assert a + b == b;
    }
  }

  lemma {:induction false} PolicyItemsInAppend(a: seq<Item>, b: seq<Item>)
    ensures PolicyItemsIn(a + b) == PolicyItemsIn(a) + PolicyItemsIn(b)
  {
    if |a| > 0 {
      assert (a + b)[1..] == a[1..] + b;
      PolicyItemsInAppend(a[1..], b);
    } else {
      assert a + b == b;
    }
  }

  /** A walk only prompts and lists versions. */
  lemma {:induction false} WalkCalls(filter: string, ps: seq<Policy>, versions: string -> Result<seq<PolicyVersion>>, prompt: string -> bool)
    ensures forall c | c in Walk(filter, ps, versions, prompt).calls :: c.Prompt? || c.ListPolicyVersions?
  {
    if |ps| > 0 {
      WalkCalls(filter, ps[1..], versions, prompt);
    }
  }

  /** Policies are listed exactly once, first, and `List` deletes no policy version. */
  lemma ListsPoliciesOnceAndDeletesNothing(filter: string, listed: Result<seq<Policy>>, versions: string -> Result<seq<PolicyVersion>>, prompt: string -> bool)
    ensures var calls := ListSpec(filter, listed, versions, prompt).calls;
            && |calls| > 0 && calls[0] == ListPolicies && ListPolicies !in calls[1..]
            && forall c | c in calls :: !c.DeletePolicyVersion?
  {
    if listed.Ok? {
      WalkCalls(filter, listed.value, versions, prompt);
      var w := Walk(filter, listed.value, versions, prompt);
      assert ([ListPolicies] + w.calls)[1..] == w.calls;
    }
  }

  lemma {:induction false} WalkPrompts(filter: string, ps: seq<Policy>, versions: string -> Result<seq<PolicyVersion>>, prompt: string -> bool)
    requires Walk(filter, ps, versions, prompt).result.Ok?
    ensures PromptsIn(Walk(filter, ps, versions, prompt).calls) == Messages(Matching(filter, ps))
    ensures VersionListingsIn(Walk(filter, ps, versions, prompt).calls) == Arns(Accepted(filter, ps, prompt))
    ensures PolicyItemsIn(Walk(filter, ps, versions, prompt).result.value) == PolicyItems(Accepted(filter, ps, prompt))
  {
    if |ps| > 0 {
      var p := ps[0];
      var v := Visit(filter, p, versions, prompt);
      var rest := Walk(filter, ps[1..], versions, prompt);
      WalkPrompts(filter, ps[1..], versions, prompt);
      PromptsInAppend(v.calls, rest.calls);
      VersionListingsInAppend(v.calls, rest.calls);
      PolicyItemsInAppend(v.result.value, rest.result.value);
      assert Walk(filter, ps, versions, prompt) == Then(v, rest);
      if Strings.Contains(p.name, filter) {
        var m := PromptMessage(p.name);
        assert [Prompt(m)][1..] == [];
        assert [Prompt(m), ListPolicyVersions(p.arn)][1..] == [ListPolicyVersions(p.arn)];
        assert [ListPolicyVersions(p.arn)][1..] == [];
        assert PromptsIn(v.calls) == [m];
        assert Matching(filter, ps) == [p] + Matching(filter, ps[1..]);
        assert Messages([p] + Matching(filter, ps[1..])) == [PromptMessage(p.name)] + Messages(Matching(filter, ps[1..])) by {
          assert ([p] + Matching(filter, ps[1..]))[1..] == Matching(filter, ps[1..]);
        }
        if prompt(PromptMessage(p.name)) {
          var vs := versions(p.arn).value;
          assert Accepted(filter, ps, prompt) == [p] + Accepted(filter, ps[1..], prompt);
          assert ([p] + Accepted(filter, ps[1..], prompt))[1..] == Accepted(filter, ps[1..], prompt);
          PolicyItemsInAppend(VersionItems(p, vs), [PolicyItem(p.name, p.arn)]);
          VersionItemsHoldNoPolicy(p, vs);
          assert [PolicyItem(p.name, p.arn)][1..] == [];
          assert VersionListingsIn(v.calls) == [p.arn];
          assert ([p] + Accepted(filter, ps[1..], prompt))[1..] == Accepted(filter, ps[1..], prompt);
        } else {
          assert VersionListingsIn(v.calls) == [];
          assert Accepted(filter, ps, prompt) == Accepted(filter, ps[1..], prompt);
        }
        assert PromptsIn(Walk(filter, ps, versions, prompt).calls) == [m] + PromptsIn(rest.calls);
      } else {
        assert Accepted(filter, ps, prompt) == Accepted(filter, ps[1..], prompt);
        assert Matching(filter, ps) == Matching(filter, ps[1..]);
      }
    }
  }

  lemma {:induction false} VersionItemsHoldNoPolicy(p: Policy, vs: seq<PolicyVersion>)
    ensures PolicyItemsIn(VersionItems(p, vs)) == []
  {
    if |vs| > 0 {
      var v := vs[|vs| - 1];
      VersionItemsHoldNoPolicy(p, vs[..|vs| - 1]);
      PolicyItemsInAppend(VersionItems(p, vs[..|vs| - 1]), if v.isDefault then [] else [PolicyVersionItem(p.name, p.arn, v.versionId)]);
    }
  }

  /** On success: each policy whose name contains the filter was prompted exactly once,
      in listed order, with "Are you sure you want to delete policy <name>?"; the
      versions of exactly the accepted policies were listed, once each; and the
      policy items returned are exactly the accepted policies, in order. */
  lemma PromptsAndListingsFollowFilterAndAnswers(filter: string, ps: seq<Policy>, versions: string -> Result<seq<PolicyVersion>>, prompt: string -> bool)
    requires ListSpec(filter, Ok(ps), versions, prompt).result.Ok?
    ensures var l := ListSpec(filter, Ok(ps), versions, prompt);
            && PromptsIn(l.calls) == Messages(Matching(filter, ps))
            && VersionListingsIn(l.calls) == Arns(Accepted(filter, ps, prompt))
            && PolicyItemsIn(l.result.value) == PolicyItems(Accepted(filter, ps, prompt))
  {
    var w := Walk(filter, ps, versions, prompt);
    WalkPrompts(filter, ps, versions, prompt);
    PromptsInAppend([ListPolicies], w.calls);
    VersionListingsInAppend([ListPolicies], w.calls);
    assert [] + w.result.value == w.result.value;
  }

  lemma {:induction false} WalkErrors(filter: string, ps: seq<Policy>, versions: string -> Result<seq<PolicyVersion>>, prompt: string -> bool)
    requires Walk(filter, ps, versions, prompt).result.Failure?
    ensures exists k | 0 <= k < |ps| ::
              && Strings.Contains(ps[k].name, filter) && prompt(PromptMessage(ps[k].name))
              && versions(ps[k].arn).Failure?
              && Walk(filter, ps, versions, prompt).result.msg == VersionsPrefix + versions(ps[k].arn).msg
  {
    var v := Visit(filter, ps[0], versions, prompt);
    if v.result.Ok? {
      WalkErrors(filter, ps[1..], versions, prompt);
      var k :| 0 <= k < |ps[1..]| && Strings.Contains(ps[1..][k].name, filter) && prompt(PromptMessage(ps[1..][k].name))
               && versions(ps[1..][k].arn).Failure?
               && Walk(filter, ps[1..], versions, prompt).result.msg == VersionsPrefix + versions(ps[1..][k].arn).msg;
      assert ps[1..][k] == ps[k + 1];
    }
  }

  /** An independent reading of `List`'s result: take the accepted policies first,
      then expand each, in order, into its non-default version items followed by
      itself, stopping at the first version listing that fails. */
  function Expand(ps: seq<Policy>, versions: string -> Result<seq<PolicyVersion>>): Result<seq<Item>> {
    if |ps| == 0 then Ok([])
    else
      match versions(ps[0].arn)
      case Failure(e) => Failure(VersionsPrefix + e)
      case Ok(vs) =>
        match Expand(ps[1..], versions)
        case Failure(e) => Failure(e)
        case Ok(rest) => Ok(VersionItems(ps[0], vs) + [PolicyItem(ps[0].name, ps[0].arn)] + rest)
  }

  lemma {:induction false} WalkIsExpandOfAccepted(filter: string, ps: seq<Policy>, versions: string -> Result<seq<PolicyVersion>>, prompt: string -> bool)
    ensures Walk(filter, ps, versions, prompt).result == Expand(Accepted(filter, ps, prompt), versions)
  {
    if |ps| > 0 {
      var p := ps[0];
      WalkIsExpandOfAccepted(filter, ps[1..], versions, prompt);
      var rest := Accepted(filter, ps[1..], prompt);
      if Strings.Contains(p.name, filter) && prompt(PromptMessage(p.name)) {
        assert Accepted(filter, ps, prompt) == [p] + rest;
        assert ([p] + rest)[0] == p && ([p] + rest)[1..] == rest;
      } else {
        assert Accepted(filter, ps, prompt) == rest;
        var w := Walk(filter, ps[1..], versions, prompt);
        assert Visit(filter, p, versions, prompt).result == Ok([]);
        assert Walk(filter, ps, versions, prompt) == Then(Visit(filter, p, versions, prompt), w);
        if w.result.Ok? {
          assert [] + w.result.value == w.result.value;
        }
      }
    }
  }

  /** For every listing of policies, the result of `List` (its items or its error) is
      that of filtering and prompting first and then expanding the accepted policies:
      a policy that does not match or is declined contributes nothing, and the items
      are the accepted policies' own, in listed order. */
  lemma ListIsExpandOfAccepted(filter: string, ps: seq<Policy>, versions: string -> Result<seq<PolicyVersion>>, prompt: string -> bool)
    ensures ListSpec(filter, Ok(ps), versions, prompt).result == Expand(Accepted(filter, ps, prompt), versions)
  {
    WalkIsExpandOfAccepted(filter, ps, versions, prompt);
    var w := Walk(filter, ps, versions, prompt);
    if w.result.Ok? {
      assert [] + w.result.value == w.result.value;
    }
  }

  /** Every error names what failed: "Listing policies: " and the client's message when
      the policies cannot be listed, otherwise "Listing policy versions: " and the message
      of the version listing of a policy that was accepted. */
  lemma ErrorsArePrefixed(filter: string, listed: Result<seq<Policy>>, versions: string -> Result<seq<PolicyVersion>>, prompt: string -> bool)
    requires ListSpec(filter, listed, versions, prompt).result.Failure?
    ensures var msg := ListSpec(filter, listed, versions, prompt).result.msg;
            || (listed.Failure? && msg == PoliciesPrefix + listed.msg)
            || (listed.Ok? && exists k | 0 <= k < |listed.value| ::
                  && Strings.Contains(listed.value[k].name, filter) && prompt(PromptMessage(listed.value[k].name))
                  && versions(listed.value[k].arn).Failure?
                  && msg == VersionsPrefix + versions(listed.value[k].arn).msg)
  {
    if listed.Ok? {
      WalkErrors(filter, listed.value, versions, prompt);
    }
  }

  /** The version items are exactly the non-default versions of the policy. */
  lemma {:induction false} VersionItemsAreTheNonDefaultVersions(p: Policy, vs: seq<PolicyVersion>)
    ensures forall it | it in VersionItems(p, vs) ::
              exists v | v in vs :: !v.isDefault && it == PolicyVersionItem(p.name, p.arn, v.versionId)
    ensures forall v | v in vs && !v.isDefault :: PolicyVersionItem(p.name, p.arn, v.versionId) in VersionItems(p, vs)
  {
    if |vs| > 0 {
      var init := vs[..|vs| - 1];
      VersionItemsAreTheNonDefaultVersions(p, init);
      forall v | v in vs && !v.isDefault ensures PolicyVersionItem(p.name, p.arn, v.versionId) in VersionItems(p, vs) {
        if v != vs[|vs| - 1] {
          var k :| 0 <= k < |vs| && vs[k] == v;
          assert init[k] == v;
        }
      }
      forall it | it in VersionItems(p, vs)
        ensures exists v | v in vs :: !v.isDefault && it == PolicyVersionItem(p.name, p.arn, v.versionId)
      {
        if it in VersionItems(p, init) {
          var v :| v in init && !v.isDefault && it == PolicyVersionItem(p.name, p.arn, v.versionId);
          var k :| 0 <= k < |init| && init[k] == v;
          assert vs[k] == v;
        } else {
          assert vs[|vs| - 1] in vs;
        }
      }
    }
  }

  // The scenarios of the test, each for an arbitrary single policy.

  /** A one-policy listing is that policy's visit after the ListPolicies call. */
  lemma ListSingle(filter: string, p: Policy, versions: string -> Result<seq<PolicyVersion>>, prompt: string -> bool)
    ensures var v := Visit(filter, p, versions, prompt);
            ListSpec(filter, Ok([p]), versions, prompt)
              == Listing(v.result, [ListPolicies] + v.calls)
  {
    var v := Visit(filter, p, versions, prompt);
    assert [p][1..] == [];
    assert [p][0] == p;
    assert Walk(filter, [], versions, prompt) == Listing(Ok([]), []);
    if v.result.Ok? {
      assert v.result.value + [] == v.result.value && v.calls + [] == v.calls;
      assert [] + v.result.value == v.result.value;
      assert Walk(filter, [p], versions, prompt) == Then(v, Listing(Ok([]), []));
      assert Walk(filter, [p], versions, prompt) == v;
    } else {
      assert Walk(filter, [p], versions, prompt) == v;
    }
  }

  /** A policy whose name lacks the filter is neither prompted nor returned. */
  lemma NonMatchingPolicyIsIgnored(filter: string, p: Policy, versions: string -> Result<seq<PolicyVersion>>, prompt: string -> bool)
    requires !Strings.Contains(p.name, filter)
    ensures ListSpec(filter, Ok([p]), versions, prompt) == Listing(Ok([]), [ListPolicies])
  {
    ListSingle(filter, p, versions, prompt);
    assert [ListPolicies] + [] == [ListPolicies];
  }

  /** A declined policy is skipped and its versions are not listed. */
  lemma DeclinedPolicyIsSkipped(filter: string, p: Policy, versions: string -> Result<seq<PolicyVersion>>, prompt: string -> bool)
    requires Strings.Contains(p.name, filter) && !prompt(PromptMessage(p.name))
    ensures ListSpec(filter, Ok([p]), versions, prompt)
         == Listing(Ok([]), [ListPolicies, Prompt("Are you sure you want to delete policy " + p.name + "?")])
  {
    ListSingle(filter, p, versions, prompt);
    assert [ListPolicies] + [Prompt(PromptMessage(p.name))] == [ListPolicies, Prompt(PromptMessage(p.name))];
  }

  /** An accepted policy with only its default version yields just the policy. */
  lemma DefaultVersionOnlyYieldsThePolicy(filter: string, p: Policy, v: string, versions: string -> Result<seq<PolicyVersion>>, prompt: string -> bool)
    requires Strings.Contains(p.name, filter) && prompt(PromptMessage(p.name))
    requires versions(p.arn) == Ok([PolicyVersion(v, true)])
    ensures ListSpec(filter, Ok([p]), versions, prompt)
         == Listing(Ok([PolicyItem(p.name, p.arn)]), [ListPolicies, Prompt(PromptMessage(p.name)), ListPolicyVersions(p.arn)])
  {
    ListSingle(filter, p, versions, prompt);
    assert [ListPolicies] + [Prompt(PromptMessage(p.name)), ListPolicyVersions(p.arn)] == [ListPolicies, Prompt(PromptMessage(p.name)), ListPolicyVersions(p.arn)];
    assert [PolicyVersion(v, true)][..0] == [];
    assert VersionItems(p, [PolicyVersion(v, true)]) == [];
    assert VersionItems(p, [PolicyVersion(v, true)]) + [PolicyItem(p.name, p.arn)] == [PolicyItem(p.name, p.arn)];
  }

  /** An accepted policy with a default and a non-default version yields the version
      item, named "<policy>-<version>", before the policy item. */
  lemma NonDefaultVersionComesFirst(filter: string, p: Policy, v1: string, v2: string, versions: string -> Result<seq<PolicyVersion>>, prompt: string -> bool)
    requires Strings.Contains(p.name, filter) && prompt(PromptMessage(p.name))
    requires versions(p.arn) == Ok([PolicyVersion(v2, true), PolicyVersion(v1, false)])
    ensures var l := ListSpec(filter, Ok([p]), versions, prompt);
            && l.result == Ok([PolicyVersionItem(p.name, p.arn, v1), PolicyItem(p.name, p.arn)])
            && ItemName(l.result.value[0]) == p.name + "-" + v1
            && l.calls == [ListPolicies, Prompt(PromptMessage(p.name)), ListPolicyVersions(p.arn)]
  {
    ListSingle(filter, p, versions, prompt);
    assert [ListPolicies] + [Prompt(PromptMessage(p.name)), ListPolicyVersions(p.arn)] == [ListPolicies, Prompt(PromptMessage(p.name)), ListPolicyVersions(p.arn)];
    var vs := [PolicyVersion(v2, true), PolicyVersion(v1, false)];
    assert vs[..1] == [PolicyVersion(v2, true)];
    assert VersionItems(p, vs[..1]) == [];
    assert VersionItems(p, vs) == [PolicyVersionItem(p.name, p.arn, v1)];
    assert VersionItems(p, vs) + [PolicyItem(p.name, p.arn)] == [PolicyVersionItem(p.name, p.arn, v1), PolicyItem(p.name, p.arn)];
  }

  /** When the policies cannot be listed, the error is prefixed and nobody is prompted. */
  lemma PolicyListingFailureStopsEarly(filter: string, e: string, versions: string -> Result<seq<PolicyVersion>>, prompt: string -> bool)
    ensures ListSpec(filter, Failure(e), versions, prompt) == Listing(Failure("Listing policies: " + e), [ListPolicies])
  {
  }

  /** When an accepted policy's versions cannot be listed, the error is prefixed. */
  lemma VersionListingFailureIsReported(filter: string, p: Policy, e: string, versions: string -> Result<seq<PolicyVersion>>, prompt: string -> bool)
    requires Strings.Contains(p.name, filter) && prompt(PromptMessage(p.name))
    requires versions(p.arn) == Failure(e)
    ensures ListSpec(filter, Ok([p]), versions, prompt).result == Failure("Listing policy versions: " + e)
  {
    ListSingle(filter, p, versions, prompt);
  }
}
