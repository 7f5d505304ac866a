/** Deleting a GCP IAM service account (`ServiceAccount`, whose behaviour
    gcp/iam/service_account_test.go pins): read the project's IAM policy once,
    print the gcloud command that removes each binding naming the account, then
    delete the account by name. */
module ServiceAccounts {
  import opened Errors

  /** The IAM client and the logger the account holds (opaque handles). */
  datatype Client = Client(id: nat)
  datatype Logger = Logger(id: nat)

  datatype ServiceAccount = ServiceAccount(client: Client, logger: Logger, name: string, email: string)

  /** `NewServiceAccount(client, logger, name, email)`. */
  function NewServiceAccount(client: Client, logger: Logger, name: string, email: string): ServiceAccount {
    ServiceAccount(client, logger, name, email)
  }

  /** `Name()`. */
  function Name(account: ServiceAccount): string {
    account.name
  }

  /** `Type()`: the resource-kind label. */
  function Type(account: ServiceAccount): string {
    "IAM Service Account"
  }

  /** An account built by `NewServiceAccount` is named by the name it was given,
      is of type "IAM Service Account", and keeps the email, client and logger it was given. */
  lemma NewServiceAccountNameAndType(client: Client, logger: Logger, name: string, email: string)
    ensures var account := NewServiceAccount(client, logger, name, email);
            && Name(account) == name
            && Type(account) == "IAM Service Account"
            && account.email == email && account.client == client && account.logger == logger
  {
  }

  datatype Binding = Binding(members: seq<string>, role: string)
  datatype IamPolicy = IamPolicy(bindings: seq<Binding>)

  /** A call on a collaborator, in the order `Delete` makes them: the client's
      GetProjectIamPolicy and DeleteServiceAccount, and the logger's Printf. */
  datatype Event =
    | GetProjectIamPolicy
    | Printf(format: string, args: seq<string>)
    | DeleteServiceAccount(name: string)

  /** What `Delete` returns, with the calls it made. */
  datatype Deletion = Deletion(err: Outcome, events: seq<Event>)

  const AdvisoryFormat: string := "gcloud iam service-accounts remove-iam-policy-binding %s --member %s --role %s\n"
  const BindingsPrefix: string := "Remove IAM Policy Bindings: "
  const GetPolicyPrefix: string := "Get Project IAM Policy: "
  const DeletePrefix: string := "Delete: "

  /** How the account appears among a binding's members. */
  function MemberName(email: string): string {
    "serviceAccount:" + email
  }

  /** The advisory printed for one matching member of a binding with the given role. */
  function Advisory(email: string, member: string, role: string): Event {
    Printf(AdvisoryFormat, [email, member, role])
  }

  /** The advisories for the members of one binding, in member order. */
  function MemberAdvisories(email: string, members: seq<string>, role: string): seq<Event> {
    if |members| == 0 then []
    else
      var m := members[|members| - 1];
      MemberAdvisories(email, members[..|members| - 1], role)
      + (if m == MemberName(email) then [Advisory(email, m, role)] else [])
  }

  /** The advisories for all bindings, in binding order. */
  function Advisories(email: string, bindings: seq<Binding>): seq<Event> {
    if |bindings| == 0 then []
    else
      var b := bindings[|bindings| - 1];
      Advisories(email, bindings[..|bindings| - 1]) + MemberAdvisories(email, b.members, b.role)
  }

  /** The whole of `Delete`, with `policy` what GetProjectIamPolicy returned and
      `deleter` what DeleteServiceAccount returns for a name. */
  function DeleteSpec(account: ServiceAccount, policy: Result<IamPolicy>, deleter: string -> Outcome): Deletion {
    match policy
    case Failure(e) => Deletion(Fail(BindingsPrefix + GetPolicyPrefix + e), [GetProjectIamPolicy])
    case Ok(p) =>
      var events := [GetProjectIamPolicy] + Advisories(account.email, p.bindings) + [DeleteServiceAccount(account.name)];
      match deleter(account.name)
      case Fail(e) => Deletion(Fail(DeletePrefix + e), events)
      case Pass => Deletion(Pass, events)
  }

  /** `Delete()`. */
  method Delete(account: ServiceAccount, policy: Result<IamPolicy>, deleter: string -> Outcome)
      returns (err: Outcome, ghost events: seq<Event>)
    ensures err == DeleteSpec(account, policy, deleter).err
    ensures events == DeleteSpec(account, policy, deleter).events
  {
    events := [GetProjectIamPolicy];
    if policy.Failure? {
      return Fail(BindingsPrefix + GetPolicyPrefix + policy.msg), events;
    }
    var bindings := policy.value.bindings;
    var member := MemberName(account.email);
    var i := 0;
    while i < |bindings|
      invariant 0 <= i <= |bindings|
      invariant events == [GetProjectIamPolicy] + Advisories(account.email, bindings[..i])
    {
      var b := bindings[i];
      assert bindings[..i + 1][..i] == bindings[..i];
      ghost var before := events;
      var j := 0;
      while j < |b.members|
        invariant 0 <= j <= |b.members|
        invariant events == before + MemberAdvisories(account.email, b.members[..j], b.role)
      {
        assert b.members[..j + 1][..j] == b.members[..j];
        if b.members[j] == member {
          events := events + [Printf(AdvisoryFormat, [account.email, b.members[j], b.role])];
        }
        j := j + 1;
      }
      assert b.members[..|b.members|] == b.members;
      i := i + 1;
    }
    assert bindings[..|bindings|] == bindings;
    events := events + [DeleteServiceAccount(account.name)];
    var deleted := deleter(account.name);
    if deleted.Fail? {
      return Fail(DeletePrefix + deleted.msg), events;
    }
    err := Pass;
  }

  /** The advisories of one binding: one per member naming the account, all for its role. */
  lemma {:induction false} MemberAdvisoriesExact(email: string, members: seq<string>, role: string)
    ensures forall e | e in MemberAdvisories(email, members, role) ::
              e == Advisory(email, MemberName(email), role) && MemberName(email) in members
    ensures MemberName(email) in members ==> Advisory(email, MemberName(email), role) in MemberAdvisories(email, members, role)
  {
    if |members| > 0 {
      var init := members[..|members| - 1];
      MemberAdvisoriesExact(email, init, role);
      assert forall m | m in init :: m in members;
      if MemberName(email) in members && MemberName(email) != members[|members| - 1] {
        var k :| 0 <= k < |members| && members[k] == MemberName(email);
        assert init[k] == members[k];
      }
    }
  }

  /** Every advisory is the gcloud removal command for a binding that names the
      account: the email, the account's member string and that binding's role. */
  lemma {:induction false} AdvisoriesOnlyForTheAccount(email: string, bindings: seq<Binding>)
    ensures forall e | e in Advisories(email, bindings) ::
              exists k | 0 <= k < |bindings| ::
                MemberName(email) in bindings[k].members
                && e == Printf(AdvisoryFormat, [email, "serviceAccount:" + email, bindings[k].role])
  {
    if |bindings| > 0 {
      var n := |bindings| - 1;
      var init := bindings[..n];
      AdvisoriesOnlyForTheAccount(email, init);
      MemberAdvisoriesExact(email, bindings[n].members, bindings[n].role);
      forall e | e in Advisories(email, bindings)
        ensures exists k | 0 <= k < |bindings| ::
                  MemberName(email) in bindings[k].members
                  && e == Printf(AdvisoryFormat, [email, "serviceAccount:" + email, bindings[k].role])
      {
        if e in Advisories(email, init) {
          var k :| 0 <= k < |init| && MemberName(email) in init[k].members
                   && e == Printf(AdvisoryFormat, [email, "serviceAccount:" + email, init[k].role]);
          assert bindings[k] == init[k];
        } else {
          assert e in MemberAdvisories(email, bindings[n].members, bindings[n].role);
        }
      }
    }
  }

  /** Every binding that names the account gets its advisory. */
  lemma {:induction false} AdvisoryForEveryBinding(email: string, bindings: seq<Binding>, k: nat)
    requires k < |bindings| && "serviceAccount:" + email in bindings[k].members
    ensures Printf(AdvisoryFormat, [email, "serviceAccount:" + email, bindings[k].role]) in Advisories(email, bindings)
  {
    var n := |bindings| - 1;
    if k < n {
      assert bindings[..n][k] == bindings[k];
      AdvisoryForEveryBinding(email, bindings[..n], k);
    } else {
      MemberAdvisoriesExact(email, bindings[n].members, bindings[n].role);
    }
  }

  lemma {:induction false} AdvisoriesArePrintfs(email: string, bindings: seq<Binding>)
    ensures forall e | e in Advisories(email, bindings) :: e.Printf?
  {
    AdvisoriesOnlyForTheAccount(email, bindings);
  }

  /** Once the policy is read: it is fetched exactly once, first; the account is
      deleted exactly once, last, by its name; everything between is a printed advisory. */
  lemma CallsInOrder(account: ServiceAccount, p: IamPolicy, deleter: string -> Outcome)
    ensures var events := DeleteSpec(account, Ok(p), deleter).events;
            && |events| >= 2
            && events[0] == GetProjectIamPolicy && GetProjectIamPolicy !in events[1..]
            && events[|events| - 1] == DeleteServiceAccount(account.name)
            && (forall k | 0 <= k < |events| - 1 :: !events[k].DeleteServiceAccount?)
            && (forall k | 0 < k < |events| - 1 :: events[k].Printf?)
  {
    var adv := Advisories(account.email, p.bindings);
    AdvisoriesArePrintfs(account.email, p.bindings);
    var events := [GetProjectIamPolicy] + adv + [DeleteServiceAccount(account.name)];
    assert events[1..] == adv + [DeleteServiceAccount(account.name)];
    forall k | 0 < k < |events| - 1 ensures events[k].Printf? {
      assert events[k] == adv[k - 1];
    }
  }

  // The scenarios of the test.

  /** Without bindings: one policy read, one deletion with the account's name, no error
      when the deletion succeeds. */
  lemma DeleteWithoutBindings(account: ServiceAccount, deleter: string -> Outcome)
    requires deleter(account.name) == Pass
    ensures DeleteSpec(account, Ok(IamPolicy([])), deleter)
         == Deletion(Pass, [GetProjectIamPolicy, DeleteServiceAccount(account.name)])
  {
  }

  /** A binding naming the account prints the gcloud command with the email, the
      member and the role, and the deletion still succeeds. */
  lemma DeleteWithBindingPrintsAdvisory(account: ServiceAccount, role: string, deleter: string -> Outcome)
    requires deleter(account.name) == Pass
    ensures var member := "serviceAccount:" + account.email;
            DeleteSpec(account, Ok(IamPolicy([Binding([member], role)])), deleter)
              == Deletion(Pass, [ GetProjectIamPolicy,
                                  Printf("gcloud iam service-accounts remove-iam-policy-binding %s --member %s --role %s\n",
                                         [account.email, member, role]),
                                  DeleteServiceAccount(account.name) ])
  {
    var member := MemberName(account.email);
    var b := Binding([member], role);
    assert [b][..0] == [];
    assert [member][..0] == [];
    assert MemberAdvisories(account.email, [member], role) == [Advisory(account.email, member, role)];
    assert Advisories(account.email, [b]) == [Advisory(account.email, member, role)];
  }

  /** A failed policy read is reported with both prefixes and nothing is deleted. */
  lemma PolicyReadFailureIsReported(account: ServiceAccount, e: string, deleter: string -> Outcome)
    ensures DeleteSpec(account, Failure(e), deleter)
         == Deletion(Fail("Remove IAM Policy Bindings: Get Project IAM Policy: " + e), [GetProjectIamPolicy])
  {
    assert BindingsPrefix + GetPolicyPrefix == "Remove IAM Policy Bindings: Get Project IAM Policy: ";
    assert BindingsPrefix + GetPolicyPrefix + e == (BindingsPrefix + GetPolicyPrefix) + e;
  }

  /** A failed deletion is reported with the "Delete: " prefix. */
  lemma DeletionFailureIsReported(account: ServiceAccount, p: IamPolicy, e: string, deleter: string -> Outcome)
    requires deleter(account.name) == Fail(e)
    ensures DeleteSpec(account, Ok(p), deleter).err == Fail("Delete: " + e)
  {
  }
}
