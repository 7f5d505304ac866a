/** AWS IAM instance profiles (aws/iam/instance_profile.go): the value built for
    one listed profile, whose identifier names the profile and its roles. */
module InstanceProfiles {
  import Strings

  /** The SDK client the profile keeps for deleting itself (an opaque handle). */
  datatype InstanceProfilesClient = InstanceProfilesClient(id: nat)

  /** An IAM role attached to the profile; only its name is used. */
  datatype Role = Role(roleName: string)

  datatype InstanceProfile = InstanceProfile(
    client: InstanceProfilesClient,
    name: string,
    identifier: string)

  /** The label one role contributes to the identifier. */
  function RoleLabel(r: Role): string {
    "Role:" + r.roleName
  }

  /** The labels of the roles, in the order the roles were given. */
  function Labels(roles: seq<Role>): seq<string> {
    if |roles| == 0 then []
    else Labels(roles[..|roles| - 1]) + [RoleLabel(roles[|roles| - 1])]
  }

  /** The identifier of a profile: its name, followed by the parenthesised,
      comma-separated role labels when it has roles. */
  function Identifier(name: string, roles: seq<Role>): string {
    if |roles| == 0 then name
    else name + " (" + Strings.Join(Labels(roles), ", ") + ")"
  }

  /** Builds the profile value: collects one label per role in a loop, then
      replaces the bare name by the decorated one when there was a label. */
  method NewInstanceProfile(client: InstanceProfilesClient, name: string, roles: seq<Role>)
      returns (p: InstanceProfile)
    ensures p.client == client && p.name == name
    ensures p.identifier == Identifier(name, roles)
  {
    var identifier := name;
    var extra: seq<string> := [];
    var i := 0;
    while i < |roles|
      invariant 0 <= i <= |roles|
      invariant extra == Labels(roles[..i])
    {
      assert roles[..i + 1][..i] == roles[..i];
      extra := extra + ["Role:" + roles[i].roleName];
      i := i + 1;
    }
    assert roles[..|roles|] == roles;
    LabelsLength(roles);
    if |extra| > 0 {
      identifier := name + " (" + Strings.Join(extra, ", ") + ")";
    }
    p := InstanceProfile(client, name, identifier);
  }

  lemma {:induction false} LabelsLength(roles: seq<Role>)
    ensures |Labels(roles)| == |roles|
  {
    if |roles| > 0 {
      LabelsLength(roles[..|roles| - 1]);
    }
  }

  /** One label per role, in input order, each "Role:" followed by the role's name. */
  lemma {:induction false} LabelsAt(roles: seq<Role>, k: nat)
    requires k < |roles|
    ensures |Labels(roles)| == |roles|
    ensures Labels(roles)[k] == "Role:" + roles[k].roleName
  {
    LabelsLength(roles);
    var init := roles[..|roles| - 1];
    if k < |roles| - 1 {
      LabelsAt(init, k);
      assert init[k] == roles[k];
    }
  }

  /** Without roles the identifier is exactly the profile name. */
  lemma IdentifierWithoutRoles(name: string)
    ensures Identifier(name, []) == name
  {
  }

  /** With roles the identifier is the name, a space, and the joined labels in parentheses. */
  lemma IdentifierWithRoles(name: string, roles: seq<Role>)
    requires |roles| > 0
    ensures Identifier(name, roles) == name + " (" + Strings.Join(Labels(roles), ", ") + ")"
  {
  }

  /** The identifier starts with the name, and differs from it exactly when there are roles. */
  lemma IdentifierExtendsName(name: string, roles: seq<Role>)
    ensures name <= Identifier(name, roles)
    ensures Identifier(name, roles) != name <==> |roles| > 0
  {
  }

  /** Every role's label can be read off the identifier. */
  lemma IdentifierNamesEveryRole(name: string, roles: seq<Role>, k: nat)
    requires k < |roles|
    ensures Strings.Contains(Identifier(name, roles), "Role:" + roles[k].roleName)
  {
    LabelsAt(roles, k);
    var joined := Strings.Join(Labels(roles), ", ");
    Strings.JoinContainsEach(Labels(roles), ", ", k);
    Strings.ContainsWithin(name + " (", joined, ")", Labels(roles)[k]);
  }
}
