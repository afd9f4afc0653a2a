/** IAM bindings for the Google-managed service accounts that AgentSpace
    needs (installation_scripts/manage_iam.py). The project's IAM policy,
    which `get_iam_policy` reads and `set_iam_policy` replaces, is the
    `policy` field of the manager; a remote call that raises is an injected
    fault keyed by the description of the role being set up. */
module Iam {
  import opened Wrappers
  import opened Sorting

  /** A role and the members it is granted to. */
  datatype Binding = Binding(role: string, members: seq<string>)

  // ----- service accounts and members -----

  const EmailDomain := ".iam.gserviceaccount.com"

  function EmailHead(projectNumber: string): string {
    "service-" + projectNumber + "@gcp-sa-"
  }

  /** `_get_service_account_email`: the service agent of `service` in the
      project with number `projectNumber`. */
  function ServiceAccountEmail(projectNumber: string, service: string): string {
    EmailHead(projectNumber) + service + EmailDomain
  }

  /** The service named by a service-agent email of the project. */
  function ServiceOf(projectNumber: string, email: string): string
    requires |EmailHead(projectNumber)| + |EmailDomain| <= |email|
  {
    email[|EmailHead(projectNumber)|..|email| - |EmailDomain|]
  }

  /** The service can be read back from its service agent's email. */
  lemma ServiceOfEmail(projectNumber: string, service: string)
    ensures |EmailHead(projectNumber)| + |EmailDomain| <= |ServiceAccountEmail(projectNumber, service)|
    ensures ServiceOf(projectNumber, ServiceAccountEmail(projectNumber, service)) == service
  {
    var e := ServiceAccountEmail(projectNumber, service);
    var h := EmailHead(projectNumber);
    assert e == h + service + EmailDomain;
    assert e[|h|..|e| - |EmailDomain|] == service;
  }

  /** Different services have different service agents. */
  lemma ServiceAccountEmailInjective(projectNumber: string, s1: string, s2: string)
    requires ServiceAccountEmail(projectNumber, s1) == ServiceAccountEmail(projectNumber, s2)
    ensures s1 == s2
  {
    ServiceOfEmail(projectNumber, s1);
    ServiceOfEmail(projectNumber, s2);
  }

  /** The IAM member naming a service account. */
  function MemberOf(serviceAccount: string): string {
    "serviceAccount:" + serviceAccount
  }

  lemma MemberOfInjective(a: string, b: string)
    requires MemberOf(a) == MemberOf(b)
    ensures a == b
  {
    assert a == MemberOf(a)[15..];
    assert b == MemberOf(b)[15..];
  }

  // ----- the policy -----

  /** Some binding grants `role` to `member`. */
  predicate Grants(bindings: seq<Binding>, role: string, member: string) {
    exists b :: b in bindings && b.role == role && member in b.members
  }

  /** Index of the first binding for `role`. */
  function FirstWithRole(bindings: seq<Binding>, role: string): (r: Option<nat>)
    ensures r.Some? ==> r.value < |bindings| && bindings[r.value].role == role
    ensures r.Some? ==> forall k :: 0 <= k < r.value ==> bindings[k].role != role
    ensures r.None? ==> forall k :: 0 <= k < |bindings| ==> bindings[k].role != role
  {
    if bindings == [] then None
    else if bindings[0].role == role then Some(0)
    else match FirstWithRole(bindings[1..], role)
      case None => None
      case Some(k) => Some(k + 1)
  }

  /** Index of the first binding that grants `role` to `member`. */
  function FirstGrant(bindings: seq<Binding>, role: string, member: string): (r: Option<nat>)
    ensures r.None? <==> !Grants(bindings, role, member)
    ensures r.Some? ==> r.value < |bindings| && bindings[r.value].role == role && member in bindings[r.value].members
    ensures r.Some? ==> forall k :: 0 <= k < r.value ==> !(bindings[k].role == role && member in bindings[k].members)
  {
    if bindings == [] then None
    else if bindings[0].role == role && member in bindings[0].members then Some(0)
    else match FirstGrant(bindings[1..], role, member)
      case None =>
        assert !Grants(bindings, role, member) by {
          forall b | b in bindings && b.role == role ensures member !in b.members {
            if b != bindings[0] { assert b in bindings[1..]; }
          }
        }
        None
      case Some(k) => Some(k + 1)
  }

  /** The policy after `_add_role_binding` grants `role` to `member`: the
      member joins the first binding for the role, or a new binding is
      appended when the role has none. */
  function WithMember(bindings: seq<Binding>, role: string, member: string): seq<Binding> {
    match FirstWithRole(bindings, role)
    case Some(k) => bindings[k := Binding(role, bindings[k].members + [member])]
    case None => bindings + [Binding(role, [member])]
  }

  /** Granting adds exactly the one pair and keeps every other grant. */
  lemma WithMemberGrants(bindings: seq<Binding>, role: string, member: string, r: string, m: string)
    ensures Grants(WithMember(bindings, role, member), r, m) <==> Grants(bindings, r, m) || (r == role && m == member)
  {
    var after := WithMember(bindings, role, member);
    match FirstWithRole(bindings, role)
    case Some(k) =>
      var nb := Binding(role, bindings[k].members + [member]);
      assert after[k] == nb;
      if Grants(bindings, r, m) {
        var b :| b in bindings && b.role == r && m in b.members;
        var i :| 0 <= i < |bindings| && bindings[i] == b;
        if i == k {
          assert m in nb.members;
        } else {
          assert after[i] == b;
        }
      }
      if r == role && m == member {
        assert nb in after && m in nb.members;
      }
      if Grants(after, r, m) {
        var b :| b in after && b.role == r && m in b.members;
        var i :| 0 <= i < |after| && after[i] == b;
        if i != k {
          assert bindings[i] == b;
        } else if m != member {
          assert m in bindings[k].members;
          assert bindings[k] in bindings;
        }
      }
    case None =>
      if Grants(bindings, r, m) {
        var b :| b in bindings && b.role == r && m in b.members;
        assert b in after;
      }
      if r == role && m == member {
        assert Binding(role, [member]) in after;
      }
      if Grants(after, r, m) {
        var b :| b in after && b.role == r && m in b.members;
        if b != Binding(role, [member]) {
          assert b in bindings;
        }
      }
  }

  /** `list.remove(x)`: drops the first occurrence of `x`. */
  function RemoveFirst<T(==)>(s: seq<T>, x: T): (r: seq<T>)
    requires x in s
    ensures multiset(r) == multiset(s) - multiset{x}
    ensures forall y :: y in r ==> y in s
  {
    if s[0] == x then
      assert s == [s[0]] + s[1..];
      s[1..]
    else
      assert s == [s[0]] + s[1..];
      [s[0]] + RemoveFirst(s[1..], x)
  }

  /** The policy after `_remove_role_binding` takes `member` out of the first
      binding granting it `role`; a binding left without members is removed
      from the policy (the first binding equal to it). `None` when nothing
      grants the role. */
  function WithoutMember(bindings: seq<Binding>, role: string, member: string): (r: Option<seq<Binding>>)
    ensures r.Some? <==> Grants(bindings, role, member)
  {
    match FirstGrant(bindings, role, member)
    case None => None
    case Some(k) =>
      var nb := Binding(role, RemoveFirst(bindings[k].members, member));
      var updated := bindings[k := nb];
      assert updated[k] == nb;
      if nb.members == [] then Some(RemoveFirst(updated, nb)) else Some(updated)
  }

  /** Removing one occurrence of `x` keeps every other element. */
  lemma RemoveFirstKeeps<T>(s: seq<T>, x: T, y: T)
    requires x in s && y != x
    ensures y in RemoveFirst(s, x) <==> y in s
  {
    var r := RemoveFirst(s, x);
    assert multiset(r)[y] == multiset(s)[y];
    assert y in r <==> y in multiset(r);
    assert y in s <==> y in multiset(s);
  }

  /** The binding granting the pair, with the member taken out. */
  function Trimmed(bindings: seq<Binding>, role: string, member: string): seq<Binding>
    requires Grants(bindings, role, member)
  {
    var k := FirstGrant(bindings, role, member).value;
    bindings[k := Binding(role, RemoveFirst(bindings[k].members, member))]
  }

  /** After removal the policy holds the trimmed bindings, less at most one
      binding left without members. */
  lemma WithoutMemberShape(bindings: seq<Binding>, role: string, member: string)
    requires Grants(bindings, role, member)
    ensures forall b :: b in WithoutMember(bindings, role, member).value ==> b in Trimmed(bindings, role, member)
    ensures forall b :: b in Trimmed(bindings, role, member) && b.members != [] ==> b in WithoutMember(bindings, role, member).value
  {
    var k := FirstGrant(bindings, role, member).value;
    var nb := Binding(role, RemoveFirst(bindings[k].members, member));
    var updated := Trimmed(bindings, role, member);
    var after := WithoutMember(bindings, role, member).value;
    assert updated[k] == nb;
    if nb.members == [] {
      assert after == RemoveFirst(updated, nb);
      forall b | b in updated && b.members != [] ensures b in after {
        RemoveFirstKeeps(updated, nb, b);
      }
    } else {
      assert after == updated;
    }
  }

  /** Removal takes away at most the one pair and keeps every other grant. */
  lemma WithoutMemberKeepsOthers(bindings: seq<Binding>, role: string, member: string, r: string, m: string)
    requires Grants(bindings, role, member)
    requires r != role || m != member
    ensures Grants(WithoutMember(bindings, role, member).value, r, m) <==> Grants(bindings, r, m)
  {
    var k := FirstGrant(bindings, role, member).value;
    var nb := Binding(role, RemoveFirst(bindings[k].members, member));
    var updated := Trimmed(bindings, role, member);
    var after := WithoutMember(bindings, role, member).value;
    assert updated[k] == nb;
    WithoutMemberShape(bindings, role, member);
    if Grants(bindings, r, m) {
      var b :| b in bindings && b.role == r && m in b.members;
      var i :| 0 <= i < |bindings| && bindings[i] == b;
      if i == k {
        RemoveFirstKeeps(bindings[k].members, member, m);
        assert nb in updated;
      } else {
        assert updated[i] == b;
      }
    }
    if Grants(after, r, m) {
      var b :| b in after && b.role == r && m in b.members;
      var i :| 0 <= i < |updated| && updated[i] == b;
      if i == k {
        assert bindings[k] in bindings;
      } else {
        assert bindings[i] == b;
      }
    }
  }

  /** Exactly one binding grants `role` to `member`, and lists it once. */
  predicate SingleGrant(bindings: seq<Binding>, role: string, member: string) {
    (forall i, j ::
       (0 <= i < |bindings| && 0 <= j < |bindings|
        && bindings[i].role == role && member in bindings[i].members
        && bindings[j].role == role && member in bindings[j].members) ==> i == j)
    && (forall i :: 0 <= i < |bindings| && bindings[i].role == role ==> multiset(bindings[i].members)[member] <= 1)
  }

  /** When the pair is granted once only, removal revokes it. */
  lemma WithoutMemberRevokes(bindings: seq<Binding>, role: string, member: string)
    requires Grants(bindings, role, member) && SingleGrant(bindings, role, member)
    ensures !Grants(WithoutMember(bindings, role, member).value, role, member)
  {
    var k := FirstGrant(bindings, role, member).value;
    var nb := Binding(role, RemoveFirst(bindings[k].members, member));
    var updated := bindings[k := nb];
    var after := WithoutMember(bindings, role, member).value;
    assert multiset(nb.members)[member] == 0;
    assert member !in nb.members;
    assert forall b :: b in after ==> b in updated;
    forall b | b in after && b.role == role ensures member !in b.members {
      var i :| 0 <= i < |updated| && updated[i] == b;
      if i != k {
        assert bindings[i] == b;
      }
    }
  }

  /** Granting a pair that was not granted and removing it again leaves the
      same grants as before. */
  lemma AddThenRemoveRestoresGrants(bindings: seq<Binding>, role: string, member: string, r: string, m: string)
    requires !Grants(bindings, role, member)
    ensures Grants(WithMember(bindings, role, member), role, member)
    ensures Grants(WithoutMember(WithMember(bindings, role, member), role, member).value, r, m) <==> Grants(bindings, r, m)
  {
    var added := WithMember(bindings, role, member);
    WithMemberGrants(bindings, role, member, role, member);
    AddedOnce(bindings, role, member);
    if r == role && m == member {
      WithoutMemberRevokes(added, role, member);
    } else {
      WithoutMemberKeepsOthers(added, role, member, r, m);
      WithMemberGrants(bindings, role, member, r, m);
    }
  }

  /** A pair granted by `WithMember` on a policy that lacked it is granted
      once only. */
  lemma AddedOnce(bindings: seq<Binding>, role: string, member: string)
    requires !Grants(bindings, role, member)
    ensures SingleGrant(WithMember(bindings, role, member), role, member)
  {
    var after := WithMember(bindings, role, member);
    var n: nat := match FirstWithRole(bindings, role) case Some(k) => k case None => |bindings|;
    assert forall i :: 0 <= i < |after| && i != n ==> after[i] == bindings[i];
    assert forall i :: 0 <= i < |bindings| && bindings[i].role == role ==> member !in bindings[i].members by {
      forall i | 0 <= i < |bindings| && bindings[i].role == role ensures member !in bindings[i].members {
        assert bindings[i] in bindings;
      }
    }
    match FirstWithRole(bindings, role)
    case Some(k) =>
      assert bindings[k] in bindings;
      assert multiset(bindings[k].members)[member] == 0;
      assert multiset(after[k].members) == multiset(bindings[k].members) + multiset{member};
    case None =>
  }

  // ----- setup, verification and listing over the required permissions -----

  /** A service agent and the roles it needs, with a display name. */
  datatype ServicePermission = ServicePermission(service: string, name: string, roles: seq<string>)

  /** The roles AgentSpace's service agents need. */
  const RequiredPermissions: seq<ServicePermission> := [
    ServicePermission("aiplatform-re", "AI Platform Reasoning Engine", ["roles/aiplatform.user"]),
    ServicePermission("discoveryengine", "Discovery Engine", ["roles/aiplatform.user", "roles/aiplatform.viewer"])
  ]

  /** One (service account, role) pair to set up, with the description it is reported under. */
  datatype Item = Item(email: string, roleDesc: string, role: string)

  function ItemFor(projectNumber: string, perm: ServicePermission, role: string): Item {
    Item(ServiceAccountEmail(projectNumber, perm.service), perm.name + ": " + role, role)
  }

  /** The pairs of one permission, for the listed roles, in order. */
  function RoleItems(projectNumber: string, perm: ServicePermission, roles: seq<string>): (r: seq<Item>)
    ensures |r| == |roles|
    ensures forall k :: 0 <= k < |roles| ==> r[k] == ItemFor(projectNumber, perm, roles[k])
  {
    if roles == [] then []
    else RoleItems(projectNumber, perm, roles[..|roles| - 1]) + [ItemFor(projectNumber, perm, roles[|roles| - 1])]
  }

  /** The pairs of all the permissions, permission by permission. */
  function Items(projectNumber: string, perms: seq<ServicePermission>): seq<Item> {
    if perms == [] then []
    else Items(projectNumber, perms[..|perms| - 1]) + RoleItems(projectNumber, perms[|perms| - 1], perms[|perms| - 1].roles)
  }

  function Labels(items: seq<Item>): seq<string> {
    if items == [] then [] else Labels(items[..|items| - 1]) + [items[|items| - 1].roleDesc]
  }

  lemma RoleItemsSnoc(projectNumber: string, perm: ServicePermission, roles: seq<string>, r: nat)
    requires r < |roles|
    ensures RoleItems(projectNumber, perm, roles[..r + 1]) == RoleItems(projectNumber, perm, roles[..r]) + [ItemFor(projectNumber, perm, roles[r])]
  {
    assert roles[..r + 1][..r] == roles[..r];
  }

  lemma SnocAssoc<T>(a: seq<T>, b: seq<T>, x: T)
    ensures (a + b) + [x] == a + (b + [x])
  {
  }

  lemma ItemsSnoc(projectNumber: string, perms: seq<ServicePermission>, p: nat)
    requires p < |perms|
    ensures Items(projectNumber, perms[..p + 1]) == Items(projectNumber, perms[..p]) + RoleItems(projectNumber, perms[p], perms[p].roles)
  {
    assert perms[..p + 1][..p] == perms[..p];
  }

  predicate Targets(item: Item, role: string, member: string) {
    item.role == role && MemberOf(item.email) == member
  }

  /** The labels reported by `setup_agentspace_permissions`. */
  datatype SetupResult = SetupResult(added: seq<string>, existing: seq<string>, failed: seq<string>)

  datatype SetupState = SetupState(result: SetupResult, policy: seq<Binding>)

  function Start(policy: seq<Binding>): SetupState {
    SetupState(SetupResult([], [], []), policy)
  }

  /** One pair: a fault records "description: error"; an existing grant is
      reported as existing; otherwise the pair is added (to the policy only
      outside a dry run) and reported as added. */
  function Step(st: SetupState, item: Item, dryRun: bool, faults: map<string, string>): SetupState {
    var member := MemberOf(item.email);
    if item.roleDesc in faults then
      st.(result := st.result.(failed := st.result.failed + [item.roleDesc + ": " + faults[item.roleDesc]]))
    else if Grants(st.policy, item.role, member) then
      st.(result := st.result.(existing := st.result.existing + [item.roleDesc]))
    else
      SetupState(st.result.(added := st.result.added + [item.roleDesc]),
                 if dryRun then st.policy else WithMember(st.policy, item.role, member))
  }

  function Run(st: SetupState, items: seq<Item>, dryRun: bool, faults: map<string, string>): SetupState {
    if items == [] then st
    else Step(Run(st, items[..|items| - 1], dryRun, faults), items[|items| - 1], dryRun, faults)
  }

  lemma RunSnoc(st: SetupState, items: seq<Item>, item: Item, dryRun: bool, faults: map<string, string>)
    ensures Run(st, items + [item], dryRun, faults) == Step(Run(st, items, dryRun, faults), item, dryRun, faults)
  {
    assert (items + [item])[..|items|] == items;
  }

  lemma {:induction false} RunAppend(st: SetupState, a: seq<Item>, b: seq<Item>, dryRun: bool, faults: map<string, string>)
    ensures Run(st, a + b, dryRun, faults) == Run(Run(st, a, dryRun, faults), b, dryRun, faults)
    decreases |b|
  {
    if b == [] {
      assert a + b == a;
    } else {
      var b' := b[..|b| - 1];
      assert (a + b)[..|a + b| - 1] == a + b';
      assert (a + b)[|a + b| - 1] == b[|b| - 1];
      RunAppend(st, a, b', dryRun, faults);
    }
  }

  /** Every pair lands in exactly one of the three lists. */
  lemma {:induction false} RunCounts(st: SetupState, items: seq<Item>, dryRun: bool, faults: map<string, string>)
    ensures var r := Run(st, items, dryRun, faults).result;
      |r.added| + |r.existing| + |r.failed| == |st.result.added| + |st.result.existing| + |st.result.failed| + |items|
    decreases |items|
  {
    if items != [] {
      RunCounts(st, items[..|items| - 1], dryRun, faults);
    }
  }

  /** A dry run never changes the policy. */
  lemma {:induction false} DryRunKeepsPolicy(st: SetupState, items: seq<Item>, faults: map<string, string>)
    ensures Run(st, items, true, faults).policy == st.policy
    decreases |items|
  {
    if items != [] {
      DryRunKeepsPolicy(st, items[..|items| - 1], faults);
    }
  }

  /** Some pair that does not fail targets (`r`, `m`). */
  predicate Targeted(items: seq<Item>, faults: map<string, string>, r: string, m: string) {
    exists k :: 0 <= k < |items| && items[k].roleDesc !in faults && Targets(items[k], r, m)
  }

  lemma TargetedSnoc(items: seq<Item>, faults: map<string, string>, r: string, m: string)
    requires items != []
    ensures var last := items[|items| - 1];
      Targeted(items, faults, r, m) <==>
        Targeted(items[..|items| - 1], faults, r, m) || (last.roleDesc !in faults && Targets(last, r, m))
  {
    var init := items[..|items| - 1];
    if Targeted(init, faults, r, m) {
      var k :| 0 <= k < |init| && init[k].roleDesc !in faults && Targets(init[k], r, m);
      assert items[k] == init[k];
    }
    if Targeted(items, faults, r, m) {
      var k :| 0 <= k < |items| && items[k].roleDesc !in faults && Targets(items[k], r, m);
      if k < |init| {
        assert init[k] == items[k];
      }
    }
  }

  /** After a real run a pair is granted exactly when it was before or some
      pair that did not fail targets it. */
  lemma {:induction false} RealRunGrants(st: SetupState, items: seq<Item>, faults: map<string, string>, r: string, m: string)
    ensures Grants(Run(st, items, false, faults).policy, r, m) <==> Grants(st.policy, r, m) || Targeted(items, faults, r, m)
    decreases |items|
  {
    if items != [] {
      var init := items[..|items| - 1];
      var last := items[|items| - 1];
      var member := MemberOf(last.email);
      var prev := Run(st, init, false, faults);
      RealRunGrants(st, init, faults, r, m);
      TargetedSnoc(items, faults, r, m);
      if last.roleDesc !in faults && !Grants(prev.policy, last.role, member) {
        WithMemberGrants(prev.policy, last.role, member, r, m);
      }
    }
  }

  /** No two pairs target the same (role, service account). */
  predicate DistinctPairs(items: seq<Item>) {
    forall i, j :: 0 <= i < j < |items| ==> !(items[i].role == items[j].role && items[i].email == items[j].email)
  }

  /** When the pairs are distinct, a dry run reports exactly what the real
      run would. */
  lemma {:induction false} DryRunReportsLikeRealRun(policy: seq<Binding>, items: seq<Item>, faults: map<string, string>)
    requires DistinctPairs(items)
    ensures Run(Start(policy), items, true, faults).result == Run(Start(policy), items, false, faults).result
    decreases |items|
  {
    if items != [] {
      var init := items[..|items| - 1];
      var last := items[|items| - 1];
      var member := MemberOf(last.email);
      DryRunReportsLikeRealRun(policy, init, faults);
      DryRunKeepsPolicy(Start(policy), init, faults);
      RealRunGrants(Start(policy), init, faults, last.role, member);
      if Targeted(init, faults, last.role, member) {
        var k :| 0 <= k < |init| && init[k].roleDesc !in faults && Targets(init[k], last.role, member);
        MemberOfInjective(init[k].email, last.email);
        assert false;
      }
    }
  }

  /** After a real run without faults every pair is granted. */
  lemma RealRunGrantsAll(policy: seq<Binding>, items: seq<Item>, k: nat)
    requires k < |items|
    ensures Grants(Run(Start(policy), items, false, map[]).policy, items[k].role, MemberOf(items[k].email))
  {
    RealRunGrants(Start(policy), items, map[], items[k].role, MemberOf(items[k].email));
    assert Targets(items[k], items[k].role, MemberOf(items[k].email));
  }

  /** When every pair is already granted and nothing fails, setup reports
      every description as existing and changes nothing. */
  lemma {:induction false} RunAllExisting(policy: seq<Binding>, items: seq<Item>, dryRun: bool)
    requires forall k :: 0 <= k < |items| ==> Grants(policy, items[k].role, MemberOf(items[k].email))
    ensures Run(Start(policy), items, dryRun, map[]) == SetupState(SetupResult([], Labels(items), []), policy)
    decreases |items|
  {
    if items != [] {
      var init := items[..|items| - 1];
      RunAllExisting(policy, init, dryRun);
    }
  }

  /** Setup is idempotent: a second fault-free run after a real one adds
      nothing and reports every description as existing. */
  lemma SecondSetupAddsNothing(policy: seq<Binding>, items: seq<Item>, dryRun: bool)
    ensures var first := Run(Start(policy), items, false, map[]);
      Run(Start(first.policy), items, dryRun, map[]) == SetupState(SetupResult([], Labels(items), []), first.policy)
  {
    var first := Run(Start(policy), items, false, map[]);
    forall k | 0 <= k < |items|
      ensures Grants(first.policy, items[k].role, MemberOf(items[k].email))
    {
      RealRunGrantsAll(policy, items, k);
    }
    RunAllExisting(first.policy, items, dryRun);
  }

  /** The required pairs of any project are distinct, so a dry run of setup
      previews the real one exactly. */
  lemma RequiredPairsDistinct(projectNumber: string)
    ensures DistinctPairs(Items(projectNumber, RequiredPermissions))
  {
    var rp := RequiredPermissions;
    assert rp[..|rp| - 1] == rp[..1] && rp[..1][..0] == [] && rp[..1][0] == rp[0];
    assert Items(projectNumber, rp[..1]) == RoleItems(projectNumber, rp[0], rp[0].roles);
    var items := Items(projectNumber, rp);
    assert items == RoleItems(projectNumber, rp[0], rp[0].roles) + RoleItems(projectNumber, rp[1], rp[1].roles);
    var e0, e1 := ServiceAccountEmail(projectNumber, rp[0].service), ServiceAccountEmail(projectNumber, rp[1].service);
    assert |e0| != |e1|;
    assert items[0].email == e0 && items[1].email == e1 && items[2].email == e1;
    assert items[1].role != items[2].role;
  }

  /** `verify_agentspace_permissions`: description to "granted", later
      pairs overwriting earlier ones with the same description. */
  function StatusMap(items: seq<Item>, policy: seq<Binding>): map<string, bool> {
    if items == [] then map[]
    else
      var last := items[|items| - 1];
      StatusMap(items[..|items| - 1], policy)[last.roleDesc := Grants(policy, last.role, MemberOf(last.email))]
  }

  /** Every description, and nothing else, gets a status. */
  lemma {:induction false} StatusMapKeys(items: seq<Item>, policy: seq<Binding>)
    ensures StatusMap(items, policy).Keys == set k | 0 <= k < |items| :: items[k].roleDesc
    decreases |items|
  {
    if items != [] {
      var init := items[..|items| - 1];
      StatusMapKeys(init, policy);
      assert forall k :: 0 <= k < |init| ==> init[k] == items[k];
    }
  }

  lemma StatusMapSnoc(items: seq<Item>, item: Item, policy: seq<Binding>)
    ensures StatusMap(items + [item], policy) == StatusMap(items, policy)[item.roleDesc := Grants(policy, item.role, MemberOf(item.email))]
  {
    assert (items + [item])[..|items|] == items;
  }

  /** When every pair is granted, every status is true. */
  lemma {:induction false} StatusAllTrue(items: seq<Item>, policy: seq<Binding>)
    ensures (forall l :: l in StatusMap(items, policy) ==> StatusMap(items, policy)[l])
            <== (forall k :: 0 <= k < |items| ==> Grants(policy, items[k].role, MemberOf(items[k].email)))
    decreases |items|
  {
    if items != [] {
      var init := items[..|items| - 1];
      StatusAllTrue(init, policy);
    }
  }

  /** After a real setup without faults, verification reports every
      required pair as granted. */
  lemma VerifyAfterSetup(projectNumber: string, policy: seq<Binding>)
    ensures var items := Items(projectNumber, RequiredPermissions);
      var status := StatusMap(items, Run(Start(policy), items, false, map[]).policy);
      forall l :: l in status ==> status[l]
  {
    var items := Items(projectNumber, RequiredPermissions);
    var after := Run(Start(policy), items, false, map[]).policy;
    forall k | 0 <= k < |items| ensures Grants(after, items[k].role, MemberOf(items[k].email)) {
      RealRunGrantsAll(policy, items, k);
    }
    StatusAllTrue(items, after);
  }

  /** `[b.role for b in policy.bindings if member in b.members]`. */
  function RolesOf(bindings: seq<Binding>, member: string): seq<string> {
    if bindings == [] then []
    else
      var last := bindings[|bindings| - 1];
      RolesOf(bindings[..|bindings| - 1], member) + (if member in last.members then [last.role] else [])
  }

  /** The listed roles are exactly the roles granted to the member. */
  lemma {:induction false} RolesOfGrants(bindings: seq<Binding>, member: string, role: string)
    ensures role in RolesOf(bindings, member) <==> Grants(bindings, role, member)
    decreases |bindings|
  {
    if bindings != [] {
      var init := bindings[..|bindings| - 1];
      var last := bindings[|bindings| - 1];
      RolesOfGrants(init, member, role);
      assert bindings == init + [last];
      if Grants(bindings, role, member) {
        var b :| b in bindings && b.role == role && member in b.members;
        if b != last {
          assert b in init;
        }
      }
      if Grants(init, role, member) {
        var b :| b in init && b.role == role && member in b.members;
        assert b in bindings;
      }
    }
  }

  /** The manager of one project's IAM policy. */
  class IamManager {
    const projectNumber: string
    var policy: seq<Binding>

    constructor(projectNumber: string, policy: seq<Binding>)
      ensures this.projectNumber == projectNumber && this.policy == policy
    {
      this.projectNumber := projectNumber;
      this.policy := policy;
    }

    /** `_check_role_binding`. */
    method CheckRoleBinding(serviceAccount: string, role: string) returns (found: bool)
      ensures found <==> Grants(policy, role, MemberOf(serviceAccount))
    {
      var member := MemberOf(serviceAccount);
      var bindings := policy;
      var i := 0;
      while i < |bindings|
        invariant 0 <= i <= |bindings|
        invariant forall k :: 0 <= k < i ==> !(bindings[k].role == role && member in bindings[k].members)
      {
        if bindings[i].role == role && member in bindings[i].members {
          return true;
        }
        i := i + 1;
      }
      return false;
    }

    /** `_add_role_binding`: false when the pair is already granted; true
        otherwise, the policy being written only outside a dry run. */
    method AddRoleBinding(serviceAccount: string, role: string, dryRun: bool) returns (added: bool)
      modifies this
      ensures added <==> !Grants(old(policy), role, MemberOf(serviceAccount))
      ensures policy == if added && !dryRun then WithMember(old(policy), role, MemberOf(serviceAccount)) else old(policy)
    {
      var member := MemberOf(serviceAccount);
      var bindings := policy;
      var i := 0;
      while i < |bindings|
        invariant 0 <= i <= |bindings|
        invariant forall k :: 0 <= k < i ==> !(bindings[k].role == role && member in bindings[k].members)
      {
        if bindings[i].role == role && member in bindings[i].members {
          return false;
        }
        i := i + 1;
      }
      assert !Grants(bindings, role, member) by {
        forall b | b in bindings && b.role == role ensures member !in b.members {
          var k :| 0 <= k < |bindings| && bindings[k] == b;
        }
      }
      if dryRun {
        return true;
      }
      var j := 0;
      while j < |bindings| && bindings[j].role != role
        invariant 0 <= j <= |bindings|
        invariant forall k :: 0 <= k < j ==> bindings[k].role != role
      {
        j := j + 1;
      }
      if j < |bindings| {
        bindings := bindings[j := Binding(role, bindings[j].members + [member])];
      } else {
        bindings := bindings + [Binding(role, [member])];
      }
      policy := bindings;
      return true;
    }

    /** `_remove_role_binding`: false when nothing grants the pair; true
        otherwise, the policy being written only outside a dry run. */
    method RemoveRoleBinding(serviceAccount: string, role: string, dryRun: bool) returns (removed: bool)
      modifies this
      ensures removed <==> Grants(old(policy), role, MemberOf(serviceAccount))
      ensures policy == if removed && !dryRun then WithoutMember(old(policy), role, MemberOf(serviceAccount)).value else old(policy)
    {
      var member := MemberOf(serviceAccount);
      var bindings := policy;
      var i := 0;
      while i < |bindings| && !(bindings[i].role == role && member in bindings[i].members)
        invariant 0 <= i <= |bindings|
        invariant forall k :: 0 <= k < i ==> !(bindings[k].role == role && member in bindings[k].members)
      {
        i := i + 1;
      }
      if i == |bindings| {
        assert !Grants(bindings, role, member) by {
          forall b | b in bindings && b.role == role ensures member !in b.members {
            var k :| 0 <= k < |bindings| && bindings[k] == b;
          }
        }
        return false;
      }
      assert bindings[i] in bindings;
      assert FirstGrant(bindings, role, member) == Some(i);
      if dryRun {
        return true;
      }
      var remaining := RemoveFirst(bindings[i].members, member);
      var updated := bindings[i := Binding(role, remaining)];
      if remaining == [] {
        assert updated[i] == Binding(role, remaining);
        updated := RemoveFirst(updated, Binding(role, remaining));
      }
      policy := updated;
      return true;
    }

    /** `setup_agentspace_permissions`. */
    method SetupAgentspacePermissions(dryRun: bool, faults: map<string, string>) returns (result: SetupResult)
      modifies this
      ensures SetupState(result, policy) == Run(Start(old(policy)), Items(projectNumber, RequiredPermissions), dryRun, faults)
    {
      result := SetupPermissions(RequiredPermissions, dryRun, faults);
    }

    /** One pass of the inner loop of `setup_agentspace_permissions`: an
        injected fault is reported as failed, an existing grant as existing,
        and otherwise the binding is added and reported as added. */
    method SetupPair(email: string, roleDesc: string, role: string, dryRun: bool, faults: map<string, string>,
                     res: SetupResult) returns (res': SetupResult)
      modifies this
      ensures SetupState(res', policy) == Step(SetupState(res, old(policy)), Item(email, roleDesc, role), dryRun, faults)
    {
      res' := res;
      if roleDesc in faults {
        res' := res.(failed := res.failed + [roleDesc + ": " + faults[roleDesc]]);
      } else {
        var granted := CheckRoleBinding(email, role);
        if granted {
          res' := res.(existing := res.existing + [roleDesc]);
        } else {
          var ok := AddRoleBinding(email, role, dryRun);
          if ok {
            res' := res.(added := res.added + [roleDesc]);
          }
        }
      }
    }

    /** The inner loop of `setup_agentspace_permissions`: every role of one
        service agent, in order. */
    method SetupRoles(perm: ServicePermission, dryRun: bool, faults: map<string, string>, res: SetupResult)
      returns (res': SetupResult)
      modifies this
      ensures SetupState(res', policy) == Run(SetupState(res, old(policy)), RoleItems(projectNumber, perm, perm.roles), dryRun, faults)
    {
      var email := ServiceAccountEmail(projectNumber, perm.service);
      ghost var start := SetupState(res, policy);
      assert perm.roles[..0] == [];
      res' := res;
      var r := 0;
      while r < |perm.roles|
        invariant 0 <= r <= |perm.roles|
        invariant SetupState(res', policy) == Run(start, RoleItems(projectNumber, perm, perm.roles[..r]), dryRun, faults)
      {
        var role := perm.roles[r];
        RoleItemsSnoc(projectNumber, perm, perm.roles, r);
        RunSnoc(start, RoleItems(projectNumber, perm, perm.roles[..r]), ItemFor(projectNumber, perm, role), dryRun, faults);
        res' := SetupPair(email, perm.name + ": " + role, role, dryRun, faults, res');
        r := r + 1;
      }
      assert perm.roles[..r] == perm.roles;
    }

    /** The loops of `setup_agentspace_permissions` over a table of
        permissions: for each service agent and each of its roles, in order,
        report the pair as existing, added or failed. */
    method SetupPermissions(perms: seq<ServicePermission>, dryRun: bool, faults: map<string, string>) returns (result: SetupResult)
      modifies this
      ensures SetupState(result, policy) == Run(Start(old(policy)), Items(projectNumber, perms), dryRun, faults)
    {
      result := SetupResult([], [], []);
      ghost var initial := policy;
      var p := 0;
      while p < |perms|
        invariant 0 <= p <= |perms|
        invariant SetupState(result, policy) == Run(Start(initial), Items(projectNumber, perms[..p]), dryRun, faults)
      {
        RunAppend(Start(initial), Items(projectNumber, perms[..p]), RoleItems(projectNumber, perms[p], perms[p].roles), dryRun, faults);
        ItemsSnoc(projectNumber, perms, p);
        result := SetupRoles(perms[p], dryRun, faults, result);
        p := p + 1;
      }
      assert perms[..p] == perms;
    }

    /** `verify_agentspace_permissions`. */
    method VerifyAgentspacePermissions() returns (status: map<string, bool>)
      ensures status == StatusMap(Items(projectNumber, RequiredPermissions), policy)
    {
      status := VerifyPermissions(RequiredPermissions);
    }

    /** One pass of the inner loop of `verify_agentspace_permissions`. */
    method VerifyPair(email: string, roleDesc: string, role: string, status: map<string, bool>)
      returns (status': map<string, bool>)
      ensures status' == status[roleDesc := Grants(policy, role, MemberOf(email))]
    {
      var hasBinding := CheckRoleBinding(email, role);
      status' := status[roleDesc := hasBinding];
    }

    /** The loops of `verify_agentspace_permissions` over a table of
        permissions. */
    method VerifyPermissions(perms: seq<ServicePermission>) returns (status: map<string, bool>)
      ensures status == StatusMap(Items(projectNumber, perms), policy)
    {
      status := map[];
      var p := 0;
      while p < |perms|
        invariant 0 <= p <= |perms|
        invariant status == StatusMap(Items(projectNumber, perms[..p]), policy)
      {
        var perm := perms[p];
        var email := ServiceAccountEmail(projectNumber, perm.service);
        ghost var before := Items(projectNumber, perms[..p]);
        ghost var done := before;
        assert perm.roles[..0] == [];
        var r := 0;
        while r < |perm.roles|
          invariant 0 <= r <= |perm.roles|
          invariant done == before + RoleItems(projectNumber, perm, perm.roles[..r])
          invariant status == StatusMap(done, policy)
        {
          var role := perm.roles[r];
          ghost var item := ItemFor(projectNumber, perm, role);
          RoleItemsSnoc(projectNumber, perm, perm.roles, r);
          StatusMapSnoc(done, item, policy);
          SnocAssoc(before, RoleItems(projectNumber, perm, perm.roles[..r]), item);
          status := VerifyPair(email, perm.name + ": " + role, role, status);
          done := done + [item];
          r := r + 1;
        }
        assert perm.roles[..r] == perm.roles;
        ItemsSnoc(projectNumber, perms, p);
        p := p + 1;
      }
      assert perms[..p] == perms;
    }

    /** `list_service_account_roles`: the roles granted to the service's
        agent, sorted. */
    method ListServiceAccountRoles(service: string) returns (roles: seq<string>)
      ensures roles == SortStrings(RolesOf(policy, MemberOf(ServiceAccountEmail(projectNumber, service))))
      ensures Sorted(roles)
      ensures forall role :: role in roles <==> Grants(policy, role, MemberOf(ServiceAccountEmail(projectNumber, service)))
    {
      var member := MemberOf(ServiceAccountEmail(projectNumber, service));
      var bindings := policy;
      var collected: seq<string> := [];
      var i := 0;
      while i < |bindings|
        invariant 0 <= i <= |bindings|
        invariant collected == RolesOf(bindings[..i], member)
      {
        assert bindings[..i + 1][..i] == bindings[..i];
        if member in bindings[i].members {
          collected := collected + [bindings[i].role];
        }
        i := i + 1;
      }
      assert bindings[..i] == bindings;
      roles := SortStrings(collected);
      forall role ensures role in roles <==> Grants(policy, role, member) {
        RolesOfGrants(bindings, member, role);
        assert role in roles <==> role in multiset(roles);
      }
    }
  }
}
