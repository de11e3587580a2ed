/**
  Guild permissions and `hasRequiredPermissions`
  (src/events/message/9_processPrefixCommand.ts, lines 46-56).
 */
module Permissions {

  /** A permission flag by its name ("Administrator", "SendMessages", ...);
      `perm.toString()` is the name itself. */
  type Permission = string

  const Administrator: Permission := "Administrator"

  /** A guild member, by the permissions for which `member.permissions.has`
      answers true. */
  datatype Member = Member(permissions: set<Permission>)

  predicate Has(member: Member, perm: Permission) {
    perm in member.permissions
  }

  /** The required permissions the member holds, in the order they are required. */
  function Held(required: seq<Permission>, member: Member): (r: seq<Permission>)
    ensures |r| <= |required|
    ensures forall p :: p in r ==> p in required && Has(member, p)
  {
    if required == [] then []
    else
      var last := required[|required| - 1];
      Held(required[..|required| - 1], member) + (if Has(member, last) then [last] else [])
  }

  /** The required permissions the member lacks, in the order they are required. */
  function Missing(required: seq<Permission>, member: Member): (r: seq<Permission>)
    ensures |r| <= |required|
    ensures forall p :: p in r ==> p in required && !Has(member, p)
  {
    if required == [] then []
    else
      var last := required[|required| - 1];
      Missing(required[..|required| - 1], member) + (if Has(member, last) then [] else [last])
  }

  /** Both filters work piece by piece: the permissions of a longer list are
      those of its parts in the same order, which is the order `join` prints. */
  lemma {:induction false} MissingAppend(a: seq<Permission>, b: seq<Permission>, member: Member)
    ensures Missing(a + b, member) == Missing(a, member) + Missing(b, member)
    ensures Held(a + b, member) == Held(a, member) + Held(b, member)
  {
    if b != [] {
      MissingAppend(a, b[..|b| - 1], member);
      assert (a + b)[..|a + b| - 1] == a + b[..|b| - 1];
    } else {
      assert a + b == a;
    }
  }

  /** `has` and `missing` split `required` between them. */
  lemma {:induction false} PartitionSizes(required: seq<Permission>, member: Member)
    ensures |Held(required, member)| + |Missing(required, member)| == |required|
    ensures multiset(Held(required, member)) + multiset(Missing(required, member)) == multiset(required)
  {
    if required != [] {
      var init, last := required[..|required| - 1], required[|required| - 1];
      PartitionSizes(init, member);
      assert required == init + [last];
      assert multiset(required) == multiset(init) + multiset{last};
      if Has(member, last) {
        assert Held(required, member) == Held(init, member) + [last];
        assert Missing(required, member) == Missing(init, member);
      } else {
        assert Held(required, member) == Held(init, member);
        assert Missing(required, member) == Missing(init, member) + [last];
      }
    }
  }

  /** A required permission is either held or missing, never both. */
  lemma {:induction false} EveryRequiredIsClassified(required: seq<Permission>, member: Member, p: Permission)
    requires p in required
    ensures Has(member, p) ==> p in Held(required, member)
    ensures !Has(member, p) ==> p in Missing(required, member)
  {
    var init := required[..|required| - 1];
    if p != required[|required| - 1] {
      assert required == init + [required[|required| - 1]];
      EveryRequiredIsClassified(init, member, p);
    }
  }

  /** The check passes exactly when nothing is missing, exactly when every
      required permission is held. */
  lemma PassedIffNothingMissing(required: seq<Permission>, member: Member)
    ensures |Held(required, member)| == |required| <==> Missing(required, member) == []
    ensures Missing(required, member) == [] <==> forall p :: p in required ==> Has(member, p)
  {
    PartitionSizes(required, member);
    forall p | p in required
      ensures !Has(member, p) ==> p in Missing(required, member)
    {
      EveryRequiredIsClassified(required, member, p);
    }
  }

  datatype PermissionCheck = PermissionCheck(has: seq<Permission>, missing: seq<string>, passed: bool)

  /** `hasRequiredPermissions(member, required)`: one pass over `required`,
      pushing each permission onto `has` or onto `missing`. */
  method HasRequiredPermissions(member: Member, required: seq<Permission>) returns (check: PermissionCheck)
    ensures check.has == Held(required, member)
    ensures check.missing == Missing(required, member)
    ensures check.passed <==> forall p :: p in required ==> Has(member, p)
    ensures check.passed <==> check.missing == []
  {
    var has: seq<Permission> := [];
    var missing: seq<string> := [];
    for i := 0 to |required|
      invariant has == Held(required[..i], member)
      invariant missing == Missing(required[..i], member)
    {
      var perm := required[i];
      assert required[..i + 1][..i] == required[..i];
      if Has(member, perm) {
        has := has + [perm];
      } else {
        missing := missing + [perm];
      }
    }
    assert required[..|required|] == required;
    PassedIffNothingMissing(required, member);
    check := PermissionCheck(has, missing, |has| == |required|);
  }
}
