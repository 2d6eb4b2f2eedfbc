/**
 The IAM bindings table: a mutable mapping from a role name to the set of
 members granted that role, with operations that add or remove one member, a
 set of members, or a whole binding (a role with its member set).

 Adds go through the map's subscript operator, so they create the role's
 entry even when nothing is added; removes look the role up first and never
 create or delete an entry, so a role whose last member is removed stays in
 the table with an empty set.
 */
module Iam {

  type Role = string
  type Member = string
  type Bindings = map<Role, set<Member>>

  /** One binding: a role and the members granted it. */
  datatype IamBinding = IamBinding(role: Role, members: set<Member>)

  /** The members of `role`, empty when the role has no entry. */
  function MembersOf(b: Bindings, role: Role): set<Member>
  {
    if role in b then b[role] else {}
  }

  /** The table after inserting `s` into the entry of `role`, creating the entry if needed. */
  function Added(b: Bindings, role: Role, s: set<Member>): Bindings
  {
    b[role := MembersOf(b, role) + s]
  }

  /** The table after erasing `s` from the entry of `role`, if the role has one. */
  function Removed(b: Bindings, role: Role, s: set<Member>): Bindings
  {
    if role in b then b[role := b[role] - s] else b
  }

  /** After an add, the role has an entry holding the old members and the added ones; no other role changes. */
  lemma AddedSpec(b: Bindings, role: Role, s: set<Member>)
    ensures Added(b, role, s).Keys == b.Keys + {role}
    ensures forall m :: m in Added(b, role, s)[role] <==> m in MembersOf(b, role) || m in s
    ensures forall r :: r in b && r != role ==> Added(b, role, s)[r] == b[r]
  {
  }

  /** Adding an empty set still creates the entry, and changes nothing else. */
  lemma AddNothingCreatesEntry(b: Bindings, role: Role)
    ensures role in Added(b, role, {})
    ensures Added(b, role, {})[role] == MembersOf(b, role)
    ensures role in b ==> Added(b, role, {}) == b
  {
  }

  /** A remove keeps every key; the named role loses exactly `s`; no other role changes. */
  lemma RemovedSpec(b: Bindings, role: Role, s: set<Member>)
    ensures Removed(b, role, s).Keys == b.Keys
    ensures role in b ==> forall m :: m in Removed(b, role, s)[role] <==> m in b[role] && m !in s
    ensures forall r :: r in b && r != role ==> Removed(b, role, s)[r] == b[r]
  {
  }

  /** Removing from a role without an entry changes nothing; in particular no entry is created. */
  lemma RemoveFromAbsentRole(b: Bindings, role: Role, s: set<Member>)
    requires role !in b
    ensures Removed(b, role, s) == b
  {
  }

  /** Removing every member of a role leaves the role in the table with an empty set. */
  lemma RemoveAllKeepsEmptyEntry(b: Bindings, role: Role, s: set<Member>)
    requires role in b && b[role] <= s
    ensures role in Removed(b, role, s) && Removed(b, role, s)[role] == {}
  {
  }

  /** Removing a member the role does not have is a no-op. */
  lemma RemoveMissingMember(b: Bindings, role: Role, m: Member)
    requires role in b && m !in b[role]
    ensures Removed(b, role, {m}) == b
  {
    assert b[role] - {m} == b[role];
    UpdateSameEntry(b, role);
  }

  /** Writing back a role's own entry leaves the table as it was. */
  lemma UpdateSameEntry(b: Bindings, role: Role)
    requires role in b
    ensures b[role := b[role]] == b
  {
  }

  /** Adding the same members twice is the same as adding them once. */
  lemma AddIdempotent(b: Bindings, role: Role, s: set<Member>)
    ensures Added(Added(b, role, s), role, s) == Added(b, role, s)
  {
  }

  /** Removing the same members twice is the same as removing them once. */
  lemma RemoveIdempotent(b: Bindings, role: Role, s: set<Member>)
    ensures Removed(Removed(b, role, s), role, s) == Removed(b, role, s)
  {
    if role in b {
      assert b[role] - s - s == b[role] - s;
    }
  }

  /** Removing what was just added leaves the old members without `s`, and the entry in place. */
  lemma AddThenRemove(b: Bindings, role: Role, s: set<Member>)
    ensures role in Removed(Added(b, role, s), role, s)
    ensures Removed(Added(b, role, s), role, s)[role] == MembersOf(b, role) - s
  {
  }

  /** One call on the table; the binding overloads are these with the binding's role and members. */
  datatype Op =
    | AddMembersOp(addRole: Role, added: set<Member>)
    | RemoveMembersOp(removeRole: Role, removed: set<Member>)

  function OpRole(op: Op): Role
  {
    match op
    case AddMembersOp(role, _) => role
    case RemoveMembersOp(role, _) => role
  }

  function Apply(b: Bindings, op: Op): Bindings
  {
    match op
    case AddMembersOp(role, s) => Added(b, role, s)
    case RemoveMembersOp(role, s) => Removed(b, role, s)
  }

  /** The table after a sequence of calls, applied in order. */
  function Run(b: Bindings, ops: seq<Op>): Bindings
    decreases |ops|
  {
    if ops == [] then b else Run(Apply(b, ops[0]), ops[1..])
  }

  /** No sequence of calls removes a role from the table. */
  lemma {:induction false} RunNeverShrinksKeys(b: Bindings, ops: seq<Op>)
    ensures b.Keys <= Run(b, ops).Keys
    decreases |ops|
  {
    if ops != [] {
      RunNeverShrinksKeys(Apply(b, ops[0]), ops[1..]);
    }
  }

  /** A role that no call names keeps its entry, or its absence, unchanged. */
  lemma {:induction false} RunLeavesUnnamedRoles(b: Bindings, ops: seq<Op>, role: Role)
    requires forall i :: 0 <= i < |ops| ==> OpRole(ops[i]) != role
    ensures role in Run(b, ops) <==> role in b
    ensures role in b ==> Run(b, ops)[role] == b[role]
    decreases |ops|
  {
    if ops != [] {
      RunLeavesUnnamedRoles(Apply(b, ops[0]), ops[1..], role);
    }
  }

  /** A role's entry, once present, only ever holds members that were there or were added by some call. */
  lemma {:induction false} RunMembersCameFromSomewhere(b: Bindings, ops: seq<Op>, role: Role, m: Member)
    requires role in Run(b, ops) && m in Run(b, ops)[role]
    ensures m in MembersOf(b, role) || exists i :: 0 <= i < |ops| && ops[i].AddMembersOp? && ops[i].addRole == role && m in ops[i].added
    decreases |ops|
  {
    if ops != [] {
      var next := Apply(b, ops[0]);
      RunMembersCameFromSomewhere(next, ops[1..], role, m);
      if m !in MembersOf(next, role) {
        var i :| 0 <= i < |ops[1..]| && ops[1..][i].AddMembersOp? && ops[1..][i].addRole == role && m in ops[1..][i].added;
        assert ops[i + 1] == ops[1..][i];
      }
    }
  }

  /** The IAM bindings object: its one field is the role-to-members table. */
  class IamBindings {
    var bindings: Bindings

    constructor ()
      ensures bindings == map[]
    {
      bindings := map[];
    }

    /** `bindings_[role].insert(member)`. */
    method AddMember(role: Role, member: Member)
      modifies this
      ensures bindings == Added(old(bindings), role, {member})
      ensures role in bindings && member in bindings[role]
    {
      bindings := bindings[role := MembersOf(bindings, role) + {member}];
    }

    /** `AddMembers(iam_binding)`: inserts the binding's members under the binding's role. */
    method AddBinding(binding: IamBinding)
      modifies this
      ensures bindings == Added(old(bindings), binding.role, binding.members)
      ensures binding.role in bindings && binding.members <= bindings[binding.role]
    {
      var role := binding.role;
      bindings := bindings[role := MembersOf(bindings, role) + binding.members];
    }

    /** `bindings_[role].insert(members.begin(), members.end())`. */
    method AddMembers(role: Role, members: set<Member>)
      modifies this
      ensures bindings == Added(old(bindings), role, members)
      ensures role in bindings && members <= bindings[role]
    {
      bindings := bindings[role := MembersOf(bindings, role) + members];
    }

    /** Looks the role up; when found, erases the member if it is there. */
    method RemoveMember(role: Role, member: Member)
      modifies this
      ensures bindings == Removed(old(bindings), role, {member})
      ensures bindings.Keys == old(bindings).Keys
      ensures role in bindings ==> member !in bindings[role]
    {
      if role !in bindings {
        return;
      }
      if member in bindings[role] {
        bindings := bindings[role := bindings[role] - {member}];
      } else {
        RemoveMissingMember(bindings, role, member);
      }
    }

    /** `RemoveMembers(iam_binding)`: the same as RemoveMembers on the binding's role and members. */
    method RemoveBinding(binding: IamBinding)
      modifies this
      ensures bindings == Removed(old(bindings), binding.role, binding.members)
      ensures bindings.Keys == old(bindings).Keys
    {
      RemoveMembers(binding.role, binding.members);
    }

    /**
     Looks the role up; when found, erases the given members from its set
     one at a time. The result is the single set difference.
     */
    method RemoveMembers(role: Role, members: set<Member>)
      modifies this
      ensures bindings == Removed(old(bindings), role, members)
      ensures bindings.Keys == old(bindings).Keys
    {
      if role !in bindings {
        return;
      }
      var rest := members;
      while rest != {}
        invariant rest <= members
        invariant bindings.Keys == old(bindings).Keys
        invariant bindings[role] == old(bindings)[role] - (members - rest)
        invariant forall r :: r in bindings && r != role ==> bindings[r] == old(bindings)[r]
        decreases rest
      {
        var member :| member in rest;
        if member in bindings[role] {
          bindings := bindings[role := bindings[role] - {member}];
        }
        rest := rest - {member};
      }
      assert members - rest == members;
      assert bindings == old(bindings)[role := old(bindings)[role] - members];
    }
  }
}
