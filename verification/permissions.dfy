// Channel permission overwrites (discord/permission.go).

module Permissions {
  import opened Optional

  type ID = nat
  type Mask = bv64

  const ADMINISTRATOR: Mask := 0x8
  /** PermissionAll. It does not have every bit: six of the permissions defined are missing. */
  const ALL: Mask := 0xff_fff7_ffff

  datatype Role = Role(id: ID, permissions: Mask)
  datatype OverwriteType = OverwriteRole | OverwriteMember
  datatype Overwrite = Overwrite(id: ID, kind: OverwriteType, deny: Mask, allow: Mask)

  /** The guild, its owner, the member and the roles they have, and the channel's overwrites. */
  datatype Setting = Setting(
    guild: ID, owner: ID, user: ID, roleIDs: seq<ID>, roles: seq<Role>, overwrites: seq<Overwrite>)

  function Has(p: Mask, perm: Mask): bool {
    p & perm == perm
  }

  function Add(p: Mask, perm: Mask): Mask {
    p | perm
  }

  function Take(p: Mask, perm: Mask): Mask {
    p & !perm
  }

  function Overwritten(p: Mask, deny: Mask, allow: Mask): Mask {
    Add(Take(p, deny), allow)
  }

  function FirstRole(roles: seq<Role>, id: ID): Option<Role> {
    if roles == [] then None else if roles[0].id == id then Some(roles[0]) else FirstRole(roles[1..], id)
  }

  function FirstOverwrite(os: seq<Overwrite>, id: ID): Option<Overwrite> {
    if os == [] then None else if os[0].id == id then Some(os[0]) else FirstOverwrite(os[1..], id)
  }

  /** The first role with an id, and the first overwrite: nothing before it matches. */
  lemma {:induction false} FirstRoleIff(roles: seq<Role>, id: ID, i: nat)
    requires i < |roles|
    ensures FirstRole(roles, id) == None <==> forall j :: 0 <= j < |roles| ==> roles[j].id != id
    ensures roles[i].id == id && (forall j :: 0 <= j < i ==> roles[j].id != id) ==>
              FirstRole(roles, id) == Some(roles[i])
  {
    if |roles| > 1 {
      FirstRoleIff(roles[1..], id, if i > 0 then i - 1 else 0);
      assert forall j :: 1 <= j < |roles| ==> roles[j] == roles[1..][j - 1];
    }
  }

  lemma {:induction false} FirstOverwriteIff(os: seq<Overwrite>, id: ID, i: nat)
    requires i < |os|
    ensures FirstOverwrite(os, id) == None <==> forall j :: 0 <= j < |os| ==> os[j].id != id
    ensures os[i].id == id && (forall j :: 0 <= j < i ==> os[j].id != id) ==> FirstOverwrite(os, id) == Some(os[i])
  {
    if |os| > 1 {
      FirstOverwriteIff(os[1..], id, if i > 0 then i - 1 else 0);
      assert forall j :: 1 <= j < |os| ==> os[j] == os[1..][j - 1];
    }
  }

  /** The permissions of all roles the member has, on top of some. */
  function WithRoles(p: Mask, roles: seq<Role>, ids: seq<ID>): Mask {
    if roles == [] then p
    else
      var last, before := roles[|roles| - 1], WithRoles(p, roles[..|roles| - 1], ids);
      if last.id in ids then Add(before, last.permissions) else before
  }

  predicate ForRole(o: Overwrite, ids: seq<ID>) {
    o.kind == OverwriteRole && o.id in ids
  }

  function RoleDenials(os: seq<Overwrite>, ids: seq<ID>): Mask {
    if os == [] then 0
    else
      var last, before := os[|os| - 1], RoleDenials(os[..|os| - 1], ids);
      if ForRole(last, ids) then Add(before, last.deny) else before
  }

  function RoleAllowances(os: seq<Overwrite>, ids: seq<ID>): Mask {
    if os == [] then 0
    else
      var last, before := os[|os| - 1], RoleAllowances(os[..|os| - 1], ids);
      if ForRole(last, ids) then Add(before, last.allow) else before
  }

  function Base(s: Setting): Mask {
    var everyone := FirstRole(s.roles, s.guild);
    WithRoles(if everyone.Some? then everyone.value.permissions else 0, s.roles, s.roleIDs)
  }

  function Apply(p: Mask, o: Option<Overwrite>): Mask {
    if o.None? then p else Overwritten(p, o.value.deny, o.value.allow)
  }

  /** The three layers of overwrites. */
  function InChannel(s: Setting): Mask {
    Apply(
      Overwritten(Apply(Base(s), FirstOverwrite(s.overwrites, s.guild)),
                  RoleDenials(s.overwrites, s.roleIDs), RoleAllowances(s.overwrites, s.roleIDs)),
      FirstOverwrite(s.overwrites, s.user))
  }

  function Permitted(s: Setting): Mask {
    if s.owner == s.user || Has(Base(s), ADMINISTRATOR) || Has(InChannel(s), ADMINISTRATOR) then ALL
    else InChannel(s)
  }

  method CalcOverrides(s: Setting) returns (perm: Mask)
    ensures perm == Permitted(s)
  {
    hide Has, Add, Take, Base, Apply, RoleDenials, RoleAllowances;
    if s.owner == s.user {
      return ALL;
    }
    perm := RolePermissions(s);
    if Has(perm, ADMINISTRATOR) {
      return ALL;
    }
    perm := ApplyFirst(perm, s.overwrites, s.guild);
    var deny, allow := RoleMasks(s.overwrites, s.roleIDs);
    perm := Take(perm, deny);
    perm := Add(perm, allow);
    perm := ApplyFirst(perm, s.overwrites, s.user);
    if Has(perm, ADMINISTRATOR) {
      return ALL;
    }
  }

  /** The loops over the roles: the first one with the guild's id, and those the member has. */
  method RolePermissions(s: Setting) returns (perm: Mask)
    ensures perm == Base(s)
  {
    hide Add, WithRoles;
    perm := 0;
    var i := 0;
    while i < |s.roles|
      invariant 0 <= i <= |s.roles|
      invariant perm == 0 && FirstRole(s.roles, s.guild) == FirstRole(s.roles[i..], s.guild)
    {
      if s.roles[i].id == s.guild {
        perm := Add(perm, s.roles[i].permissions);
        NothingElse(s.roles[i].permissions);
        break;
      }
      i := i + 1;
    }
    ghost var everyone := perm;
    NoRoles(everyone, s.roleIDs);
    for i := 0 to |s.roles|
      invariant perm == WithRoles(everyone, s.roles[..i], s.roleIDs)
    {
      OneMoreRole(everyone, s.roles, i, s.roleIDs);
      for j := 0 to |s.roleIDs|
        invariant perm == WithRoles(everyone, s.roles[..i], s.roleIDs)
        invariant s.roles[i].id !in s.roleIDs[..j]
      {
        if s.roleIDs[j] == s.roles[i].id {
          perm := Add(perm, s.roles[i].permissions);
          break;
        }
      }
    }
    assert s.roles[..|s.roles|] == s.roles;
  }

  lemma NoRoles(p: Mask, ids: seq<ID>)
    ensures WithRoles(p, [], ids) == p
  {
  }

  lemma OneMoreRole(p: Mask, roles: seq<Role>, i: nat, ids: seq<ID>)
    requires i < |roles|
    ensures WithRoles(p, roles[..i + 1], ids)
            == if roles[i].id in ids then Add(WithRoles(p, roles[..i], ids), roles[i].permissions)
               else WithRoles(p, roles[..i], ids)
  {
    hide Add;
    assert roles[..i + 1][..i] == roles[..i];
  }

  lemma NothingElse(p: Mask)
    ensures Add(0, p) == p
  {
  }

  /** The loops over the overwrites for everyone and for the member: the first one counts. */
  method ApplyFirst(p: Mask, os: seq<Overwrite>, id: ID) returns (r: Mask)
    ensures r == Apply(p, FirstOverwrite(os, id))
  {
    hide Add, Take;
    r := p;
    var i := 0;
    while i < |os|
      invariant 0 <= i <= |os|
      invariant r == p && FirstOverwrite(os, id) == FirstOverwrite(os[i..], id)
    {
      if os[i].id == id {
        r := Take(r, os[i].deny);
        r := Add(r, os[i].allow);
        return;
      }
      i := i + 1;
    }
  }

  /** The loop over the overwrites of the member's roles: they are joined first. */
  method RoleMasks(os: seq<Overwrite>, ids: seq<ID>) returns (deny: Mask, allow: Mask)
    ensures deny == RoleDenials(os, ids) && allow == RoleAllowances(os, ids)
  {
    hide Add;
    deny, allow := 0, 0;
    for i := 0 to |os|
      invariant deny == RoleDenials(os[..i], ids) && allow == RoleAllowances(os[..i], ids)
    {
      assert os[..i + 1][..i] == os[..i];
      for j := 0 to |ids|
        invariant deny == RoleDenials(os[..i], ids) && allow == RoleAllowances(os[..i], ids)
        invariant ForRole(os[i], ids) ==> os[i].id !in ids[..j]
      {
        if ids[j] == os[i].id && os[i].kind == OverwriteRole {
          deny := Add(deny, os[i].deny);
          allow := Add(allow, os[i].allow);
          break;
        }
      }
    }
    assert os[..|os|] == os;
  }

  // The rule, bit by bit.

  /** One permission. */
  predicate Single(b: Mask) {
    b != 0 && b & (b - 1) == 0
  }

  predicate Bit(p: Mask, b: Mask) {
    p & b != 0
  }

  predicate BaseBit(s: Setting, b: Mask) {
    || (FirstRole(s.roles, s.guild).Some? && Bit(FirstRole(s.roles, s.guild).value.permissions, b))
    || (exists r <- s.roles :: r.id in s.roleIDs && Bit(r.permissions, b))
  }

  /** One overwrite decides the bits that it allows or denies; where it does both, it allows. */
  predicate Decide(o: Option<Overwrite>, below: bool, b: Mask) {
    if o.None? then below else Bit(o.value.allow, b) || (below && !Bit(o.value.deny, b))
  }

  /** The overwrites of kind role for the roles the member has decide together. */
  predicate RolesDecide(s: Setting, below: bool, b: Mask) {
    || (exists o <- s.overwrites :: o.kind == OverwriteRole && o.id in s.roleIDs && Bit(o.allow, b))
    || (below && !(exists o <- s.overwrites :: o.kind == OverwriteRole && o.id in s.roleIDs && Bit(o.deny, b)))
  }

  /** The member's own overwrite goes before those of the roles, these before the one for
      everyone, and that before the roles' permissions. */
  predicate Layered(s: Setting, b: Mask) {
    Decide(FirstOverwrite(s.overwrites, s.user),
           RolesDecide(s, Decide(FirstOverwrite(s.overwrites, s.guild), BaseBit(s, b), b), b),
           b)
  }

  lemma OrBits(p: Mask, q: Mask, b: Mask)
    ensures (p | q) & b == (p & b) | (q & b)
  {
  }

  lemma OrIsZero(p: Mask, q: Mask)
    ensures p | q == 0 <==> p == 0 && q == 0
  {
  }

  lemma OrMisses(p: Mask, q: Mask, b: Mask)
    ensures (p | q) & b == 0 <==> p & b == 0 && q & b == 0
  {
    OrBits(p, q, b);
    OrIsZero(p & b, q & b);
  }

  lemma BitAdd(p: Mask, q: Mask, b: Mask)
    ensures Bit(Add(p, q), b) <==> Bit(p, b) || Bit(q, b)
  {
    calc {
      Bit(Add(p, q), b);
      (p | q) & b != 0;
      { OrMisses(p, q, b); }
      p & b != 0 || q & b != 0;
      Bit(p, b) || Bit(q, b);
    }
  }

  lemma AndNotMisses(p: Mask, q: Mask, b: Mask)
    requires b & (b - 1) == 0
    ensures (p & !q) & b == 0 <==> p & b == 0 || q & b != 0
  {
  }

  lemma BitTake(p: Mask, deny: Mask, b: Mask)
    requires Single(b)
    ensures Bit(Take(p, deny), b) <==> Bit(p, b) && !Bit(deny, b)
  {
    AndNotMisses(p, deny, b);
  }

  lemma BitOverwritten(p: Mask, deny: Mask, allow: Mask, b: Mask)
    requires Single(b)
    ensures Bit(Overwritten(p, deny, allow), b) <==> Bit(allow, b) || (Bit(p, b) && !Bit(deny, b))
  {
    hide Bit, Add, Take, Single;
    BitAdd(Take(p, deny), allow, b);
    BitTake(p, deny, b);
  }

  lemma HasBit(p: Mask)
    ensures Has(p, ADMINISTRATOR) <==> Bit(p, 0x8)
  {
  }

  lemma {:induction false} BitWithRoles(p: Mask, roles: seq<Role>, ids: seq<ID>, b: Mask)
    ensures Bit(WithRoles(p, roles, ids), b) <==> Bit(p, b) || exists r <- roles :: r.id in ids && Bit(r.permissions, b)
  {
    hide Bit, Add;
    if roles != [] {
      var last, rest := roles[|roles| - 1], roles[..|roles| - 1];
      BitWithRoles(p, rest, ids, b);
      BitAdd(WithRoles(p, rest, ids), last.permissions, b);
      assert forall r :: r in roles <==> r in rest || r == last;
    }
  }

  lemma {:induction false} BitRoleMasks(os: seq<Overwrite>, ids: seq<ID>, b: Mask)
    ensures Bit(RoleDenials(os, ids), b) <==> exists o <- os :: o.kind == OverwriteRole && o.id in ids && Bit(o.deny, b)
    ensures Bit(RoleAllowances(os, ids), b)
            <==> exists o <- os :: o.kind == OverwriteRole && o.id in ids && Bit(o.allow, b)
  {
    hide Bit, Add;
    if os == [] {
      NoBit(b);
    } else {
      var last, rest := os[|os| - 1], os[..|os| - 1];
      BitRoleMasks(rest, ids, b);
      BitAdd(RoleDenials(rest, ids), last.deny, b);
      BitAdd(RoleAllowances(rest, ids), last.allow, b);
      assert forall o :: o in os <==> o in rest || o == last;
    }
  }

  lemma BitInChannel(s: Setting, b: Mask)
    requires Single(b)
    ensures Bit(Base(s), b) <==> BaseBit(s, b)
    ensures Bit(InChannel(s), b) <==> Layered(s, b)
  {
    hide Bit, Single, WithRoles, RoleDenials, RoleAllowances, FirstRole, FirstOverwrite, Overwritten;
    var role := FirstRole(s.roles, s.guild);
    var all, own := FirstOverwrite(s.overwrites, s.guild), FirstOverwrite(s.overwrites, s.user);
    BitWithRoles(if role.Some? then role.value.permissions else 0, s.roles, s.roleIDs, b);
    NoBit(b);
    BitApply(Base(s), all, b);
    BitRoleMasks(s.overwrites, s.roleIDs, b);
    var deny, allow := RoleDenials(s.overwrites, s.roleIDs), RoleAllowances(s.overwrites, s.roleIDs);
    BitOverwritten(Apply(Base(s), all), deny, allow, b);
    BitApply(Overwritten(Apply(Base(s), all), deny, allow), own, b);
  }

  lemma NoBit(b: Mask)
    ensures !Bit(0, b)
  {
  }

  lemma BitApply(p: Mask, o: Option<Overwrite>, b: Mask)
    requires Single(b)
    ensures Bit(Apply(p, o), b) <==> Decide(o, Bit(p, b), b)
  {
    hide Bit, Single, Overwritten;
    if o.Some? {
      BitOverwritten(p, o.value.deny, o.value.allow, b);
    }
  }

  /** Every bit of the result: the owner, and whoever is an administrator before or after the overwrites, has
      the bits of PermissionAll, and everyone else what the layers decide. */
  lemma OverrideRule(s: Setting, b: Mask)
    requires Single(b)
    ensures Bit(Permitted(s), b)
            <==> if s.owner == s.user || BaseBit(s, 0x8) || Layered(s, 0x8) then Bit(0xff_fff7_ffff, b)
                 else Layered(s, b)
  {
    hide Bit, Single, Has, Base, InChannel, BaseBit, Layered;
    BitInChannel(s, b);
    BitInChannel(s, 0x8) by { OneBit(); }
    HasBit(Base(s));
    HasBit(InChannel(s));
  }

  lemma OneBit()
    ensures Single(0x8)
  {
  }

  /** What a member has and the guild's owner would lack in the same place: exactly what the layers grant
      a member who is not an administrator and PermissionAll misses. */
  lemma OwnerHasLessIff(s: Setting, b: Mask)
    requires Single(b) && s.owner != s.user
    ensures Bit(Permitted(s), b) && !Bit(Permitted(s.(owner := s.user)), b)
            <==> Layered(s, b) && !Bit(0xff_fff7_ffff, b) && !BaseBit(s, 0x8) && !Layered(s, 0x8)
  {
    hide Bit, Single, Permitted, BaseBit, Layered;
    OverrideRule(s, b);
    OverrideRule(s.(owner := s.user), b);
  }

  /** So for each permission that PermissionAll misses, a guild in which everyone has it but its owner. */
  lemma OwnerMayHaveLess(guild: ID, owner: ID, user: ID, b: Mask)
    requires owner != user && Single(b) && !Bit(0xff_fff7_ffff, b)
    ensures var s := Setting(guild, owner, user, [], [Role(guild, b)], []);
            Bit(Permitted(s), b) && !Bit(Permitted(s.(user := owner)), b)
  {
    var s := Setting(guild, owner, user, [], [Role(guild, b)], []);
    hide Single, Permitted;
    assert Bit(b, b) && !Bit(b, 0x8) by { OutsideAll(b); }
    OverrideRule(s, b);
    OverrideRule(s.(user := owner), b);
  }

  lemma OutsideAll(b: Mask)
    requires Single(b) && !Bit(0xff_fff7_ffff, b)
    ensures Bit(b, b) && !Bit(b, 0x8)
  {
    SingleSplits(0x8, b);
    AdministratorIsInAll();
  }

  lemma AdministratorIsInAll()
    ensures Bit(0xff_fff7_ffff, 0x8) && Single(0x8)
  {
  }

  // The order of roles and overwrites does not matter.

  ghost predicate DistinctRoles(roles: seq<Role>) {
    forall i, j :: 0 <= i < j < |roles| ==> roles[i].id != roles[j].id
  }

  ghost predicate DistinctOverwrites(os: seq<Overwrite>) {
    forall i, j :: 0 <= i < j < |os| ==> os[i].id != os[j].id
  }

  lemma {:induction false} FirstRoleIs(roles: seq<Role>, id: ID, r: Role)
    requires DistinctRoles(roles)
    ensures FirstRole(roles, id) == Some(r) <==> r in roles && r.id == id
  {
    if roles != [] {
      FirstRoleIs(roles[1..], id, r);
    }
  }

  lemma {:induction false} FirstOverwriteIs(os: seq<Overwrite>, id: ID, o: Overwrite)
    requires DistinctOverwrites(os)
    ensures FirstOverwrite(os, id) == Some(o) <==> o in os && o.id == id
  {
    if os != [] {
      FirstOverwriteIs(os[1..], id, o);
    }
  }

  lemma XorBits(p: Mask, q: Mask, b: Mask)
    ensures (p ^ q) & b == (p & b) ^ (q & b)
  {
  }

  lemma XorIsZero(p: Mask, q: Mask)
    ensures p ^ q == 0 <==> p == q
  {
  }

  lemma SingleSplits(p: Mask, b: Mask)
    requires Single(b)
    ensures p & b == 0 || p & b == b
  {
  }

  lemma LowestBit(d: Mask)
    requires d != 0
    ensures Single(d & (0 - d)) && d & (d & (0 - d)) == d & (0 - d)
  {
  }

  lemma BitDiffers(p: Mask, q: Mask, b: Mask)
    requires Single(b) && (p ^ q) & b == b
    ensures Bit(p, b) <==> !Bit(q, b)
  {
    XorBits(p, q, b);
    SingleSplits(p, b);
    SingleSplits(q, b);
  }

  lemma SomeBitDiffers(p: Mask, q: Mask) returns (b: Mask)
    requires p != q
    ensures Single(b) && (Bit(p, b) <==> !Bit(q, b))
  {
    hide Single, Bit;
    XorIsZero(p, q);
    LowestBit(p ^ q);
    b := (p ^ q) & (0 - (p ^ q));
    BitDiffers(p, q, b);
  }

  /** Masks with the same bits are the same. */
  lemma BitsDecide(p: Mask, q: Mask)
    requires forall b :: Single(b) ==> (Bit(p, b) <==> Bit(q, b))
    ensures p == q
  {
    hide Single, Bit;
    if p != q {
      var b := SomeBitDiffers(p, q);
    }
  }

  /** The same roles, role ids and overwrites, in any order. */
  ghost predicate Rearranged(s: Setting, t: Setting) {
    && s.guild == t.guild && s.owner == t.owner && s.user == t.user
    && multiset(s.roleIDs) == multiset(t.roleIDs)
    && multiset(s.roles) == multiset(t.roles)
    && multiset(s.overwrites) == multiset(t.overwrites)
  }

  lemma SameMembers<T>(s: seq<T>, t: seq<T>)
    requires multiset(s) == multiset(t)
    ensures forall x :: x in s <==> x in t
  {
    assert forall x :: x in s <==> x in multiset(s);
    assert forall x :: x in t <==> x in multiset(t);
  }

  lemma SameFirsts(s: Setting, t: Setting, id: ID)
    requires Rearranged(s, t)
    requires DistinctRoles(s.roles) && DistinctOverwrites(s.overwrites)
    requires DistinctRoles(t.roles) && DistinctOverwrites(t.overwrites)
    ensures FirstRole(s.roles, id) == FirstRole(t.roles, id)
    ensures FirstOverwrite(s.overwrites, id) == FirstOverwrite(t.overwrites, id)
  {
    hide DistinctRoles, DistinctOverwrites, FirstRole, FirstOverwrite;
    SameMembers(s.roles, t.roles);
    SameMembers(s.overwrites, t.overwrites);
    forall r ensures FirstRole(s.roles, id) == Some(r) <==> FirstRole(t.roles, id) == Some(r) {
      FirstRoleIs(s.roles, id, r);
      FirstRoleIs(t.roles, id, r);
    }
    forall o ensures FirstOverwrite(s.overwrites, id) == Some(o) <==> FirstOverwrite(t.overwrites, id) == Some(o) {
      FirstOverwriteIs(s.overwrites, id, o);
      FirstOverwriteIs(t.overwrites, id, o);
    }
  }

  /** With distinct role and overwrite ids, the result does not depend on any order. */
  lemma OrderDoesNotMatter(s: Setting, t: Setting)
    requires Rearranged(s, t)
    requires DistinctRoles(s.roles) && DistinctOverwrites(s.overwrites)
    requires DistinctRoles(t.roles) && DistinctOverwrites(t.overwrites)
    ensures Permitted(s) == Permitted(t)
  {
    hide Bit, Single, FirstRole, FirstOverwrite, Permitted, DistinctRoles, DistinctOverwrites;
    SameFirsts(s, t, s.guild);
    SameFirsts(s, t, s.user);
    SameMembers(s.roleIDs, t.roleIDs);
    SameMembers(s.roles, t.roles);
    SameMembers(s.overwrites, t.overwrites);
    forall b | Single(b) ensures Bit(Permitted(s), b) <==> Bit(Permitted(t), b) {
      OverrideRule(s, b);
      OverrideRule(t, b);
    }
    BitsDecide(Permitted(s), Permitted(t));
  }
}
