/** Sharing in the preview harness (dev/harness.ts) over the access rule (src/lib/orgs.ts): who can
    open a brain, who stewards it, and what a share leaves of one person's lists. */
module Sharing {
  import opened Options

  datatype Role = Viewer | Editor | Admin | Owner

  function Rank(r: Role): nat {
    match r
    case Viewer => 0
    case Editor => 1
    case Admin => 2
    case Owner => 3
  }

  predicate AtLeast(r: Role, required: Role) {
    Rank(r) >= Rank(required)
  }

  function MaxRole(a: Role, b: Role): Role {
    if Rank(a) >= Rank(b) then a else b
  }

  function MinRole(a: Role, b: Role): Role {
    if Rank(a) <= Rank(b) then a else b
  }

  /** effectiveBrainRole. Anything but "private" is visible to the organization. */
  function EffectiveRole(visibility: string, orgRole: Option<Role>, grant: Option<Role>, readOnly: bool): Option<Role> {
    var byOrg := if orgRole.Some? && visibility != "private" then orgRole else None;
    var either := if grant.None? then byOrg else if byOrg.None? then grant else Some(MaxRole(byOrg.value, grant.value));
    var capped := if either.Some? && orgRole.None? then Some(MinRole(either.value, Editor)) else either;
    if capped.Some? && readOnly then Some(MinRole(capped.value, Viewer)) else capped
  }

  predicate Stewards(orgRole: Option<Role>) {
    orgRole.Some? && AtLeast(orgRole.value, Admin)
  }

  function Authority(role: Option<Role>, orgRole: Option<Role>): Option<Role> {
    if !Stewards(orgRole) then role
    else if role.None? then Some(Admin)
    else Some(MaxRole(role.value, Admin))
  }

  // ---------- the harness ----------

  type BrainId = string
  type UserId = string

  const ME: UserId := "me"

  datatype Brain = Brain(id: BrainId, visibility: string, orgRole: Option<Role>)

  type Grants = map<(BrainId, UserId), Role>

  /** The person a share names: an account in the organization, one outside it, or none. */
  datatype Person = Member(user: UserId) | Guest(user: UserId) | NoAccount(email: string)

  /** The access asked for: taken away, or a role given. */
  datatype Access = NoAccess | Give(role: Role)

  /** One share_brain call, its brain already found by name. */
  datatype Share = Share(brain: BrainId, visibility: Option<string>, person: Option<Person>, access: Access)

  type Invites = multiset<(BrainId, string)>

  datatype State = State(open: seq<Brain>, closed: seq<Brain>, grants: Grants, invites: Invites)

  function MyRole(b: Brain, grants: Grants): Option<Role> {
    EffectiveRole(b.visibility, b.orgRole, if (b.id, ME) in grants then Some(grants[(b.id, ME)]) else None, false)
  }

  predicate IsClosed(b: Brain, grants: Grants) {
    MyRole(b, grants).None? && Stewards(b.orgRole)
  }

  function Filter(bs: seq<Brain>, grants: Grants, closed: bool): seq<Brain> {
    if bs == [] then []
    else
      Filter(bs[..|bs| - 1], grants, closed)
      + (if IsClosed(bs[|bs| - 1], grants) == closed then [bs[|bs| - 1]] else [])
  }

  /** settleStewarded. */
  function Settled(s: State): State {
    s.(open := Filter(s.open + s.closed, s.grants, false), closed := Filter(s.open + s.closed, s.grants, true))
  }

  function Find(bs: seq<Brain>, id: BrainId): (r: Option<Brain>)
    ensures r.Some? ==> r.value in bs && r.value.id == id
    ensures r.None? ==> forall b :: b in bs ==> b.id != id
  {
    if bs == [] then None else if bs[0].id == id then Some(bs[0]) else Find(bs[1..], id)
  }

  function SetVisibility(bs: seq<Brain>, id: BrainId, v: string): seq<Brain> {
    seq(|bs|, i requires 0 <= i < |bs| => if bs[i].id == id then bs[i].(visibility := v) else bs[i])
  }

  function Revealed(s: State, c: Share): State {
    if c.visibility.Some? && c.visibility.value != "" then
      s.(open := SetVisibility(s.open, c.brain, c.visibility.value), closed := SetVisibility(s.closed, c.brain, c.visibility.value))
    else s
  }

  predicate MayShare(s: State, b: Brain) {
    var a := Authority(MyRole(b, s.grants), b.orgRole);
    a.Some? && AtLeast(a.value, Admin)
  }

  /** What a call comes to: whether it is made, and the state it leaves. A refusal of the
      person's access comes after the visibility has been set. */
  function Shared(s: State, c: Share): (bool, State) {
    var b := Find(s.open + s.closed, c.brain);
    if b.None? || !MayShare(s, b.value) then (false, s)
    else
      var t := Revealed(s, c);
      match c.person
      case None => (true, t)
      case Some(NoAccount(email)) =>
        if c.access.NoAccess? then ((c.brain, email) in t.invites, t.(invites := t.invites - multiset{(c.brain, email)}))
        else if c.access == Give(Admin) then (false, t)
        else (true, t.(invites := t.invites + multiset{(c.brain, email)}))
      case Some(p) =>
        if c.access.NoAccess? then
          if p.user == ME && !Stewards(b.value.orgRole) then (false, t)
          else (true, Settled(t.(grants := t.grants - {(c.brain, p.user)})))
        else if p.Guest? && c.access == Give(Admin) then (false, t)
        else (true, Settled(t.(grants := t.grants[(c.brain, p.user) := c.access.role])))
  }

  /** The harness's lists, changed in place by the calls. */
  class Harness {
    var open: seq<Brain>
    var closed: seq<Brain>
    var grants: Grants
    var invites: Invites

    constructor (s: State)
      ensures View() == s
    {
      open, closed, grants, invites := s.open, s.closed, s.grants, s.invites;
    }

    function View(): State
      reads this
    {
      State(open, closed, grants, invites)
    }

    method SettleStewarded()
      modifies this
      ensures View() == Settled(old(View()))
    {
      var all := open + closed;
      var o: seq<Brain>, cl: seq<Brain> := [], [];
      for i := 0 to |all|
        invariant View() == old(View())
        invariant o == Filter(all[..i], grants, false) && cl == Filter(all[..i], grants, true)
      {
        assert all[..i + 1][..i] == all[..i];
        if IsClosed(all[i], grants) { cl := cl + [all[i]]; } else { o := o + [all[i]]; }
      }
      assert all[..|all|] == all;
      open, closed := o, cl;
    }

    /** The share_brain tool. */
    method ShareBrain(c: Share) returns (ok: bool)
      modifies this
      ensures (ok, View()) == Shared(old(View()), c)
    {
      var b := Find(open + closed, c.brain);
      if b.None? || !MayShare(View(), b.value) {
        return false;
      }
      if c.visibility.Some? && c.visibility.value != "" {
        open := SetVisibility(open, c.brain, c.visibility.value);
        closed := SetVisibility(closed, c.brain, c.visibility.value);
      }
      match c.person {
        case None => return true;
        case Some(NoAccount(email)) =>
          if c.access.NoAccess? {
            ok := (c.brain, email) in invites;
            invites := invites - multiset{(c.brain, email)};
            return;
          }
          if c.access == Give(Admin) {
            return false;
          }
          invites := invites + multiset{(c.brain, email)};
          return true;
        case Some(p) =>
          if c.access.NoAccess? {
            if p.user == ME && !Stewards(b.value.orgRole) {
              return false;
            }
            grants := grants - {(c.brain, p.user)};
          } else {
            if p.Guest? && c.access == Give(Admin) {
              return false;
            }
            grants := grants[(c.brain, p.user) := c.access.role];
          }
          SettleStewarded();
          return true;
      }
    }
  }

  // ---------- what every call keeps ----------

  predicate Reachable(b: Brain, grants: Grants) {
    MyRole(b, grants).Some? || Stewards(b.orgRole)
  }

  function All(s: State): seq<Brain> {
    s.open + s.closed
  }

  predicate OneEach(bs: seq<Brain>) {
    forall i, j :: 0 <= i < j < |bs| ==> bs[i].id != bs[j].id
  }

  predicate NoLockout(s: State) {
    forall b :: b in All(s) ==> Reachable(b, s.grants)
  }

  lemma FindInAll(s: State, id: BrainId, b: Brain)
    requires OneEach(All(s)) && b in All(s) && b.id == id
    ensures Find(All(s), id) == Some(b)
  {
    var f := Find(All(s), id).value;
    var i :| 0 <= i < |All(s)| && All(s)[i] == f;
    var j :| 0 <= j < |All(s)| && All(s)[j] == b;
    assert All(s)[i].id == All(s)[j].id;
  }

  /** Who may share a brain and does not steward it holds an admin's grant on it. */
  lemma SharerHoldsGrant(s: State, b: Brain)
    requires MayShare(s, b) && !Stewards(b.orgRole)
    ensures b.orgRole.Some? && (b.id, ME) in s.grants && AtLeast(s.grants[(b.id, ME)], Admin)
  {
  }

  lemma {:induction false} FilterMembers(bs: seq<Brain>, grants: Grants, closed: bool)
    ensures forall b :: b in Filter(bs, grants, closed) <==> b in bs && IsClosed(b, grants) == closed
  {
    hide IsClosed;
    if bs != [] {
      var init, last := bs[..|bs| - 1], bs[|bs| - 1];
      FilterMembers(init, grants, closed);
      assert forall b :: b in bs <==> b in init || b == last by { assert bs == init + [last]; }
    }
  }

  lemma {:induction false} FilterSplits(bs: seq<Brain>, grants: Grants)
    ensures multiset(Filter(bs, grants, false)) + multiset(Filter(bs, grants, true)) == multiset(bs)
  {
    hide IsClosed;
    if bs != [] {
      var init, last := bs[..|bs| - 1], bs[|bs| - 1];
      FilterSplits(init, grants);
      assert bs == init + [last];
    }
  }

  /** Settling loses no brain and adds none. */
  lemma SettledKeepsAll(s: State)
    ensures multiset(All(Settled(s))) == multiset(All(s))
  {
    FilterSplits(All(s), s.grants);
    var t := Settled(s);
    assert multiset(t.open + t.closed) == multiset(t.open) + multiset(t.closed);
  }

  lemma OneEachByMultiset(a: seq<Brain>, b: seq<Brain>)
    requires multiset(a) == multiset(b) && OneEach(a)
    ensures OneEach(b)
  {
    forall i, j | 0 <= i < j < |b| ensures b[i].id != b[j].id {
      if b[i].id == b[j].id {
        assert b[i] in multiset(b) && b[j] in multiset(b);
        SameIdSame(a, b[i], b[j]);
        TwicePresent(b, i, j);
        OncePresent(a, b[i]);
      }
    }
  }

  lemma SameIdSame(a: seq<Brain>, x: Brain, y: Brain)
    requires OneEach(a) && x in a && y in a && x.id == y.id
    ensures x == y
  {
    var i :| 0 <= i < |a| && a[i] == x;
    var j :| 0 <= j < |a| && a[j] == y;
    assert i == j;
  }

  lemma TwicePresent(b: seq<Brain>, i: nat, j: nat)
    requires i < j < |b| && b[i] == b[j]
    ensures multiset(b)[b[i]] >= 2
  {
    assert b == b[..i] + [b[i]] + b[i + 1..j] + [b[j]] + b[j + 1..];
  }

  lemma {:induction false} OncePresent(a: seq<Brain>, x: Brain)
    requires OneEach(a)
    ensures multiset(a)[x] <= 1
  {
    if a != [] {
      var init, last := a[..|a| - 1], a[|a| - 1];
      OncePresent(init, x);
      assert a == init + [last];
      assert forall i :: 0 <= i < |init| ==> init[i].id != last.id;
      assert last !in init;
    }
  }

  /** Two lists of the same brains, one of each: one has the visibility of some changed. */
  predicate SameIds(a: seq<Brain>, b: seq<Brain>) {
    (set x | x in a :: x.id) == (set x | x in b :: x.id)
  }

  lemma RevealedKeeps(s: State, c: Share)
    requires OneEach(All(s))
    ensures OneEach(All(Revealed(s, c))) && SameIds(All(s), All(Revealed(s, c)))
    ensures |All(s)| == |All(Revealed(s, c))|
    ensures forall b :: b in All(Revealed(s, c)) ==>
      exists o :: o in All(s) && o.id == b.id && o.orgRole == b.orgRole && (b == o || b.id == c.brain)
  {
    var a, r := All(s), All(Revealed(s, c));
    RevealedAt(s, c);
    hide Revealed, All;
    forall b | b in r ensures exists o :: o in a && o.id == b.id && o.orgRole == b.orgRole && (b == o || b.id == c.brain) {
      var i :| 0 <= i < |r| && r[i] == b;
      assert a[i] in a;
    }
    forall x | x in a ensures exists y :: y in r && y.id == x.id {
      var i :| 0 <= i < |a| && a[i] == x;
      assert r[i] in r;
    }
  }

  /** The brains keep their places, and all but one its visibility. */
  lemma RevealedAt(s: State, c: Share)
    ensures var a, r := All(s), All(Revealed(s, c));
      |a| == |r| && forall i :: 0 <= i < |a| ==>
        r[i].id == a[i].id && r[i].orgRole == a[i].orgRole && (r[i] == a[i] || r[i].id == c.brain)
  {
  }

  /** Setting a brain's visibility shuts out nobody who was let set it. */
  lemma RevealedIsReachable(s: State, c: Share, b: Brain)
    requires OneEach(All(s)) && NoLockout(s) && b in All(Revealed(s, c))
    requires var f := Find(All(s), c.brain); f.Some? && MayShare(s, f.value)
    ensures Reachable(b, s.grants)
    ensures b.id == c.brain && !Stewards(b.orgRole) ==> b.orgRole.Some? && (b.id, ME) in s.grants
  {
    RevealedKeeps(s, c);
    var o :| o in All(s) && o.id == b.id && o.orgRole == b.orgRole && (b == o || b.id == c.brain);
    if b.id == c.brain {
      FindInAll(s, c.brain, o);
      if !Stewards(o.orgRole) { SharerHoldsGrant(s, o); }
    }
  }

  /** A grant to me keeps me in; taking mine away is only for a steward. */
  lemma GrantsKeepReachable(b: Brain, grants: Grants, after: Grants)
    requires Reachable(b, grants)
    requires (b.id, ME) in grants && (b.id, ME) !in after ==> Stewards(b.orgRole)
    ensures Reachable(b, after)
  {
  }

  lemma SettledKeeps(s: State)
    requires OneEach(All(s)) && NoLockout(s)
    ensures OneEach(All(Settled(s))) && NoLockout(Settled(s)) && SameIds(All(s), All(Settled(s)))
  {
    SettledKeepsAll(s);
    OneEachByMultiset(All(s), All(Settled(s)));
    forall b ensures b in All(s) <==> b in All(Settled(s)) {
      assert b in All(s) <==> b in multiset(All(s));
      assert b in All(Settled(s)) <==> b in multiset(All(Settled(s)));
    }
  }

  /** EVERY CALL KEEPS ME IN. Whatever one call asks, made or refused, every brain is still one
      I hold a role on or steward, there is still one of each, and none is lost. */
  lemma CallKeepsNoLockout(s: State, c: Share)
    requires OneEach(All(s)) && NoLockout(s)
    ensures var t := Shared(s, c).1; OneEach(All(t)) && NoLockout(t) && SameIds(All(s), All(t))
  {
    hide Settled, Reachable, SameIds, MayShare, Stewards, Revealed;
    var f := Find(s.open + s.closed, c.brain);
    if f.Some? && MayShare(s, f.value) {
      var t := Revealed(s, c);
      RevealedKeeps(s, c);
      RevealedGrants(s, c);
      forall b | b in All(t) ensures Reachable(b, t.grants) { RevealedIsReachable(s, c, b); }
      match c.person
      case Some(Member(u)) => PersonKeeps(s, c, t, u);
      case Some(Guest(u)) => PersonKeeps(s, c, t, u);
      case Some(NoAccount(email)) =>
      case None =>
    } else {
      SameItself(All(s));
    }
  }

  lemma SameItself(a: seq<Brain>)
    ensures SameIds(a, a)
  {
  }

  lemma RevealedGrants(s: State, c: Share)
    ensures Revealed(s, c).grants == s.grants
  {
  }

  lemma PersonKeeps(s: State, c: Share, t: State, u: UserId)
    requires OneEach(All(s)) && NoLockout(s) && t == Revealed(s, c) && OneEach(All(t)) && NoLockout(t) && SameIds(All(s), All(t))
    requires var f := Find(All(s), c.brain); f.Some? && MayShare(s, f.value)
    requires c.person == Some(Member(u)) || c.person == Some(Guest(u))
    ensures var r := Shared(s, c).1; OneEach(All(r)) && NoLockout(r) && SameIds(All(s), All(r))
  {
    hide Settled, MayShare, Revealed;
    var f := Find(All(s), c.brain).value;
    RevealedGrants(s, c);
    var after := if c.access.NoAccess? then t.grants - {(c.brain, u)} else t.grants[(c.brain, u) := c.access.role];
    var v := t.(grants := after);
    if !(c.access.NoAccess? && u == ME && !Stewards(f.orgRole)) {
      forall b | b in All(t) ensures Reachable(b, after) {
        RevealedKeeps(s, c);
        var o :| o in All(s) && o.id == b.id && o.orgRole == b.orgRole && (b == o || b.id == c.brain);
        if b.id == c.brain { FindInAll(s, c.brain, o); }
        GrantsKeepReachable(b, t.grants, after);
      }
      SettledKeeps(v);
    }
  }

  function After(s: State, cs: seq<Share>): State {
    if cs == [] then s else Shared(After(s, cs[..|cs| - 1]), cs[|cs| - 1]).1
  }

  /** The open list holds the brains I have a role on, and the other list the rest. */
  predicate Partitioned(s: State) {
    && (forall b :: b in s.open ==> MyRole(b, s.grants).Some?)
    && (forall b :: b in s.closed ==> MyRole(b, s.grants).None?)
  }

  lemma {:induction false} RunKeepsNoLockout(s: State, cs: seq<Share>)
    requires OneEach(All(s)) && NoLockout(s)
    ensures var t := After(s, cs); OneEach(All(t)) && NoLockout(t) && SameIds(All(s), All(t))
    decreases |cs|
  {
    hide OneEach, NoLockout, Shared;
    if cs == [] {
      SameItself(All(s));
    } else {
      RunKeepsNoLockout(s, cs[..|cs| - 1]);
      CallKeepsNoLockout(After(s, cs[..|cs| - 1]), cs[|cs| - 1]);
    }
  }

  /** Settling leaves the two lists exactly right. */
  lemma SettledIsPartitioned(s: State)
    requires NoLockout(s)
    ensures Partitioned(Settled(s))
  {
    hide MyRole;
    FilterMembers(All(s), s.grants, false);
    FilterMembers(All(s), s.grants, true);
  }

  /** The call ends in settleStewarded: it names someone with an account, and is made. */
  predicate Settles(s: State, c: Share) {
    Shared(s, c).0 && c.person.Some? && !c.person.value.NoAccount?
  }

  /** NO LOCKOUT. Over every run of shares, made or refused, each brain is one I hold a role on
      or steward, and none is lost; and after a call that settles, the open list is exactly
      the brains I hold a role on and the other list exactly the rest. */
  lemma RunsNeverLockOut(s: State, cs: seq<Share>)
    requires OneEach(All(s)) && NoLockout(s)
    ensures NoLockout(After(s, cs)) && SameIds(All(s), All(After(s, cs)))
    ensures cs != [] && Settles(After(s, cs[..|cs| - 1]), cs[|cs| - 1]) ==> Partitioned(After(s, cs))
  {
    hide OneEach, Settled, NoLockout, SameIds, Partitioned;
    RunKeepsNoLockout(s, cs);
    if cs != [] {
      var before, c := After(s, cs[..|cs| - 1]), cs[|cs| - 1];
      if Settles(before, c) {
        RunKeepsNoLockout(s, cs[..|cs| - 1]);
        CallKeepsNoLockout(before, c);
        SettlingCall(before, c);
      }
    }
  }

  lemma SettlingCall(s: State, c: Share)
    requires OneEach(All(s)) && NoLockout(s) && Settles(s, c)
    ensures Partitioned(Shared(s, c).1)
  {
    hide Settled, Partitioned, OneEach, MayShare, Revealed;
    var u := c.person.value.user;
    var t := Revealed(s, c);
    RevealedGrants(s, c);
    var after := if c.access.NoAccess? then t.grants - {(c.brain, u)} else t.grants[(c.brain, u) := c.access.role];
    var v := t.(grants := after);
    assert NoLockout(v) by { AllStayReachable(s, c, u, after); }
    SettledIsPartitioned(v);
  }

  lemma AllStayReachable(s: State, c: Share, u: UserId, after: Grants)
    requires OneEach(All(s)) && NoLockout(s) && Settles(s, c) && u == c.person.value.user
    requires after == if c.access.NoAccess? then s.grants - {(c.brain, u)} else s.grants[(c.brain, u) := c.access.role]
    ensures forall b :: b in All(Revealed(s, c)) ==> Reachable(b, after)
    ensures Revealed(s, c).grants == s.grants
  {
    RevealedGrants(s, c);
    RevealedKeeps(s, c);
    var f := Find(All(s), c.brain).value;
    forall b | b in All(Revealed(s, c)) ensures Reachable(b, after) {
      RevealedIsReachable(s, c, b);
      var o :| o in All(s) && o.id == b.id && o.orgRole == b.orgRole && (b == o || b.id == c.brain);
      if b.id == c.brain { FindInAll(s, c.brain, o); }
      hide Reachable, MayShare, Settled, Revealed;
      GrantsKeepReachable(b, s.grants, after);
    }
  }

  /** WITHOUT SETTLING A BRAIN MAY BE MISPLACED. A call on a brain I may share that does not end
      in settleStewarded, because it names nobody, names an address without an account or
      is refused, leaves two right lists right if and only if it asked for no visibility,
      I hold a grant on the brain, or neither or both of the old and the new visibility
      are "private". */
  lemma UnsettledIff(s: State, c: Share, b: Brain)
    requires OneEach(All(s)) && Partitioned(s) && b in All(s) && b.id == c.brain && MayShare(s, b)
    requires !Settles(s, c)
    ensures Partitioned(Shared(s, c).1) <==>
      || c.visibility.None? || c.visibility.value == ""
      || (b.id, ME) in s.grants
      || (b.visibility == "private" <==> c.visibility.value == "private")
  {
    FindInAll(s, c.brain, b);
    UnsettledLists(s, c, b);
    var r, t := Shared(s, c).1, Revealed(s, c);
    assert Partitioned(r) <==> Partitioned(t);
    if c.visibility.Some? && c.visibility.value != "" {
      RoleAfterVisibility(s, b, c.visibility.value);
      RevealedPartitionedIff(s, c, b);
    }
  }

  /** What a call that does not settle leaves of the lists and the grants. */
  lemma UnsettledLists(s: State, c: Share, b: Brain)
    requires !Settles(s, c) && Find(All(s), c.brain) == Some(b) && MayShare(s, b)
    ensures var r, t := Shared(s, c).1, Revealed(s, c);
      r.open == t.open && r.closed == t.closed && r.grants == t.grants && t.grants == s.grants
  {
    hide MayShare, Stewards, SetVisibility, Settled;
  }

  /** A sharer without a grant stewards the brain, and has a role of its own exactly when the
      brain is not private. */
  lemma RoleAfterVisibility(s: State, b: Brain, v: string)
    requires MayShare(s, b)
    ensures (MyRole(b.(visibility := v), s.grants).Some? <==> MyRole(b, s.grants).Some?)
        <==> ((b.id, ME) in s.grants || (b.visibility == "private" <==> v == "private"))
  {
  }

  lemma RevealedPartitionedIff(s: State, c: Share, b: Brain)
    requires OneEach(All(s)) && Partitioned(s) && b in All(s) && b.id == c.brain
    requires c.visibility.Some? && c.visibility.value != ""
    ensures Partitioned(Revealed(s, c)) <==>
      (MyRole(b.(visibility := c.visibility.value), s.grants).Some? <==> MyRole(b, s.grants).Some?)
  {
    hide MyRole;
    var t := Revealed(s, c);
    var b' := b.(visibility := c.visibility.value);
    forall x ensures x in t.open <==> (x == b' && b in s.open) || (x in s.open && x.id != c.brain) {
      SetMembers(s, s.open, c.brain, c.visibility.value, b, x);
    }
    forall x ensures x in t.closed <==> (x == b' && b in s.closed) || (x in s.closed && x.id != c.brain) {
      SetMembers(s, s.closed, c.brain, c.visibility.value, b, x);
    }
  }

  /** A call that only sets the visibility is always made and never settles. */
  lemma VisibilityAloneIff(s: State, c: Share, b: Brain)
    requires OneEach(All(s)) && Partitioned(s) && b in All(s) && b.id == c.brain && MayShare(s, b)
    requires c.person.None? && c.visibility.Some? && c.visibility.value != ""
    ensures Shared(s, c).0
    ensures Partitioned(Shared(s, c).1) <==>
      (MyRole(b.(visibility := c.visibility.value), s.grants).Some? <==> MyRole(b, s.grants).Some?)
  {
    FindInAll(s, c.brain, b);
    UnsettledIff(s, c, b);
    RoleAfterVisibility(s, b, c.visibility.value);
  }

  lemma SetMembers(s: State, bs: seq<Brain>, id: BrainId, v: string, b: Brain, x: Brain)
    requires OneEach(All(s)) && (bs == s.open || bs == s.closed) && b in All(s) && b.id == id
    ensures x in SetVisibility(bs, id, v) <==> (x == b.(visibility := v) && b in bs) || (x in bs && x.id != id)
  {
    var r := SetVisibility(bs, id, v);
    if x in r {
      var i :| 0 <= i < |r| && r[i] == x;
      assert bs[i] in bs && bs[i] in All(s);
      if bs[i].id == id { SameIdSame(All(s), bs[i], b); }
    }
    if x == b.(visibility := v) && b in bs {
      var i :| 0 <= i < |bs| && bs[i] == b;
      assert r[i] == x;
    }
    if x in bs && x.id != id {
      var i :| 0 <= i < |bs| && bs[i] == x;
      assert r[i] == x;
    }
  }

  /** A REFUSAL IS NOT ALWAYS NOTHING. A refused call leaves the state as it was if and only if
      the visibility it asked for, if any, is the one the brain has, or it was not let share
      at all. */
  lemma RefusalChangesIff(s: State, c: Share)
    requires OneEach(All(s)) && !Shared(s, c).0
    ensures Shared(s, c).1 == s <==>
      var b := Find(All(s), c.brain);
      b.None? || !MayShare(s, b.value) || c.visibility.None? || c.visibility.value in {"", b.value.visibility}
  {
    hide MayShare, Settled;
    var b := Find(All(s), c.brain);
    if b.Some? && MayShare(s, b.value) {
      NoInviteLost(s, c);
      if c.visibility.Some? && c.visibility.value != "" {
        SetSameIff(s, s.open, b.value, c.visibility.value);
        SetSameIff(s, s.closed, b.value, c.visibility.value);
      }
    }
  }

  lemma NoInviteLost(s: State, c: Share)
    requires !Shared(s, c).0 && Find(All(s), c.brain).Some? && MayShare(s, Find(All(s), c.brain).value)
    ensures Shared(s, c).1 == Revealed(s, c)
  {
    hide MayShare, Settled;
    if c.person.Some? && c.person.value.NoAccount? && c.access.NoAccess? {
      var t, i := Revealed(s, c), (c.brain, c.person.value.email);
      assert t.invites - multiset{i} == t.invites;
    }
  }

  lemma SetSameIff(s: State, bs: seq<Brain>, b: Brain, v: string)
    requires OneEach(All(s)) && (bs == s.open || bs == s.closed) && b in All(s)
    ensures SetVisibility(bs, b.id, v) == bs <==> b !in bs || b.visibility == v
  {
    var r := SetVisibility(bs, b.id, v);
    if b in bs && b.visibility != v {
      var i :| 0 <= i < |bs| && bs[i] == b;
      assert r[i] != bs[i];
    } else {
      forall i | 0 <= i < |bs| ensures r[i] == bs[i] {
        assert bs[i] in bs && bs[i] in All(s);
        if bs[i].id == b.id { SameIdSame(All(s), bs[i], b); }
      }
    }
  }

  // ---------- what a call does ----------

  /** The access rule, role by role: a role is held exactly when the grant or, on a brain that is
      not private, the organization gives as much, no more than an editor's outside the
      organization and no more than a viewer's where nothing can be written. */
  lemma RoleHeldIff(visibility: string, orgRole: Option<Role>, grant: Option<Role>, readOnly: bool, q: Role)
    ensures var r := EffectiveRole(visibility, orgRole, grant, readOnly);
      (r.Some? && AtLeast(r.value, q)) <==>
        && ((grant.Some? && AtLeast(grant.value, q)) || (orgRole.Some? && visibility != "private" && AtLeast(orgRole.value, q)))
        && (orgRole.None? ==> q in {Viewer, Editor})
        && (readOnly ==> q == Viewer)
  {
  }

  /** Sharing is for the brain's stewards and for members of the organization with an admin's
      grant on the brain. */
  lemma MayShareIff(s: State, b: Brain)
    ensures MayShare(s, b) <==>
      b.orgRole.Some? && (b.orgRole.value in {Admin, Owner} || ((b.id, ME) in s.grants && s.grants[(b.id, ME)] in {Admin, Owner}))
  {
  }

  /** The role a person holds on a brain by name. */
  function GrantOf(s: State, id: BrainId, u: UserId): Option<Role> {
    if (id, u) in s.grants then Some(s.grants[(id, u)]) else None
  }

  /** The brain as the call's visibility leaves it. */
  function Asked(b: Brain, c: Share): Brain {
    if b.id == c.brain && c.visibility.Some? && c.visibility.value != "" then b.(visibility := c.visibility.value) else b
  }

  /** The change a call asks of the invitations of an address. */
  function InviteStep(c: Share, id: BrainId, email: string): int {
    if c.person == Some(NoAccount(email)) && id == c.brain then (if c.access.NoAccess? then -1 else 1) else 0
  }

  /** WHAT A SHARE DOES. After a call that is made, the person it names by an account holds on
      the brain exactly the role asked, or none when access was taken away, and every other
      grant, of any brain and person, is as it was; an address without an account has one
      invitation more, or one less, and every other address as many as before; and the brain
      has the visibility asked, with every other brain as it was and none lost or added. */
  lemma MadeCallMeans(s: State, c: Share)
    requires OneEach(All(s)) && Shared(s, c).0
    ensures var t := Shared(s, c).1;
      && (forall id, u :: GrantOf(t, id, u) ==
            if id == c.brain && c.person in {Some(Member(u)), Some(Guest(u))}
            then (if c.access.NoAccess? then None else Some(c.access.role))
            else GrantOf(s, id, u))
      && (forall id, email :: t.invites[(id, email)] == s.invites[(id, email)] + InviteStep(c, id, email))
    ensures multiset(All(Shared(s, c).1)) == multiset(AllAsked(s, c))
  {
    hide MayShare, Settled, Stewards, Revealed;
    CallLeavesBrains(s, c);
    CallLeavesGrants(s, c);
  }

  /** Every brain as the call's visibility leaves it. */
  function AllAsked(s: State, c: Share): (r: seq<Brain>)
    ensures |r| == |All(s)| && forall i :: 0 <= i < |r| ==> r[i] == Asked(All(s)[i], c)
  {
    seq(|All(s)|, i requires 0 <= i < |All(s)| => Asked(All(s)[i], c))
  }

  lemma CallLeavesGrants(s: State, c: Share)
    requires Shared(s, c).0
    ensures var t := Shared(s, c).1;
      && (forall id, u :: GrantOf(t, id, u) ==
            if id == c.brain && c.person in {Some(Member(u)), Some(Guest(u))}
            then (if c.access.NoAccess? then None else Some(c.access.role))
            else GrantOf(s, id, u))
      && (forall id, email :: t.invites[(id, email)] == s.invites[(id, email)] + InviteStep(c, id, email))
  {
    hide MayShare, Stewards, Revealed, Settled, Find;
    RevealedLeaves(s, c);
    forall t ensures Settled(t).grants == t.grants && Settled(t).invites == t.invites { SettledLeaves(t); }
  }

  lemma RevealedLeaves(s: State, c: Share)
    ensures Revealed(s, c).grants == s.grants && Revealed(s, c).invites == s.invites
  {
  }

  lemma SettledLeaves(s: State)
    ensures Settled(s).grants == s.grants && Settled(s).invites == s.invites
  {
  }

  lemma RevealedIsAsked(s: State, c: Share)
    ensures All(Revealed(s, c)) == AllAsked(s, c)
  {
  }

  /** The brains a call leaves, whatever becomes of it, in one order or another. */
  lemma CallLeavesBrains(s: State, c: Share)
    requires var f := Find(All(s), c.brain); f.Some? && MayShare(s, f.value)
    ensures multiset(All(Shared(s, c).1)) == multiset(AllAsked(s, c))
  {
    hide MayShare, Stewards, Revealed, AllAsked, Settled;
    RevealedIsAsked(s, c);
    var t := Revealed(s, c);
    match c.person
    case Some(Member(u)) => PersonLeavesBrains(s, c, u);
    case Some(Guest(u)) => PersonLeavesBrains(s, c, u);
    case _ =>
  }

  lemma PersonLeavesBrains(s: State, c: Share, u: UserId)
    requires var f := Find(All(s), c.brain); f.Some? && MayShare(s, f.value)
    requires c.person in {Some(Member(u)), Some(Guest(u))}
    ensures multiset(All(Shared(s, c).1)) == multiset(All(Revealed(s, c)))
  {
    hide MayShare, Stewards, Revealed, Settled;
    var t := Revealed(s, c);
    SettledKeepsAll(t.(grants := t.grants - {(c.brain, u)}));
    if c.access.Give? { SettledKeepsAll(t.(grants := t.grants[(c.brain, u) := c.access.role])); }
  }

  /** WHEN A SHARE IS REFUSED, and what it then leaves: a brain not found or not one I may share,
      my own access taken away where I am no steward, an admin's role for anyone outside the
      organization, and an invitation cancelled that was never sent. No refusal changes a grant
      or an invitation. */
  lemma RefusedIff(s: State, c: Share)
    ensures !Shared(s, c).0 <==>
      var f := Find(All(s), c.brain);
      || f.None? || !MayShare(s, f.value)
      || (c.person.Some? && !c.person.value.Member? && c.access == Give(Admin))
      || (c.person.Some? && !c.person.value.NoAccount? && c.person.value.user == ME && c.access.NoAccess? && !Stewards(f.value.orgRole))
      || (c.person.Some? && c.person.value.NoAccount? && c.access.NoAccess? && s.invites[(c.brain, c.person.value.email)] == 0)
    ensures !Shared(s, c).0 ==> Shared(s, c).1.grants == s.grants && Shared(s, c).1.invites == s.invites
  {
    hide MayShare, Stewards, Revealed, Settled, Find;
    RevealedLeaves(s, c);
    match c.person
    case None =>
    case Some(NoAccount(email)) =>
      assert (c.brain, email) !in s.invites ==> s.invites - multiset{(c.brain, email)} == s.invites;
    case Some(p) =>
  }

  /** Settling keeps the order of the brains it puts in a list. */
  lemma {:induction false} FilterKeepsOrder(bs: seq<Brain>, grants: Grants, closed: bool, i: nat, j: nat)
    requires i < j < |Filter(bs, grants, closed)|
    ensures exists p, q :: 0 <= p < q < |bs| && bs[p] == Filter(bs, grants, closed)[i] && bs[q] == Filter(bs, grants, closed)[j]
  {
    hide IsClosed;
    var init, r := bs[..|bs| - 1], Filter(bs, grants, closed);
    var ri := Filter(init, grants, closed);
    assert forall k :: 0 <= k < |init| ==> init[k] == bs[k];
    if j < |ri| {
      FilterKeepsOrder(init, grants, closed, i, j);
      var p, q :| 0 <= p < q < |init| && init[p] == ri[i] && init[q] == ri[j];
      assert bs[p] == r[i] && bs[q] == r[j];
    } else {
      FilterMembers(init, grants, closed);
      assert ri[i] in ri;
      var p :| 0 <= p < |init| && init[p] == ri[i];
      assert bs[p] == r[i] && bs[|bs| - 1] == r[j];
    }
  }
}
