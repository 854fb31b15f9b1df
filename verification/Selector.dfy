// The primary-backup Strategy: which Member should carry a Group's traffic.
module Selector {
  import opened Basics
  import opened Sorting

  const PRIMARY_BACKUP := "primary-backup"

  datatype Member = Member(wan: string, priority: int)

  datatype MemberHealth = MemberHealth(member: Member, healthy: bool)

  // A chosen WAN, or none.
  datatype Active = Active(wan: string, has: bool)

  const NO_ACTIVE := Active("", false)

  datatype GroupConfig = GroupConfig(name: string, strategy: string, table: int, mark: int,
                                     members: map<string, Member>)

  datatype SelectResult = Selected(active: Active) | UnknownStrategy

  // Lower priority first, ties by WAN name.
  predicate PreferredOver(a: Member, b: Member) {
    a.priority < b.priority || (a.priority == b.priority && NameLeq(a.wan, b.wan))
  }

  predicate BetterMember(a: MemberHealth, b: MemberHealth) {
    PreferredOver(a.member, b.member)
  }

  lemma PreferenceIsLinear()
    ensures LinearOrder(BetterMember)
  {
    forall x: MemberHealth, y: MemberHealth ensures BetterMember(x, y) || BetterMember(y, x) {
      NameLeqTotal(x.member.wan, y.member.wan);
    }
    forall x: MemberHealth, y: MemberHealth, z: MemberHealth
      | BetterMember(x, y) && BetterMember(y, z)
      ensures BetterMember(x, z)
    {
      if NameLeq(x.member.wan, y.member.wan) && NameLeq(y.member.wan, z.member.wan) {
        NameLeqTransitive(x.member.wan, y.member.wan, z.member.wan);
      }
    }
  }

  // wan is the healthy Member every healthy Member yields to.
  ghost predicate IsBest(members: map<string, Member>, healthy: set<string>, wan: string) {
    && wan in members && wan in healthy
    && forall other :: other in members && other in healthy
                       ==> PreferredOver(members[wan], members[other])
  }

  ghost predicate KeyedByWan(members: map<string, Member>) {
    forall wan :: wan in members ==> members[wan].wan == wan
  }

  // What the Strategy promises of its choice, on Health as a set.
  ghost predicate IsChoice(members: map<string, Member>, healthy: set<string>, a: Active) {
    if members.Keys * healthy == {} then a == NO_ACTIVE
    else a.has && IsBest(members, healthy, a.wan)
  }

  // At most one answer is a choice, so every visiting order gives the same.
  lemma ChoiceIsUnique(members: map<string, Member>, healthy: set<string>, a: Active, b: Active)
    requires KeyedByWan(members)
    requires IsChoice(members, healthy, a) && IsChoice(members, healthy, b)
    ensures a == b
  {
    if members.Keys * healthy != {} {
      NameLeqAntisymmetric(a.wan, b.wan);
    }
  }

  lemma {:induction false} ChoiceExists(members: map<string, Member>, healthy: set<string>) returns (a: Active)
    requires KeyedByWan(members)
    ensures IsChoice(members, healthy, a)
  {
    var some := members.Keys * healthy;
    if some == {} {
      a := NO_ACTIVE;
    } else {
      var w := Least(members, some);
      a := Active(w, true);
    }
  }

  lemma {:induction false} Least(members: map<string, Member>, some: set<string>) returns (w: string)
    requires KeyedByWan(members) && some <= members.Keys && some != {}
    ensures w in some && forall o :: o in some ==> PreferredOver(members[w], members[o])
    decreases |some|
  {
    w :| w in some;
    NameLeqTotal(w, w);
    if some != {w} {
      var v := Least(members, some - {w});
      PreferenceIsLinear();
      assert forall x: Member, y: Member, z: Member :: PreferredOver(x, y) && PreferredOver(y, z) ==> PreferredOver(x, z) by {
        forall x: Member, y: Member, z: Member | PreferredOver(x, y) && PreferredOver(y, z)
          ensures PreferredOver(x, z)
        {
          var a, b, c := MemberHealth(x, true), MemberHealth(y, true), MemberHealth(z, true);
          assert BetterMember(a, b) && BetterMember(b, c);
          assert BetterMember(a, c);
        }
      }
      NameLeqTotal(v, w);
      if PreferredOver(members[v], members[w]) {
        w := v;
      }
    }
  }

  ghost function Choice(members: map<string, Member>, healthy: set<string>): (a: Active)
    requires KeyedByWan(members)
    ensures IsChoice(members, healthy, a)
  {
    assert exists a :: IsChoice(members, healthy, a) by {
      var a := ChoiceExists(members, healthy);
    }
    var a :| IsChoice(members, healthy, a);
    a
  }

  // The choice, spelled out: none if no Member is healthy, else a healthy one
  // of least priority number, and among those the first by name, a shorter name
  // before its extensions.
  lemma ChoiceInFull(members: map<string, Member>, healthy: set<string>)
    requires KeyedByWan(members)
    ensures var a := Choice(members, healthy);
            && (a.has <==> exists w :: w in members && w in healthy)
            && (!a.has ==> a.wan == "")
            && (a.has ==> a.wan in members && a.wan in healthy)
            && forall w {:trigger members[w]} :: w in members && w in healthy ==>
                 && members[a.wan].priority <= members[w].priority
                 && (members[a.wan].priority == members[w].priority && a.wan != w ==>
                       exists k: nat {:trigger w[..k]} ::
                         k <= |a.wan| && k <= |w| && a.wan[..k] == w[..k]
                         && (k == |a.wan| < |w| || (k < |a.wan| && k < |w| && a.wan[k] < w[k])))
  {
    var a := Choice(members, healthy);
    if w :| w in members && w in healthy {
      assert w in members.Keys * healthy;
    }
    forall w | w in members && w in healthy
      ensures members[a.wan].priority <= members[w].priority
      ensures members[a.wan].priority == members[w].priority && a.wan != w ==>
                exists k: nat {:trigger w[..k]} ::
                  k <= |a.wan| && k <= |w| && a.wan[..k] == w[..k]
                  && (k == |a.wan| < |w| || (k < |a.wan| && k < |w| && a.wan[k] < w[k]))
    {
      assert w in members.Keys * healthy;
      assert PreferredOver(members[a.wan], members[w]);
      NameOrder(a.wan, w);
      if members[a.wan].priority == members[w].priority && a.wan != w {
        var k: nat :| k <= |a.wan| && k <= |w| && a.wan[..k] == w[..k]
                      && (k == |a.wan| < |w| || (k < |a.wan| && k < |w| && a.wan[k] < w[k]));
        assert w[..k] == a.wan[..k];
      }
    }
  }

  // A Group's choice depends on its own Members' Health only.
  lemma ChoiceIsLocal(members: map<string, Member>, h1: set<string>, h2: set<string>)
    requires KeyedByWan(members)
    requires members.Keys * h1 == members.Keys * h2
    ensures Choice(members, h1) == Choice(members, h2)
  {
    forall w | w in members ensures w in h1 <==> w in h2 {
      assert w in members.Keys * h1 <==> w in members.Keys * h2;
    }
    ChoiceIsUnique(members, h1, Choice(members, h1), Choice(members, h2));
  }

  // Each Member exactly once, in any order, with its Health.
  ghost predicate Lists(members: map<string, Member>, healthy: set<string>, list: seq<MemberHealth>) {
    && (forall i :: 0 <= i < |list| ==>
          && list[i].member.wan in members && members[list[i].member.wan] == list[i].member
          && (list[i].healthy <==> list[i].member.wan in healthy))
    && (forall w :: w in members ==> exists i :: 0 <= i < |list| && list[i].member.wan == w)
  }

  method HealthyMembers(members: seq<MemberHealth>) returns (out: seq<MemberHealth>)
    ensures forall m :: m in out <==> m in members && m.healthy
  {
    out := [];
    for i := 0 to |members|
      invariant forall m :: m in out <==> m in members[..i] && m.healthy
    {
      if members[i].healthy {
        out := out + [members[i]];
      }
    }
    assert members[..|members|] == members;
  }

  method PrimaryBackup(members: seq<MemberHealth>) returns (a: Active)
    ensures !a.has ==> a == NO_ACTIVE && forall m :: m in members ==> !m.healthy
    ensures a.has ==> exists m :: m in members && m.healthy && m.member.wan == a.wan
                                  && forall o :: o in members && o.healthy ==>
                                       m.member.priority < o.member.priority
                                       || (m.member.priority == o.member.priority && NameLeq(m.member.wan, o.member.wan))
  {
    var healthy := HealthyMembers(members);
    if |healthy| == 0 {
      return NO_ACTIVE;
    }
    PreferenceIsLinear();
    SortSorts(healthy, BetterMember);
    var sorted := Sort(healthy, BetterMember);
    a := Active(sorted[0].member.wan, true);
    assert sorted[0] in multiset(sorted);
    assert sorted[0] in members && sorted[0].healthy;
    forall o | o in members && o.healthy ensures PreferredOver(sorted[0].member, o.member) {
      assert o in multiset(sorted);
      var j :| 0 <= j < |sorted| && sorted[j] == o;
      NameLeqTotal(o.member.wan, o.member.wan);
      assert j == 0 || BetterMember(sorted[0], sorted[j]);
    }
  }

  // Runs the Strategy the Group names. On a full Member list, in any order,
  // a known Strategy returns the unique choice.
  method Select(g: GroupConfig, members: seq<MemberHealth>, ghost healthy: set<string>) returns (r: SelectResult)
    requires KeyedByWan(g.members) && Lists(g.members, healthy, members)
    ensures r == if g.strategy == "primary-backup" then Selected(Choice(g.members, healthy)) else UnknownStrategy
    ensures r.Selected? ==> forall w :: w in g.members && w in healthy ==>
              r.active.has && r.active.wan in g.members && r.active.wan in healthy
              && g.members[r.active.wan].priority <= g.members[w].priority
  {
    if g.strategy != PRIMARY_BACKUP {
      return UnknownStrategy;
    }
    var a := PrimaryBackup(members);
    assert IsChoice(g.members, healthy, a) by {
      if a.has {
        var m :| m in members && m.healthy && m.member.wan == a.wan
                 && forall o :: o in members && o.healthy ==> PreferredOver(m.member, o.member);
        assert a.wan in g.members.Keys * healthy;
        forall w | w in g.members && w in healthy ensures PreferredOver(g.members[a.wan], g.members[w]) {
          var i :| 0 <= i < |members| && members[i].member.wan == w;
          assert members[i] in members && members[i].healthy;
        }
      } else {
        forall w | w in g.members ensures w !in healthy {
          var i :| 0 <= i < |members| && members[i].member.wan == w;
          assert members[i] in members;
        }
      }
    }
    ChoiceIsUnique(g.members, healthy, a, Choice(g.members, healthy));
    r := Selected(a);
  }
}
