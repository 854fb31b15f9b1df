// Allocation of ICMP identifiers: hash, then linear probing over a 16-bit
// space.
module Idents {
  import opened Basics

  datatype IdentKey = IdentKey(wan: string, family: Family)

  const IDENT_SPACE := 0x1_0000

  type Ident = i: int | 0 <= i < IDENT_SPACE

  datatype Allocation = Allocated(idents: map<IdentKey, Ident>) | TooMany | Duplicate(key: IdentKey)

  // The slot a probe reaches after some steps from a key's hash.
  function Slot(start: Ident, offset: nat): Ident {
    (start + offset) % IDENT_SPACE
  }

  // The first free slot at or cyclically after start.
  ghost predicate IsFirstFree(taken: set<Ident>, start: Ident, slot: Ident) {
    exists d: nat :: d < IDENT_SPACE && ReachedFree(taken, start, d) && slot == Slot(start, d)
  }

  ghost predicate ReachedFree(taken: set<Ident>, start: Ident, d: nat) {
    Slot(start, d) !in taken && forall e: nat :: e < d ==> Slot(start, e) in taken
  }

  // How far round a slot is from start.
  function Distance(start: Ident, slot: Ident): nat {
    if slot >= start then slot - start else slot - start + IDENT_SPACE
  }

  // A whole turn reaches every slot, once.
  lemma TurnReaches(start: Ident, slot: Ident) returns (d: nat)
    ensures d < IDENT_SPACE && Slot(start, d) == slot && d == Distance(start, slot)
  {
    d := Distance(start, slot);
  }

  lemma ReachedAt(start: Ident, d: nat)
    requires d < IDENT_SPACE
    ensures Distance(start, Slot(start, d)) == d
  {
    if start + d >= IDENT_SPACE {
      assert (start + d) % IDENT_SPACE == start + d - IDENT_SPACE;
    }
  }

  lemma FirstFreeByDistance(taken: set<Ident>, start: Ident, slot: Ident)
    ensures IsFirstFree(taken, start, slot)
            <==> slot !in taken && forall s: Ident :: Distance(start, s) < Distance(start, slot) ==> s in taken
  {
    var d := TurnReaches(start, slot);
    if ReachedFree(taken, start, d) {
      forall s: Ident | Distance(start, s) < d ensures s in taken {
        var e := TurnReaches(start, s);
      }
    } else if slot !in taken {
      var e: nat :| e < d && Slot(start, e) !in taken;
      ReachedAt(start, e);
    }
    forall o: nat | o < IDENT_SPACE && slot == Slot(start, o) ensures o == d {
      ReachedAt(start, o);
    }
  }

  // Spelled out: the slot is free, and every slot from start up to it, going
  // round past the end, is taken.
  lemma FirstFreeInFull(taken: set<Ident>, start: Ident, slot: Ident)
    ensures IsFirstFree(taken, start, slot)
            <==> slot !in taken
                 && forall s: Ident :: (if start <= slot then start <= s < slot else s >= start || s < slot) ==> s in taken
  {
    FirstFreeByDistance(taken, start, slot);
    assert forall s: Ident ::
        (if start <= slot then start <= s < slot else s >= start || s < slot) <==> Distance(start, s) < Distance(start, slot);
  }

  lemma FirstFreeIsUnique(taken: set<Ident>, start: Ident, a: Ident, b: Ident)
    requires IsFirstFree(taken, start, a) && IsFirstFree(taken, start, b)
    ensures a == b
  {
    var d: nat :| d < IDENT_SPACE && ReachedFree(taken, start, d) && a == Slot(start, d);
    var e: nat :| e < IDENT_SPACE && ReachedFree(taken, start, e) && b == Slot(start, e);
    assert d < e ==> Slot(start, d) in taken;
    assert e < d ==> Slot(start, e) in taken;
  }

  function Range(n: nat): (r: set<Ident>)
    requires n <= IDENT_SPACE
    ensures |r| == n && forall s: Ident :: s in r <==> s < n
  {
    if n == 0 then {} else Range(n - 1) + {n - 1}
  }

  // Pigeonhole: probing every slot finds them all taken only if they are.
  lemma FullTurnFillsSpace(taken: set<Ident>, start: Ident)
    requires forall d: nat :: d < IDENT_SPACE ==> Slot(start, d) in taken
    ensures |taken| >= IDENT_SPACE
  {
    forall s | s in Range(IDENT_SPACE) ensures s in taken {
      var d := TurnReaches(start, s);
    }
    SubsetCard(Range(IDENT_SPACE), taken);
  }

  // ---- What an allocation promises

  ghost predicate DistinctKeys(keys: seq<IdentKey>) {
    forall i, j :: 0 <= i < j < |keys| ==> keys[i] != keys[j]
  }

  function ValuesOf(m: map<IdentKey, Ident>): set<Ident> {
    set k | k in m :: m[k]
  }

  predicate Injective(m: map<IdentKey, Ident>) {
    forall j, k :: j in m && k in m && m[j] == m[k] ==> j == k
  }

  // The slots the first n keys got.
  function TakenBy(keys: seq<IdentKey>, m: map<IdentKey, Ident>, n: nat): set<Ident>
    requires n <= |keys| && forall i :: 0 <= i < n ==> keys[i] in m
  {
    set i | 0 <= i < n :: m[keys[i]]
  }

  // Exactly the keys, no two alike, each in the first slot its predecessors
  // left free.
  ghost predicate Assigns(keys: seq<IdentKey>, hash: IdentKey -> Ident, m: map<IdentKey, Ident>) {
    && (forall i :: 0 <= i < |keys| ==> keys[i] in m)
    && (forall k :: k in m ==> k in keys)
    && Injective(m)
    && forall i :: 0 <= i < |keys| ==> IsFirstFree(TakenBy(keys, m, i), hash(keys[i]), m[keys[i]])
  }

  // The promise key by key: an identifier no earlier key has, while each one
  // from the key's hash upwards to it, 0 following 65535, is some earlier key's.
  lemma AssignedInFull(keys: seq<IdentKey>, hash: IdentKey -> Ident, m: map<IdentKey, Ident>, i: nat, s: Ident)
    requires Assigns(keys, hash, m) && i < |keys|
    ensures forall j :: 0 <= j <= i ==> keys[j] in m
    ensures forall j :: 0 <= j < i ==> m[keys[j]] != m[keys[i]]
    ensures var start, slot := hash(keys[i]), m[keys[i]];
            (if start <= slot then start <= s < slot else s >= start || s < slot) ==>
              exists j :: 0 <= j < i && m[keys[j]] == s
  {
    var taken, start, slot := TakenBy(keys, m, i), hash(keys[i]), m[keys[i]];
    FirstFreeInFull(taken, start, slot);
    assert forall j :: 0 <= j < i ==> m[keys[j]] in taken;
    assert (if start <= slot then start <= s < slot else s >= start || s < slot) ==> s in taken;
  }

  // The promise fixes every identifier: same list, same assignment, and a
  // longer list never moves an earlier key.
  lemma {:induction false} LongerListsAgree(keys: seq<IdentKey>, more: seq<IdentKey>, hash: IdentKey -> Ident,
                                            m: map<IdentKey, Ident>, m': map<IdentKey, Ident>, i: nat)
    requires Assigns(keys, hash, m) && Assigns(keys + more, hash, m') && i < |keys|
    ensures m'[(keys + more)[i]] == m[keys[i]]
  {
    forall j | 0 <= j < i ensures m'[(keys + more)[j]] == m[keys[j]] {
      LongerListsAgree(keys, more, hash, m, m', j);
    }
    assert TakenBy(keys + more, m', i) == TakenBy(keys, m, i);
    FirstFreeIsUnique(TakenBy(keys, m, i), hash(keys[i]), m'[(keys + more)[i]], m[keys[i]]);
  }

  // One key more, in the first slot free.
  lemma OneMoreAssigned(keys: seq<IdentKey>, hash: IdentKey -> Ident, m: map<IdentKey, Ident>, k: IdentKey, slot: Ident)
    requires Assigns(keys, hash, m) && k !in m && IsFirstFree(ValuesOf(m), hash(k), slot)
    ensures Assigns(keys + [k], hash, m[k := slot])
  {
    var keys', m' := keys + [k], m[k := slot];
    assert TakenBy(keys, m, |keys|) == ValuesOf(m);
    forall i | 0 <= i < |keys'| ensures IsFirstFree(TakenBy(keys', m', i), hash(keys'[i]), m'[keys'[i]]) {
      assert forall j :: 0 <= j < i ==> keys'[j] == keys[j] && keys[j] != k;
      assert TakenBy(keys', m', i) == TakenBy(keys, m, i);
    }
    assert Injective(m') by {
      var d: nat :| d < IDENT_SPACE && ReachedFree(ValuesOf(m), hash(k), d) && slot == Slot(hash(k), d);
      assert forall j :: j in m ==> m[j] in ValuesOf(m);
    }
  }

  predicate Repeats(keys: seq<IdentKey>, j: int) {
    0 <= j < |keys| && keys[j] in keys[..j]
  }

  // The outcome for every list: too long, a key repeated, or an assignment.
  // Fewer slots are taken than there are, so a probe always finds one.
  method AllocateIdents(keys: seq<IdentKey>, hash: IdentKey -> Ident) returns (r: Allocation)
    ensures |keys| > 0x1_0000 <==> r == TooMany
    ensures |keys| <= 0x1_0000 && DistinctKeys(keys) ==> r.Allocated? && Assigns(keys, hash, r.idents)
    ensures |keys| <= 0x1_0000 && !DistinctKeys(keys) ==>
              r.Duplicate? && exists j :: Repeats(keys, j) && keys[j] == r.key && DistinctKeys(keys[..j])
  {
    if |keys| > IDENT_SPACE {
      return TooMany;
    }
    var idents: map<IdentKey, Ident> := map[];
    var owners: map<Ident, IdentKey> := map[];
    ghost var done := [];
    for i := 0 to |keys|
      invariant done == keys[..i] && Allocating(done, hash, idents, owners)
    {
      var k := keys[i];
      if k in idents {
        assert Repeats(keys, i);
        return Duplicate(k);
      }
      var candidate := Probe(hash(k), owners);
      AllocatedNext(done, hash, idents, owners, k, candidate.value);
      TakeNext(keys, i);
      done := keys[..i+1];
      owners := owners[candidate.value := k];
      idents := idents[k := candidate.value];
    }
    assert done == keys;
    r := Allocated(idents);
  }

  lemma TakeNext(keys: seq<IdentKey>, i: nat)
    requires i < |keys|
    ensures keys[..i+1] == keys[..i] + [keys[i]]
  {
  }

  // These keys have their identifiers, each owned.
  ghost predicate Allocating(done: seq<IdentKey>, hash: IdentKey -> Ident, idents: map<IdentKey, Ident>,
                             owners: map<Ident, IdentKey>)
  {
    && DistinctKeys(done) && Assigns(done, hash, idents)
    && owners.Keys == ValuesOf(idents) && |owners| == |done|
  }

  lemma AllocatedNext(done: seq<IdentKey>, hash: IdentKey -> Ident, idents: map<IdentKey, Ident>,
                      owners: map<Ident, IdentKey>, k: IdentKey, slot: Ident)
    requires Allocating(done, hash, idents, owners) && k !in idents
    requires IsFirstFree(owners.Keys, hash(k), slot)
    ensures Allocating(done + [k], hash, idents[k := slot], owners[slot := k])
  {
    OneMoreAssigned(done, hash, idents, k, slot);
    OneMoreTaken(idents, k, slot, owners);
  }

  lemma OneMoreTaken(idents: map<IdentKey, Ident>, k: IdentKey, slot: Ident, owners: map<Ident, IdentKey>)
    requires k !in idents && owners.Keys == ValuesOf(idents) && slot !in owners
    ensures owners[slot := k].Keys == ValuesOf(idents[k := slot])
    ensures |owners[slot := k]| == |owners| + 1
  {
    var idents' := idents[k := slot];
    assert idents'[k] == slot;
    forall s: Ident ensures s in ValuesOf(idents') <==> s in ValuesOf(idents) + {slot} {
      if s in ValuesOf(idents) {
        var j :| j in idents && idents[j] == s;
        assert idents'[j] == s;
      }
    }
    assert owners[slot := k].Keys == owners.Keys + {slot};
  }

  // The first slot without an owner, from start on and around; none only
  // when every slot has one.
  method Probe(start: Ident, owners: map<Ident, IdentKey>) returns (slot: Option<Ident>)
    ensures slot.Some? ==> IsFirstFree(owners.Keys, start, slot.value)
    ensures slot.None? ==> |owners| >= IDENT_SPACE
  {
    for offset := 0 to IDENT_SPACE
      invariant forall e: nat :: e < offset ==> Slot(start, e) in owners
    {
      var candidate := Slot(start, offset);
      if candidate !in owners {
        assert ReachedFree(owners.Keys, start, offset);
        return Some(candidate);
      }
    }
    FullTurnFillsSpace(owners.Keys, start);
    assert |owners.Keys| == |owners|;
    slot := None;
  }
}
