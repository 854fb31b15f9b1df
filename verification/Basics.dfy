// Shared value types: optional values, IP Families and the name order.
module Basics {

  datatype Option<+T> = None | Some(value: T)

  // The two IP Families a WAN can probe and route.
  datatype Family = V4 | V6

  // An IP address, opaque but comparable.
  type Address = nat

  // Lexicographic order on names, the order of Go's string comparison.
  predicate NameLeq(a: string, b: string) {
    if a == "" then true
    else if b == "" then false
    else a[0] < b[0] || (a[0] == b[0] && NameLeq(a[1..], b[1..]))
  }

  // Equal, or a proper prefix, or smaller at the first difference.
  lemma {:induction false} NameOrder(a: string, b: string)
    ensures NameLeq(a, b)
            <==> a == b || exists k: nat {:trigger a[..k]} ::
                             k <= |a| && k <= |b| && a[..k] == b[..k]
                             && (k == |a| < |b| || (k < |a| && k < |b| && a[k] < b[k]))
  {
    if a == "" || b == "" {
      assert a[..0] == b[..0] == "";
    } else if a[0] != b[0] {
      assert a[..0] == b[..0] == "";
      assert forall k: nat :: 0 < k <= |a| && k <= |b| ==> a[..k][0] != b[..k][0];
    } else {
      NameOrder(a[1..], b[1..]);
      assert a == [a[0]] + a[1..] && b == [b[0]] + b[1..];
      SharedFirst(a, b);
    }
  }

  // A shared first character moves the first difference on by one.
  lemma SharedFirst(a: string, b: string)
    requires a != "" && b != "" && a[0] == b[0]
    ensures (exists k: nat {:trigger a[..k]} :: k <= |a| && k <= |b| && a[..k] == b[..k]
                                                && (k == |a| < |b| || (k < |a| && k < |b| && a[k] < b[k])))
            <==> var c, d := a[1..], b[1..];
                 exists k: nat {:trigger c[..k]} :: k <= |c| && k <= |d| && c[..k] == d[..k]
                                                    && (k == |c| < |d| || (k < |c| && k < |d| && c[k] < d[k]))
  {
    var c, d := a[1..], b[1..];
    if k: nat :| k <= |a| && k <= |b| && a[..k] == b[..k] && (k == |a| < |b| || (k < |a| && k < |b| && a[k] < b[k])) {
      assert k > 0 && c[..k-1] == a[..k][1..] && d[..k-1] == b[..k][1..];
    }
    if k: nat :| k <= |c| && k <= |d| && c[..k] == d[..k] && (k == |c| < |d| || (k < |c| && k < |d| && c[k] < d[k])) {
      assert a[..k+1] == [a[0]] + c[..k] && b[..k+1] == [b[0]] + d[..k];
    }
  }

  lemma {:induction false} NameLeqTotal(a: string, b: string)
    ensures NameLeq(a, b) || NameLeq(b, a)
  {
    if a != "" && b != "" {
      NameLeqTotal(a[1..], b[1..]);
    }
  }

  lemma {:induction false} NameLeqAntisymmetric(a: string, b: string)
    requires NameLeq(a, b) && NameLeq(b, a)
    ensures a == b
  {
    if a != "" && b != "" {
      NameLeqAntisymmetric(a[1..], b[1..]);
      assert a == [a[0]] + a[1..] && b == [b[0]] + b[1..];
    }
  }

  lemma {:induction false} NameLeqTransitive(a: string, b: string, c: string)
    requires NameLeq(a, b) && NameLeq(b, c)
    ensures NameLeq(a, c)
  {
    if a != "" && b != "" && c != "" && a[0] == b[0] == c[0] {
      NameLeqTransitive(a[1..], b[1..], c[1..]);
    }
  }

  lemma {:induction false} SubsetCard<T>(a: set<T>, b: set<T>)
    requires a <= b
    ensures |a| <= |b|
  {
    if a != {} {
      var x :| x in a;
      SubsetCard(a - {x}, b - {x});
    }
  }
}
