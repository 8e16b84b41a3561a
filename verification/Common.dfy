/** Small general-purpose definitions shared by the whole model. */
module Common {

  datatype Option<+T> = None | Some(value: T)

  /** The naturals below n. */
  ghost function Below(n: nat): (r: set<nat>)
    ensures forall i: nat :: i in r <==> i < n
  {
    if n == 0 then {} else Below(n - 1) + {n - 1}
  }

  lemma {:induction false} BelowCard(n: nat)
    ensures |Below(n)| == n
  {
    if n > 0 { BelowCard(n - 1); }
  }

  lemma {:induction false} SubsetCard<T>(a: set<T>, b: set<T>)
    requires a <= b
    ensures |a| <= |b|
    ensures |a| == |b| ==> a == b
    decreases b
  {
    if b != {} {
      var x :| x in b;
      if x in a {
        SubsetCard(a - {x}, b - {x});
        assert a == (a - {x}) + {x} && b == (b - {x}) + {x};
      } else {
        SubsetCard(a, b - {x});
      }
    }
  }

  /** A set of naturals below n holds at most n of them, and n of them only if it holds all. */
  lemma BoundedCard(s: set<nat>, n: nat)
    requires forall i :: i in s ==> i < n
    ensures |s| <= n
    ensures |s| == n <==> s == Below(n)
  {
    BelowCard(n);
    assert s <= Below(n);
    SubsetCard(s, Below(n));
  }

  /** All (row, column) pairs of an m by n table. */
  ghost function Grid(m: nat, n: nat): (r: set<(nat, nat)>)
    ensures forall q: (nat, nat) :: q in r <==> q.0 < m && q.1 < n
  {
    set p: nat, i: nat | p in Below(m) && i in Below(n) :: (p, i)
  }

  lemma {:induction false} GridCard(m: nat, n: nat)
    ensures |Grid(m, n)| == m * n
  {
    if m == 0 {
      assert Grid(m, n) == {};
    } else {
      var row := set q | q in Grid(m, n) && q.0 == m - 1;
      GridCard(m - 1, n);
      RowCard(m - 1, n, row);
      DisjointUnion(Grid(m - 1, n), row, Grid(m, n));
      assert (m - 1) * n + n == m * n;
    }
  }

  lemma DisjointUnion<T>(a: set<T>, b: set<T>, c: set<T>)
    requires a !! b && (forall x :: x in c <==> x in a || x in b)
    ensures |c| == |a| + |b|
  {
    assert c == a + b;
  }

  lemma {:induction false} RowCard(p: nat, n: nat, row: set<(nat, nat)>)
    requires forall q: (nat, nat) :: q in row <==> q.0 == p && q.1 < n
    ensures |row| == n
  {
    if n == 0 {
      assert row == {};
    } else {
      RowCard(p, n - 1, row - {(p, n - 1)});
    }
  }

  ghost predicate NoDup<T>(s: seq<T>) {
    forall i, j :: 0 <= i < j < |s| ==> s[i] != s[j]
  }

  ghost function SeqSet<T>(s: seq<T>): set<T> {
    set i | 0 <= i < |s| :: s[i]
  }

  lemma {:induction false} NoDupCard<T>(s: seq<T>)
    requires NoDup(s)
    ensures |SeqSet(s)| == |s|
  {
    if s == [] {
      assert SeqSet(s) == {};
    } else {
      var n := |s| - 1;
      NoDupCard(s[..n]);
      assert SeqSet(s) == SeqSet(s[..n]) + {s[n]} by {
        forall x | x in SeqSet(s) ensures x in SeqSet(s[..n]) + {s[n]} {
          var i :| 0 <= i < |s| && s[i] == x;
          if i < n { assert s[..n][i] == x; }
        }
        forall x | x in SeqSet(s[..n]) ensures x in SeqSet(s) {
          var i :| 0 <= i < n && s[..n][i] == x;
          assert s[i] == x;
        }
      }
      assert forall i :: 0 <= i < n ==> s[..n][i] == s[i];
    }
  }

  lemma PutAfterDrop<K, V>(m: map<K, V>, k: K, v: V)
    ensures (m - {k})[k := v] == m[k := v]
  {
  }

  /** DL_DELETE on a list: the element goes, the order of the others stays. */
  function Remove<T(==)>(s: seq<T>, x: T): (r: seq<T>)
  {
    if s == [] then [] else if s[0] == x then s[1..] else [s[0]] + Remove(s[1..], x)
  }

  lemma {:induction false} RemoveMultiset<T>(s: seq<T>, x: T)
    requires x in s
    ensures multiset(Remove(s, x)) == multiset(s) - multiset{x}
    ensures |Remove(s, x)| == |s| - 1
  {
    assert s == [s[0]] + s[1..];
    if s[0] != x {
      RemoveMultiset(s[1..], x);
      assert multiset(s) == multiset{s[0]} + multiset(s[1..]);
    }
  }

  lemma {:induction false} RemoveKeeps<T>(s: seq<T>, x: T)
    ensures forall y :: y in Remove(s, x) ==> y in s
    ensures forall y :: y in s && y != x ==> y in Remove(s, x)
  {
    if s != [] {
      assert s == [s[0]] + s[1..];
      if s[0] != x { RemoveKeeps(s[1..], x); }
    }
  }

  /** r is s without one occurrence of x. */
  ghost predicate DroppedFrom<T>(s: seq<T>, x: T, r: seq<T>) {
    exists i :: 0 <= i < |s| && s[i] == x && r == s[..i] + s[i + 1..]
  }

  lemma Shifted<T>(s: seq<T>, t: seq<T>, i: nat)
    requires s != [] && t == s[1..] && i < |t|
    ensures [s[0]] + (t[..i] + t[i + 1..]) == s[..i + 1] + s[i + 1 + 1..] && s[i + 1] == t[i]
  {
  }

  /** The first occurrence goes, and the others close ranks. */
  lemma {:induction false} RemoveExact<T>(s: seq<T>, x: T)
    requires x in s
    ensures DroppedFrom(s, x, Remove(s, x))
  {
    if s[0] == x {
      assert s[1..] == s[..0] + s[0 + 1..];
    } else {
      var t := s[1..];
      RemoveExact(t, x);
      var i :| 0 <= i < |t| && t[i] == x && Remove(t, x) == t[..i] + t[i + 1..];
      Shifted(s, t, i);
    }
  }

  lemma HeadAndTail<T>(s: seq<T>)
    requires s != []
    ensures s[0] in s && multiset(s) == multiset{s[0]} + multiset(s[1..])
    ensures forall x :: x in s <==> x == s[0] || x in s[1..]
  {
    assert s == [s[0]] + s[1..];
  }

  lemma RemoveHead<T>(s: seq<T>)
    requires s != []
    ensures Remove(s, s[0]) == s[1..]
  {
  }

  function Upto(n: nat): (r: seq<nat>)
    ensures |r| == n && forall i :: 0 <= i < n ==> r[i] == i
  {
    if n == 0 then [] else Upto(n - 1) + [n - 1]
  }

  lemma {:induction false} UptoBag(n: nat)
    ensures multiset(Upto(n)) == multiset(Below(n))
  {
    if n > 0 {
      UptoBag(n - 1);
      assert Below(n) == Below(n - 1) + {n - 1};
    }
  }

  /** A sequence whose elements occur at most once in some bag has no element twice. */
  lemma {:induction false} NoDupBag<T>(s: seq<T>, m: multiset<T>)
    requires multiset(s) <= m && forall x :: m[x] <= 1
    ensures NoDup(s)
  {
    if s != [] {
      var n := |s| - 1;
      assert s == s[..n] + [s[n]];
      assert multiset(s) == multiset(s[..n]) + multiset{s[n]};
      NoDupBag(s[..n], m);
      assert multiset(s)[s[n]] == multiset(s[..n])[s[n]] + 1;
    }
  }
}
