// Small vocabulary shared by every module: optional values and the byte-wise
// string order that the daemon's ordered maps iterate in.
module Common {
  const U64_MAX := 0xFFFF_FFFF_FFFF_FFFF

  datatype Option<+T> = None | Some(value: T) {
    function GetOr(default: T): T {
      match this
      case None => default
      case Some(v) => v
    }
  }

  // Lexicographic order on strings (the order of `String: Ord`).
  predicate LexLeq(a: string, b: string) {
    if a == "" then true
    else if b == "" then false
    else if a[0] != b[0] then a[0] < b[0]
    else LexLeq(a[1..], b[1..])
  }

  lemma {:induction false} LexTotal(a: string, b: string)
    ensures LexLeq(a, b) || LexLeq(b, a)
  {
    if a != "" && b != "" && a[0] == b[0] {
      LexTotal(a[1..], b[1..]);
    }
  }

  lemma {:induction false} LexAntisymmetric(a: string, b: string)
    requires LexLeq(a, b) && LexLeq(b, a)
    ensures a == b
  {
    if a != "" && b != "" {
      LexAntisymmetric(a[1..], b[1..]);
      assert a == [a[0]] + a[1..] && b == [b[0]] + b[1..];
    }
  }

  lemma {:induction false} LexTransitive(a: string, b: string, c: string)
    requires LexLeq(a, b) && LexLeq(b, c)
    ensures LexLeq(a, c)
  {
    if a != "" && a[0] == b[0] && b[0] == c[0] {
      LexTransitive(a[1..], b[1..], c[1..]);
    }
  }

  predicate IsLeast(m: string, s: set<string>) {
    m in s && forall x <- s :: LexLeq(m, x)
  }

  lemma LeastExists(s: set<string>)
    requires s != {}
    ensures exists m :: IsLeast(m, s)
  {
    var x :| x in s;
    LexTotal(x, x);
    if s == {x} {
      assert IsLeast(x, s);
    } else {
      LeastExists(s - {x});
      var y :| IsLeast(y, s - {x});
      LexTotal(x, y);
      if LexLeq(x, y) {
        forall z <- s ensures LexLeq(x, z) {
          if z != x { LexTransitive(x, y, z); }
        }
        assert IsLeast(x, s);
      } else {
        assert IsLeast(y, s);
      }
    }
  }

  lemma LeastUnique(a: string, b: string, s: set<string>)
    requires IsLeast(a, s) && IsLeast(b, s)
    ensures a == b
  {
    LexAntisymmetric(a, b);
  }

  function Least(s: set<string>): (m: string)
    requires s != {}
    ensures IsLeast(m, s)
  {
    LeastExists(s);
    assert forall a, b | IsLeast(a, s) && IsLeast(b, s) :: a == b by {
      forall a, b | IsLeast(a, s) && IsLeast(b, s) ensures a == b { LeastUnique(a, b, s); }
    }
    var m :| IsLeast(m, s);
    m
  }

  predicate Distinct<T(==)>(s: seq<T>) {
    forall i, j | 0 <= i < j < |s| :: s[i] != s[j]
  }

  // The iteration order of an ordered map or set.
  function Sorted(s: set<string>): (r: seq<string>)
    ensures forall x :: x in r <==> x in s
    ensures Distinct(r)
    ensures forall i, j | 0 <= i < j < |r| :: LexLeq(r[i], r[j])
    ensures |r| == |s|
    decreases s
  {
    if s == {} then []
    else
      var m := Least(s);
      var rest := Sorted(s - {m});
      assert s == (s - {m}) + {m};
      [m] + rest
  }

  // The first n elements of a list, as a set.
  ghost function Taken(ids: seq<string>, n: nat): set<string>
    requires n <= |ids|
  {
    if n == 0 then {} else Taken(ids, n - 1) + {ids[n - 1]}
  }

  lemma {:induction false} TakenIs(ids: seq<string>, n: nat, x: string)
    requires n <= |ids|
    ensures x in Taken(ids, n) <==> x in ids[..n]
  {
    if n == 0 {
    } else {
      TakenIs(ids, n - 1, x);
      assert ids[..n] == ids[..n - 1] + [ids[n - 1]];
    }
  }

  // After the loop over a sorted set every element has been taken.
  lemma TakenAll(ids: seq<string>, s: set<string>)
    requires forall x :: x in ids <==> x in s
    ensures Taken(ids, |ids|) == s
  {
    forall x ensures x in Taken(ids, |ids|) <==> x in s {
      TakenIs(ids, |ids|, x);
      assert ids[..|ids|] == ids;
    }
  }

  // The next element has not been taken yet.
  lemma TakenNext(ids: seq<string>, n: nat)
    requires n < |ids| && Distinct(ids)
    ensures ids[n] !in Taken(ids, n)
  {
    TakenIs(ids, n, ids[n]);
  }
}
