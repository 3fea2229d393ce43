// Sums of counters over a fixed list of keys.
module Totals {
  import opened Common

  function At(m: map<string, nat>, x: string): nat {
    if x in m then m[x] else 0
  }

  ghost function Total(ids: seq<string>, m: map<string, nat>): nat {
    if ids == [] then 0 else Total(ids[..|ids| - 1], m) + At(m, ids[|ids| - 1])
  }

  lemma {:induction false} TotalEmpty(ids: seq<string>)
    ensures Total(ids, map[]) == 0
  {
    if ids == [] {
    } else {
      TotalEmpty(ids[..|ids| - 1]);
    }
  }

  // Two maps that agree on the listed keys have the same total.
  lemma {:induction false} TotalSame(ids: seq<string>, m: map<string, nat>, n: map<string, nat>)
    requires forall x | x in ids :: At(m, x) == At(n, x)
    ensures Total(ids, m) == Total(ids, n)
  {
    if ids == [] {
    } else {
      var init := ids[..|ids| - 1];
      assert forall x | x in init :: x in ids;
      TotalSame(init, m, n);
    }
  }

  lemma {:induction false} TotalMono(ids: seq<string>, m: map<string, nat>, n: map<string, nat>)
    requires forall x | x in ids :: At(m, x) <= At(n, x)
    ensures Total(ids, m) <= Total(ids, n)
  {
    if ids == [] {
    } else {
      var init := ids[..|ids| - 1];
      assert forall x | x in init :: x in ids;
      TotalMono(init, m, n);
    }
  }

  // Changing one listed counter changes the total by the same amount.
  lemma {:induction false} TotalUpdate(ids: seq<string>, m: map<string, nat>, x: string, v: nat)
    requires Distinct(ids) && x in ids
    ensures Total(ids, m[x := v]) == Total(ids, m) - At(m, x) + v
  {
    var init := ids[..|ids| - 1];
    assert ids == init + [ids[|ids| - 1]];
    if ids[|ids| - 1] == x {
      TotalSame(init, m[x := v], m);
    } else {
      TotalUpdate(init, m, x, v);
    }
  }
}
