/** The count tallies over `$group` output: a sequence of (status, count) rows.
    formatStats and getStats fold the rows into a result object whose `total`
    accumulates every count; getServiceStats reads its rows into a status map. */
module Tallies {
  import opened Common

  /** One `$group` row: `_id` (a status name) and `count`. */
  type Group = (string, nat)

  /** The sum of the counts. */
  function Sum(g: seq<Group>): nat
  {
    if g == [] then 0 else Sum(g[..|g| - 1]) + g[|g| - 1].1
  }

  /** The count the last row named k carries, if any row is named k. */
  function LastCount(g: seq<Group>, k: string): Option<nat>
  {
    if g == [] then None
    else if g[|g| - 1].0 == k then Some(g[|g| - 1].1)
    else LastCount(g[..|g| - 1], k)
  }

  /** `statusMap[k] || 0`. */
  function CountOr0(g: seq<Group>, k: string): nat
  {
    match LastCount(g, k)
    case Some(c) => c
    case None => 0
  }

  /** No row is named "total", as no status is. */
  predicate NoTotalKey(g: seq<Group>)
  {
    forall i | 0 <= i < |g| :: g[i].0 != "total"
  }

  /** Each name occurs in at most one row, as `$group` produces them. */
  predicate DistinctKeys(g: seq<Group>)
  {
    forall i, j | 0 <= i < j < |g| :: g[i].0 != g[j].0
  }

  /** One pass of the forEach body: `result[s._id] = s.count; result.total += s.count`. */
  function TallyStep(m: map<string, nat>, row: Group): map<string, nat>
  {
    var m1 := m[row.0 := row.1];
    m1["total" := (if "total" in m1 then m1["total"] else 0) + row.1]
  }

  /** The result object after the forEach over g. */
  function TallySpec(init: map<string, nat>, g: seq<Group>): map<string, nat>
  {
    if g == [] then init else TallyStep(TallySpec(init, g[..|g| - 1]), g[|g| - 1])
  }

  /** The forEach loop itself. */
  method Tally(init: map<string, nat>, groups: seq<Group>) returns (result: map<string, nat>)
    requires "total" in init
    ensures "total" in result
    ensures result == TallySpec(init, groups)
  {
    result := init;
    var i := 0;
    while i < |groups|
      invariant 0 <= i <= |groups|
      invariant "total" in result
      invariant result == TallySpec(init, groups[..i])
    {
      assert groups[..i + 1][..i] == groups[..i];
      var s := groups[i];
      result := result[s.0 := s.1];
      result := result["total" := result["total"] + s.1];
      i := i + 1;
    }
    assert groups[..i] == groups;
  }

  /** `total` ends as its initial value plus the sum of all counts. */
  lemma {:induction false} TallyTotal(init: map<string, nat>, g: seq<Group>)
    requires "total" in init && NoTotalKey(g)
    ensures "total" in TallySpec(init, g)
    ensures TallySpec(init, g)["total"] == init["total"] + Sum(g)
  {
    if g != [] {
      var p := g[..|g| - 1];
      assert NoTotalKey(p) by {
        forall i | 0 <= i < |p| ensures p[i].0 != "total" {
          assert p[i] == g[i];
        }
      }
      TallyTotal(init, p);
      assert g[|g| - 1].0 != "total";
    }
  }

  /** Every other key holds the count of the last row with that name, or its
      initial value when no row has it; no other key appears. */
  lemma {:induction false} TallyKey(init: map<string, nat>, g: seq<Group>, k: string)
    requires k != "total"
    ensures k in TallySpec(init, g) <==> k in init || LastCount(g, k).Some?
    ensures k in TallySpec(init, g) ==>
              TallySpec(init, g)[k] == if LastCount(g, k).Some? then LastCount(g, k).value else init[k]
  {
    if g != [] {
      TallyKey(init, g[..|g| - 1], k);
    }
  }

  /** The forEach that fills getServiceStats' status map. */
  method StatusMap(groups: seq<Group>) returns (m: map<string, nat>)
    ensures forall k :: k in m <==> LastCount(groups, k).Some?
    ensures forall k :: k in m ==> m[k] == LastCount(groups, k).value
  {
    m := map[];
    var i := 0;
    while i < |groups|
      invariant 0 <= i <= |groups|
      invariant forall k :: k in m <==> LastCount(groups[..i], k).Some?
      invariant forall k :: k in m ==> m[k] == LastCount(groups[..i], k).value
    {
      assert groups[..i + 1][..i] == groups[..i];
      m := m[groups[i].0 := groups[i].1];
      i := i + 1;
    }
    assert groups[..i] == groups;
  }

  /** The sum of CountOr0 over a list of names. */
  function SumOver(g: seq<Group>, keys: seq<string>): nat
  {
    if keys == [] then 0 else CountOr0(g, keys[0]) + SumOver(g, keys[1..])
  }

  /** How often k occurs in keys. */
  function Occurrences(keys: seq<string>, k: string): nat
  {
    if keys == [] then 0 else (if keys[0] == k then 1 else 0) + Occurrences(keys[1..], k)
  }

  lemma {:induction false} SumOverAppend(g: seq<Group>, row: Group, keys: seq<string>)
    requires LastCount(g, row.0).None?
    ensures SumOver(g + [row], keys) == SumOver(g, keys) + row.1 * Occurrences(keys, row.0)
  {
    var g' := g + [row];
    assert g'[..|g'| - 1] == g;
    if keys != [] {
      SumOverAppend(g, row, keys[1..]);
    }
  }

  lemma {:induction false} OccursOnce(keys: seq<string>, k: string)
    requires k in keys
    requires forall i, j | 0 <= i < j < |keys| :: keys[i] != keys[j]
    ensures Occurrences(keys, k) == 1
  {
    if keys[0] == k {
      assert k !in keys[1..];
      OccursNot(keys[1..], k);
    } else {
      OccursOnce(keys[1..], k);
    }
  }

  lemma {:induction false} OccursNot(keys: seq<string>, k: string)
    requires k !in keys
    ensures Occurrences(keys, k) == 0
  {
    if keys != [] {
      OccursNot(keys[1..], k);
    }
  }

  lemma {:induction false} LastCountAbsent(g: seq<Group>, k: string)
    requires forall i | 0 <= i < |g| :: g[i].0 != k
    ensures LastCount(g, k).None?
  {
    if g != [] {
      LastCountAbsent(g[..|g| - 1], k);
    }
  }

  /** When the rows have distinct names drawn from `keys` (distinct too), the
      sum of all counts is the sum of the per-name counts read with `|| 0`. */
  lemma {:induction false} SumByKeys(g: seq<Group>, keys: seq<string>)
    requires DistinctKeys(g)
    requires forall i | 0 <= i < |g| :: g[i].0 in keys
    requires forall i, j | 0 <= i < j < |keys| :: keys[i] != keys[j]
    ensures Sum(g) == SumOver(g, keys)
  {
    if g == [] {
      ZeroOver(keys);
    } else {
      var p := g[..|g| - 1];
      var row := g[|g| - 1];
      assert p + [row] == g;
      assert DistinctKeys(p);
      SumByKeys(p, keys);
      LastCountAbsent(p, row.0);
      SumOverAppend(p, row, keys);
      OccursOnce(keys, row.0);
    }
  }

  lemma {:induction false} ZeroOver(keys: seq<string>)
    ensures SumOver([], keys) == 0
  {
    if keys != [] {
      ZeroOver(keys[1..]);
    }
  }
}
