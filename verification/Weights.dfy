/** Hierarchical panel weights: at every level, equal shares for the groups of cases that agree
    on one more dimension. */
module Weights {

  import opened Prelude

  /** A case: its identifier and, for each dimension, its value. A missing value is the text
      `numeric`; here `Key` has filled that in. */
  datatype Case = Case(id: string, attributes: map<string, string>)

  function Key(dimensions: seq<string>, c: Case, i: nat): string
    requires i < |dimensions|
  {
    if dimensions[i] in c.attributes then c.attributes[dimensions[i]] else "numeric"
  }

  function Having(dimensions: seq<string>, rows: seq<Case>, i: nat, key: string): seq<Case>
    requires i < |dimensions|
  {
    if rows == [] then []
    else
      var n := |rows| - 1;
      var before := Having(dimensions, rows[..n], i, key);
      if Key(dimensions, rows[n], i) == key then before + [rows[n]] else before
  }

  /** The distinct values in order of first appearance. */
  function Keys(dimensions: seq<string>, rows: seq<Case>, i: nat): seq<string>
    requires i < |dimensions|
  {
    if rows == [] then []
    else
      var n := |rows| - 1;
      var before, key := Keys(dimensions, rows[..n], i), Key(dimensions, rows[n], i);
      if key in before then before else before + [key]
  }

  // ----- The weights, from the top

  /** The cases that agree with `c` on the first `d` dimensions. */
  function Group(dimensions: seq<string>, cases: seq<Case>, c: Case, d: nat): seq<Case>
    requires d <= |dimensions|
  {
    if d == 0 then cases
    else Having(dimensions, Group(dimensions, cases, c, d - 1), d - 1, Key(dimensions, c, d - 1))
  }

  /** The share of that group: its parent's, divided by how many groups the parent splits into. */
  function Share(dimensions: seq<string>, cases: seq<Case>, c: Case, d: nat): real
    requires d <= |dimensions|
  {
    if d == 0 then 1.0
    else Quotient(Share(dimensions, cases, c, d - 1), |Keys(dimensions, Group(dimensions, cases, c, d - 1), d - 1)|)
  }

  function Quotient(x: real, n: nat): real {
    if n == 0 then x else x / n as real
  }

  function Weight(dimensions: seq<string>, cases: seq<Case>, c: Case): real {
    var d := |dimensions|;
    Quotient(Share(dimensions, cases, c, d), |Group(dimensions, cases, c, d)|)
  }

  // ----- Groups and their values

  lemma {:induction false} HavingIn(dimensions: seq<string>, rows: seq<Case>, i: nat, key: string, c: Case)
    requires i < |dimensions|
    ensures c in Having(dimensions, rows, i, key) <==> c in rows && Key(dimensions, c, i) == key
  {
    if rows != [] {
      var n := |rows| - 1;
      assert rows == rows[..n] + [rows[n]];
      HavingIn(dimensions, rows[..n], i, key, c);
    }
  }

  lemma {:induction false} KeysDistinct(dimensions: seq<string>, rows: seq<Case>, i: nat)
    requires i < |dimensions|
    ensures Distinct(Keys(dimensions, rows, i))
  {
    if rows != [] {
      KeysDistinct(dimensions, rows[..|rows| - 1], i);
    }
  }

  lemma {:induction false} KeysComplete(dimensions: seq<string>, rows: seq<Case>, i: nat, key: string)
    requires i < |dimensions|
    ensures key in Keys(dimensions, rows, i) <==> exists c :: c in rows && Key(dimensions, c, i) == key
  {
    if rows != [] {
      var n := |rows| - 1;
      assert rows == rows[..n] + [rows[n]];
      KeysComplete(dimensions, rows[..n], i, key);
      if Key(dimensions, rows[n], i) == key { assert rows[n] in rows; }
    }
  }

  /** Members of one group have one group and one share. */
  lemma {:induction false} SameGroup(dimensions: seq<string>, cases: seq<Case>, a: Case, b: Case, d: nat)
    requires d <= |dimensions| && b in Group(dimensions, cases, a, d)
    ensures Group(dimensions, cases, b, d) == Group(dimensions, cases, a, d)
    ensures Share(dimensions, cases, b, d) == Share(dimensions, cases, a, d)
  {
    if d > 0 {
      HavingIn(dimensions, Group(dimensions, cases, a, d - 1), d - 1, Key(dimensions, a, d - 1), b);
      SameGroup(dimensions, cases, a, b, d - 1);
    }
  }

  lemma {:induction false} InOwnGroup(dimensions: seq<string>, cases: seq<Case>, c: Case, d: nat)
    requires d <= |dimensions| && c in cases
    ensures c in Group(dimensions, cases, c, d)
  {
    if d > 0 {
      InOwnGroup(dimensions, cases, c, d - 1);
      HavingIn(dimensions, Group(dimensions, cases, c, d - 1), d - 1, Key(dimensions, c, d - 1), c);
    }
  }

  // ----- Totals

  function Repeated(n: nat, x: real): real {
    if n == 0 then 0.0 else Repeated(n - 1, x) + x
  }

  lemma {:induction false} RepeatedIsProduct(n: nat, x: real)
    ensures Repeated(n, x) == n as real * x
  {
    if n > 0 {
      RepeatedIsProduct(n - 1, x);
      Distribute((n - 1) as real, x);
      assert n as real == (n - 1) as real + 1.0;
    }
  }

  lemma Distribute(a: real, x: real)
    ensures (a + 1.0) * x == a * x + x
  {
  }

  lemma RepeatedQuotient(x: real, n: nat)
    requires n > 0
    ensures Repeated(n, Quotient(x, n)) == x
  {
    RepeatedIsProduct(n, Quotient(x, n));
  }

  function Total(dimensions: seq<string>, cases: seq<Case>, rows: seq<Case>): real {
    if rows == [] then 0.0
    else Total(dimensions, cases, rows[..|rows| - 1]) + Weight(dimensions, cases, rows[|rows| - 1])
  }

  /** The totals of the groups of these keys. */
  function GroupTotals(dimensions: seq<string>, cases: seq<Case>, rows: seq<Case>, i: nat, keys: seq<string>): real
    requires i < |dimensions|
  {
    if keys == [] then 0.0
    else
      var n := |keys| - 1;
      GroupTotals(dimensions, cases, rows, i, keys[..n]) + Total(dimensions, cases, Having(dimensions, rows, i, keys[n]))
  }

  /** One more row counts towards the one group of its key. */
  lemma {:induction false} OneMoreRow(dimensions: seq<string>, cases: seq<Case>, rows: seq<Case>, i: nat, keys: seq<string>)
    requires i < |dimensions| && rows != [] && Distinct(keys)
    ensures GroupTotals(dimensions, cases, rows, i, keys)
         == GroupTotals(dimensions, cases, rows[..|rows| - 1], i, keys)
            + if Key(dimensions, rows[|rows| - 1], i) in keys then Weight(dimensions, cases, rows[|rows| - 1]) else 0.0
  {
    if keys != [] {
      var n := |keys| - 1;
      var last := rows[|rows| - 1];
      assert keys == keys[..n] + [keys[n]];
      OneMoreRow(dimensions, cases, rows, i, keys[..n]);
      var group := Having(dimensions, rows[..|rows| - 1], i, keys[n]);
      if Key(dimensions, last, i) == keys[n] {
        assert (group + [last])[..|group|] == group;
      }
    }
  }

  /** A sum over rows is the sum over their groups. */
  lemma {:induction false} TotalByGroups(dimensions: seq<string>, cases: seq<Case>, rows: seq<Case>, i: nat, keys: seq<string>)
    requires i < |dimensions| && Distinct(keys)
    requires forall c :: c in rows ==> Key(dimensions, c, i) in keys
    ensures Total(dimensions, cases, rows) == GroupTotals(dimensions, cases, rows, i, keys)
  {
    if rows == [] {
      NoRows(dimensions, cases, i, keys);
    } else {
      TotalByGroups(dimensions, cases, rows[..|rows| - 1], i, keys);
      OneMoreRow(dimensions, cases, rows, i, keys);
    }
  }

  lemma {:induction false} NoRows(dimensions: seq<string>, cases: seq<Case>, i: nat, keys: seq<string>)
    requires i < |dimensions|
    ensures GroupTotals(dimensions, cases, [], i, keys) == 0.0
  {
    if keys != [] { NoRows(dimensions, cases, i, keys[..|keys| - 1]); }
  }

  lemma {:induction false} EqualTotals(
      dimensions: seq<string>, cases: seq<Case>, rows: seq<Case>, i: nat, keys: seq<string>, each: real)
    requires i < |dimensions|
    requires forall key :: key in keys ==> Total(dimensions, cases, Having(dimensions, rows, i, key)) == each
    ensures GroupTotals(dimensions, cases, rows, i, keys) == Repeated(|keys|, each)
  {
    if keys != [] {
      EqualTotals(dimensions, cases, rows, i, keys[..|keys| - 1], each);
    }
  }

  /** Rows of one weight. */
  lemma {:induction false} UniformTotal(dimensions: seq<string>, cases: seq<Case>, rows: seq<Case>, each: real)
    requires forall c :: c in rows ==> Weight(dimensions, cases, c) == each
    ensures Total(dimensions, cases, rows) == Repeated(|rows|, each)
  {
    if rows != [] {
      UniformTotal(dimensions, cases, rows[..|rows| - 1], each);
    }
  }

  /** A group of the last level: its cases have equal weights. */
  lemma LeafWeighsShare(dimensions: seq<string>, cases: seq<Case>, c: Case)
    requires c in cases
    ensures Total(dimensions, cases, Group(dimensions, cases, c, |dimensions|)) == Share(dimensions, cases, c, |dimensions|)
  {
    var d := |dimensions|;
    var rows, share := Group(dimensions, cases, c, d), Share(dimensions, cases, c, d);
    InOwnGroup(dimensions, cases, c, d);
    forall b | b in rows
      ensures Weight(dimensions, cases, b) == Quotient(share, |rows|)
    {
      SameGroup(dimensions, cases, c, b, d);
    }
    UniformTotal(dimensions, cases, rows, Quotient(share, |rows|));
    RepeatedQuotient(share, |rows|);
  }

  /** A group whose subgroups all weigh the same part of it. */
  lemma PartsWeighShare(dimensions: seq<string>, cases: seq<Case>, rows: seq<Case>, d: nat, share: real)
    requires d < |dimensions| && rows != []
    requires forall key :: key in Keys(dimensions, rows, d) ==>
               Total(dimensions, cases, Having(dimensions, rows, d, key)) == Quotient(share, |Keys(dimensions, rows, d)|)
    ensures Total(dimensions, cases, rows) == share
  {
    var keys := Keys(dimensions, rows, d);
    KeysDistinct(dimensions, rows, d);
    forall b | b in rows
      ensures Key(dimensions, b, d) in keys
    {
      KeysComplete(dimensions, rows, d, Key(dimensions, b, d));
    }
    TotalByGroups(dimensions, cases, rows, d, keys);
    EqualTotals(dimensions, cases, rows, d, keys, Quotient(share, |keys|));
    assert Key(dimensions, rows[0], d) in keys;
    RepeatedQuotient(share, |keys|);
  }

  /** A group's cases together weigh the group's share. */
  lemma {:induction false} GroupWeighsShare(dimensions: seq<string>, cases: seq<Case>, c: Case, d: nat)
    requires d <= |dimensions| && c in cases
    ensures Total(dimensions, cases, Group(dimensions, cases, c, d)) == Share(dimensions, cases, c, d)
    decreases |dimensions| - d
  {
    if d == |dimensions| {
      LeafWeighsShare(dimensions, cases, c);
    } else {
      var rows := Group(dimensions, cases, c, d);
      InOwnGroup(dimensions, cases, c, d);
      forall key | key in Keys(dimensions, rows, d)
        ensures Total(dimensions, cases, Having(dimensions, rows, d, key))
             == Quotient(Share(dimensions, cases, c, d), |Keys(dimensions, rows, d)|)
      {
        ChildWeighsShare(dimensions, cases, c, d, key);
      }
      PartsWeighShare(dimensions, cases, rows, d, Share(dimensions, cases, c, d));
    }
  }

  lemma {:induction false} ChildWeighsShare(dimensions: seq<string>, cases: seq<Case>, c: Case, d: nat, key: string)
    requires d < |dimensions| && c in cases
    requires key in Keys(dimensions, Group(dimensions, cases, c, d), d)
    ensures var rows := Group(dimensions, cases, c, d);
            Total(dimensions, cases, Having(dimensions, rows, d, key))
            == Quotient(Share(dimensions, cases, c, d), |Keys(dimensions, rows, d)|)
    decreases |dimensions| - d, 0
  {
    var rows := Group(dimensions, cases, c, d);
    KeysComplete(dimensions, rows, d, key);
    var b :| b in rows && Key(dimensions, b, d) == key;
    SameGroup(dimensions, cases, c, b, d);
    GroupIsCases(dimensions, cases, c, d, b);
    GroupWeighsShare(dimensions, cases, b, d + 1);
  }

  lemma {:induction false} GroupIsCases(dimensions: seq<string>, cases: seq<Case>, c: Case, d: nat, b: Case)
    requires d <= |dimensions| && b in Group(dimensions, cases, c, d)
    ensures b in cases
  {
    if d > 0 {
      HavingIn(dimensions, Group(dimensions, cases, c, d - 1), d - 1, Key(dimensions, c, d - 1), b);
      GroupIsCases(dimensions, cases, c, d - 1, b);
    }
  }

  /** The weights of a panel sum to one. */
  lemma WeightsSumToOne(dimensions: seq<string>, cases: seq<Case>)
    requires cases != []
    ensures Total(dimensions, cases, cases) == 1.0
  {
    GroupWeighsShare(dimensions, cases, cases[0], 0);
  }

  /** At every depth, groups with one parent carry equal totals. */
  lemma SiblingsWeighTheSame(dimensions: seq<string>, cases: seq<Case>, a: Case, b: Case, d: nat)
    requires d < |dimensions| && a in cases && b in Group(dimensions, cases, a, d)
    ensures Total(dimensions, cases, Group(dimensions, cases, a, d + 1))
         == Total(dimensions, cases, Group(dimensions, cases, b, d + 1))
  {
    GroupIsCases(dimensions, cases, a, d, b);
    SameGroup(dimensions, cases, a, b, d);
    GroupWeighsShare(dimensions, cases, a, d + 1);
    GroupWeighsShare(dimensions, cases, b, d + 1);
  }

  lemma QuotientPositive(x: real, n: nat)
    requires x > 0.0
    ensures Quotient(x, n) > 0.0
  {
  }

  lemma {:induction false} SharePositive(dimensions: seq<string>, cases: seq<Case>, c: Case, d: nat)
    requires d <= |dimensions|
    ensures Share(dimensions, cases, c, d) > 0.0
  {
    if d > 0 {
      SharePositive(dimensions, cases, c, d - 1);
      QuotientPositive(
        Share(dimensions, cases, c, d - 1), |Keys(dimensions, Group(dimensions, cases, c, d - 1), d - 1)|);
    }
  }

  lemma WeightPositive(dimensions: seq<string>, cases: seq<Case>, c: Case)
    ensures Weight(dimensions, cases, c) > 0.0
  {
    SharePositive(dimensions, cases, c, |dimensions|);
    QuotientPositive(Share(dimensions, cases, c, |dimensions|), |Group(dimensions, cases, c, |dimensions|)|);
  }

  // ----- The recursion that fills the dictionary

  datatype Outcome = Weighed(weights: map<string, real>) | Empty | DuplicateIds

  ghost predicate DistinctIds(cases: seq<Case>) {
    forall i, j :: 0 <= i < j < |cases| ==> cases[i].id != cases[j].id
  }

  function Ids(rows: seq<Case>): set<string> {
    set c | c in rows :: c.id
  }

  /** The dictionary has an entry for each of these identifiers, the weight of a row that has it. */
  ghost predicate Filled(dimensions: seq<string>, cases: seq<Case>, rows: seq<Case>, ids: set<string>,
                         result: map<string, real>) {
    forall id :: id in ids ==>
      id in result && exists c :: c in rows && c.id == id && result[id] == Weight(dimensions, cases, c)
  }

  method Children(dimensions: seq<string>, rows: seq<Case>, i: nat)
    returns (keys: seq<string>, children: map<string, seq<Case>>)
    requires i < |dimensions|
    ensures keys == Keys(dimensions, rows, i) && children.Keys == set k | k in keys
    ensures forall k :: k in children ==> children[k] == Having(dimensions, rows, i, k)
  {
    keys, children := [], map[];
    for n := 0 to |rows|
      invariant keys == Keys(dimensions, rows[..n], i) && children.Keys == set k | k in keys
      invariant forall k :: Having(dimensions, rows[..n], i, k) == if k in children then children[k] else []
    {
      assert rows[..n + 1][..n] == rows[..n];
      var key := Key(dimensions, rows[n], i);
      if key !in children {
        keys := keys + [key];
        children := children[key := []];
      }
      children := children[key := children[key] + [rows[n]]];
    }
    assert rows[..|rows|] == rows;
  }

  /** The entries that were set, and those that were there before. */
  ghost predicate Extended(result: map<string, real>, before: map<string, real>, ids: set<string>) {
    && result.Keys == before.Keys + ids
    && forall id :: id in before && id !in ids ==> result[id] == before[id]
  }

  /** A group of the last level: equal parts. */
  method Leaf(rows: seq<Case>, each: real, before: map<string, real>) returns (result: map<string, real>)
    ensures Extended(result, before, Ids(rows))
    ensures forall id :: id in Ids(rows) ==> result[id] == each
  {
    result := before;
    for n := 0 to |rows|
      invariant Extended(result, before, Ids(rows[..n]))
      invariant forall id :: id in Ids(rows[..n]) ==> result[id] == each
    {
      assert rows[..n + 1] == rows[..n] + [rows[n]];
      result := result[rows[n].id := each];
    }
    assert rows[..|rows|] == rows;
  }

  /** `divide`: hands `weight` down to the rows of one group. */
  method Divide(dimensions: seq<string>, ghost cases: seq<Case>, rows: seq<Case>, depth: nat, weight: real,
                before: map<string, real>) returns (result: map<string, real>)
    requires depth <= |dimensions|
    requires IsGroup(dimensions, cases, rows, depth, weight)
    ensures Extended(result, before, Ids(rows))
    ensures Filled(dimensions, cases, rows, Ids(rows), result)
    decreases |dimensions| - depth, 1
  {
    if depth < |dimensions| {
      result := DivideChildren(dimensions, cases, rows, depth, weight, before);
    } else if rows == [] {
      result := before;
    } else {
      result := Leaf(rows, Quotient(weight, |rows|), before);
      LeafFilled(dimensions, cases, rows, weight, result);
    }
  }

  /** Each child group in order of its first row. */
  method DivideChildren(dimensions: seq<string>, ghost cases: seq<Case>, rows: seq<Case>, depth: nat, weight: real,
                        before: map<string, real>) returns (result: map<string, real>)
    requires depth < |dimensions|
    requires IsGroup(dimensions, cases, rows, depth, weight)
    ensures Extended(result, before, Ids(rows))
    ensures Filled(dimensions, cases, rows, Ids(rows), result)
    decreases |dimensions| - depth, 0
  {
    result := before;
    var keys, children := Children(dimensions, rows, depth);
    ghost var done: set<string> := {};
    for n := 0 to |keys|
      invariant done == IdsOf(dimensions, rows, depth, keys[..n])
      invariant Extended(result, before, done) && Filled(dimensions, cases, rows, done, result)
    {
      assert keys[n] in children;
      var child := children[keys[n]];
      ChildGroup(dimensions, cases, rows, depth, weight, keys[n]);
      IdsNext(dimensions, rows, depth, keys, n);
      ghost var sofar := result;
      result := Divide(dimensions, cases, child, depth + 1, Quotient(weight, |keys|), result);
      ExtendedNext(before, sofar, result, done, Ids(child));
      FilledNext(dimensions, cases, rows, child, sofar, result, done, done + Ids(child));
      done := done + Ids(child);
    }
    assert keys[..|keys|] == keys;
    AllIds(dimensions, rows, depth);
  }

  lemma ExtendedNext(a: map<string, real>, b: map<string, real>, c: map<string, real>, ids: set<string>, more: set<string>)
    requires Extended(b, a, ids) && Extended(c, b, more)
    ensures Extended(c, a, ids + more)
  {
  }

  /** Nothing but the rows of one group of this depth, which has this share. */
  ghost predicate IsGroup(dimensions: seq<string>, cases: seq<Case>, rows: seq<Case>, depth: nat, weight: real)
    requires depth <= |dimensions|
  {
    forall c :: c in rows ==> Group(dimensions, cases, c, depth) == rows && Share(dimensions, cases, c, depth) == weight
  }

  lemma LeafFilled(dimensions: seq<string>, cases: seq<Case>, rows: seq<Case>, weight: real, result: map<string, real>)
    requires IsGroup(dimensions, cases, rows, |dimensions|, weight) && rows != []
    requires Ids(rows) <= result.Keys && forall id :: id in Ids(rows) ==> result[id] == Quotient(weight, |rows|)
    ensures Filled(dimensions, cases, rows, Ids(rows), result)
  {
    forall id | id in Ids(rows)
      ensures exists c :: c in rows && c.id == id && result[id] == Weight(dimensions, cases, c)
    {
      var c :| c in rows && c.id == id;
      assert Weight(dimensions, cases, c) == Quotient(weight, |rows|);
    }
  }

  lemma FilledNext(dimensions: seq<string>, cases: seq<Case>, rows: seq<Case>, child: seq<Case>,
                   before: map<string, real>, result: map<string, real>, ids: set<string>, more: set<string>)
    requires Filled(dimensions, cases, rows, ids, before)
    requires Extended(result, before, Ids(child)) && Filled(dimensions, cases, child, Ids(child), result)
    requires more == ids + Ids(child) && forall c :: c in child ==> c in rows
    ensures Filled(dimensions, cases, rows, more, result)
  {
    forall id | id in more
      ensures id in result && exists c :: c in rows && c.id == id && result[id] == Weight(dimensions, cases, c)
    {
      if id !in Ids(child) {
        var c :| c in rows && c.id == id && before[id] == Weight(dimensions, cases, c);
        assert result[id] == before[id];
      }
    }
  }

  /** The identifiers of the rows with one of these keys. */
  ghost function IdsOf(dimensions: seq<string>, rows: seq<Case>, i: nat, keys: seq<string>): set<string>
    requires i < |dimensions|
  {
    set c | c in rows && Key(dimensions, c, i) in keys :: c.id
  }

  lemma IdsNext(dimensions: seq<string>, rows: seq<Case>, i: nat, keys: seq<string>, n: nat)
    requires i < |dimensions| && n < |keys|
    ensures IdsOf(dimensions, rows, i, keys[..n + 1])
         == IdsOf(dimensions, rows, i, keys[..n]) + Ids(Having(dimensions, rows, i, keys[n]))
    ensures forall c :: c in Having(dimensions, rows, i, keys[n]) ==> c in rows
  {
    assert keys[..n + 1] == keys[..n] + [keys[n]];
    forall c
      ensures c in Having(dimensions, rows, i, keys[n]) <==> c in rows && Key(dimensions, c, i) == keys[n]
    {
      HavingIn(dimensions, rows, i, keys[n], c);
    }
  }

  lemma AllIds(dimensions: seq<string>, rows: seq<Case>, i: nat)
    requires i < |dimensions|
    ensures IdsOf(dimensions, rows, i, Keys(dimensions, rows, i)) == Ids(rows)
  {
    forall c | c in rows
      ensures Key(dimensions, c, i) in Keys(dimensions, rows, i)
    {
      KeysComplete(dimensions, rows, i, Key(dimensions, c, i));
    }
  }

  lemma ChildGroup(dimensions: seq<string>, cases: seq<Case>, rows: seq<Case>, depth: nat, weight: real, key: string)
    requires depth < |dimensions| && key in Keys(dimensions, rows, depth)
    requires IsGroup(dimensions, cases, rows, depth, weight)
    ensures |Keys(dimensions, rows, depth)| > 0
    ensures IsGroup(
              dimensions, cases, Having(dimensions, rows, depth, key), depth + 1,
              Quotient(weight, |Keys(dimensions, rows, depth)|))
  {
    forall c | c in Having(dimensions, rows, depth, key)
      ensures Group(dimensions, cases, c, depth + 1) == Having(dimensions, rows, depth, key)
      ensures Share(dimensions, cases, c, depth + 1) == Quotient(weight, |Keys(dimensions, rows, depth)|)
    {
      HavingIn(dimensions, rows, depth, key, c);
    }
  }

  lemma {:induction false} IdCount(cases: seq<Case>)
    ensures |Ids(cases)| <= |cases|
    ensures |Ids(cases)| == |cases| <==> DistinctIds(cases)
  {
    if cases != [] {
      var n := |cases| - 1;
      var before, id := cases[..n], cases[n].id;
      IdCount(before);
      assert cases == before + [cases[n]];
      assert Ids(cases) == Ids(before) + {id};
      if id in Ids(before) {
        assert Ids(cases) == Ids(before);
        SharedId(before, cases[n]);
      } else {
        NewId(before, cases[n]);
      }
    }
  }

  lemma NewId(before: seq<Case>, last: Case)
    requires last.id !in Ids(before)
    ensures DistinctIds(before + [last]) <==> DistinctIds(before)
  {
    var more := before + [last];
    assert forall i :: 0 <= i < |before| ==> more[i] == before[i] && before[i].id in Ids(before);
  }

  lemma SharedId(before: seq<Case>, last: Case)
    requires last.id in Ids(before)
    ensures !DistinctIds(before + [last])
  {
    var i :| 0 <= i < |before| && before[i].id == last.id;
    assert (before + [last])[i].id == (before + [last])[|before|].id;
  }

  /** The weight of every case, or an error exactly for an empty panel or duplicate identifiers. */
  method HierarchicalWeights(dimensions: seq<string>, cases: seq<Case>) returns (outcome: Outcome)
    ensures outcome.Empty? <==> cases == []
    ensures outcome.DuplicateIds? <==> !DistinctIds(cases)
    ensures outcome.Weighed? ==> outcome.weights.Keys == Ids(cases)
    ensures outcome.Weighed? ==> forall c :: c in cases ==> outcome.weights[c.id] == Weight(dimensions, cases, c)
  {
    if cases == [] { return Empty; }
    var result := Divide(dimensions, cases, cases, 0, 1.0, map[]);
    IdCount(cases);
    assert result.Keys == Ids(cases);
    if |result| != |cases| { return DuplicateIds; }
    forall c | c in cases
      ensures result[c.id] == Weight(dimensions, cases, c)
    {
      assert c.id in Ids(cases);
      var b :| b in cases && b.id == c.id && result[c.id] == Weight(dimensions, cases, b);
    }
    return Weighed(result);
  }
}
