/** JavaScript `Map` objects as the scanners use them: string keys kept in
    insertion order, either mapped to arrays that grow by `push`
    (`Multi`) or to single values replaced by `set` (`Ordered`). */
module Multimap {

  predicate Distinct<T(==)>(s: seq<T>)
  {
    forall i, j :: 0 <= i < j < |s| ==> s[i] != s[j]
  }

  /** A `Map<string, V[]>` together with the order in which its keys were inserted. */
  datatype Multi<V> = Multi(entries: map<string, seq<V>>, order: seq<string>)

  /** Keys listed once each, exactly the keys of the map, and every array
      non-empty (an array is only ever created holding its first element). */
  ghost predicate Valid<V>(mm: Multi<V>)
  {
    Distinct(mm.order)
    && (forall k :: k in mm.entries <==> k in mm.order)
    && (forall k :: k in mm.entries ==> |mm.entries[k]| > 0)
  }

  function Empty<V>(): (r: Multi<V>)
    ensures Valid(r)
  {
    Multi(map[], [])
  }

  /** `if (!m.has(k)) m.set(k, [v]); else m.get(k).push(v);` */
  function Add<V>(mm: Multi<V>, k: string, v: V): (r: Multi<V>)
    ensures Valid(mm) ==> Valid(r)
    ensures r.entries.Keys == mm.entries.Keys + {k}
    ensures r.entries[k] == (if k in mm.entries then mm.entries[k] else []) + [v]
    ensures forall k' :: k' in mm.entries && k' != k ==> r.entries[k'] == mm.entries[k']
    ensures r.order == if k in mm.entries then mm.order else mm.order + [k]
  {
    if k in mm.entries then Multi(mm.entries[k := mm.entries[k] + [v]], mm.order)
    else Multi(mm.entries[k := [v]], mm.order + [k])
  }

  /** Every value of a map after a push is the pushed value or was there before. */
  lemma AddMembers<V>(mm: Multi<V>, k: string, v: V)
    ensures var m := Add(mm, k, v);
      forall k', x :: k' in m.entries && x in m.entries[k'] ==> x == v || (k' in mm.entries && x in mm.entries[k'])
  {
  }

  /** The entries whose array holds more than one element, in key insertion
      order: the `Array.from(m.entries()).filter(([k, v]) => v.length > 1)`
      step shared by every duplicate finder. */
  function Groups<V>(mm: Multi<V>): seq<(string, seq<V>)>
    requires forall k :: k in mm.order ==> k in mm.entries
  {
    GroupsOf(mm.entries, mm.order)
  }

  function GroupsOf<V>(m: map<string, seq<V>>, order: seq<string>): seq<(string, seq<V>)>
    requires forall k :: k in order ==> k in m
  {
    if order == [] then []
    else
      (if |m[order[0]]| > 1 then [(order[0], m[order[0]])] else [])
      + GroupsOf(m, order[1..])
  }

  /** Exactly the keys with two or more values appear, each once, each with
      its whole array. */
  lemma {:induction false} GroupsExact<V>(mm: Multi<V>)
    requires Valid(mm)
    ensures forall i :: 0 <= i < |Groups(mm)| ==>
      Groups(mm)[i].0 in mm.entries && Groups(mm)[i].1 == mm.entries[Groups(mm)[i].0]
      && |Groups(mm)[i].1| > 1
    ensures forall k :: k in mm.entries && |mm.entries[k]| > 1 ==> HasKey(Groups(mm), k)
    ensures forall i, j :: 0 <= i < j < |Groups(mm)| ==> Groups(mm)[i].0 != Groups(mm)[j].0
  {
    GroupsOfExact(mm.entries, mm.order);
    assert forall k :: k in mm.entries ==> k in mm.order;
  }

  /** A member of a reported group is a member of that key's array. */
  lemma GroupMembers<V>(mm: Multi<V>)
    requires forall k :: k in mm.order ==> k in mm.entries
    ensures forall i, x :: 0 <= i < |Groups(mm)| && x in Groups(mm)[i].1 ==>
      Groups(mm)[i].0 in mm.entries && x in mm.entries[Groups(mm)[i].0] && |Groups(mm)[i].1| > 1
  {
    GroupsOfSound(mm.entries, mm.order);
  }

  /** Extending the key order by one key extends the groups by that key's
      entry when it is a duplicate: what a loop over `m.entries()` relies on. */
  lemma {:induction false} GroupsOfSnoc<V>(m: map<string, seq<V>>, order: seq<string>, k: string)
    requires forall x :: x in order ==> x in m
    requires k in m
    ensures forall x :: x in order + [k] ==> x in m
    ensures GroupsOf(m, order + [k])
         == GroupsOf(m, order) + (if |m[k]| > 1 then [(k, m[k])] else [])
  {
    if order == [] {
      assert order + [k] == [k];
    } else {
      assert (order + [k])[0] == order[0];
      assert (order + [k])[1..] == order[1..] + [k];
      assert forall x :: x in order[1..] ==> x in order;
      GroupsOfSnoc(m, order[1..], k);
    }
  }

  /** The `forEach((list, key) => { if (list.length > 1) out.push(...) })`
      loop that collects the groups. */
  method CollectGroups<V>(m: map<string, seq<V>>, order: seq<string>) returns (groups: seq<(string, seq<V>)>)
    requires forall k :: k in order ==> k in m
    ensures groups == GroupsOf(m, order)
  {
    groups := [];
    var i := 0;
    while i < |order|
      invariant 0 <= i <= |order|
      invariant groups == GroupsOf(m, order[..i])
    {
      var key := order[i];
      GroupsOfSnoc(m, order[..i], key);
      if |m[key]| > 1 {
        groups := groups + [(key, m[key])];
      }
      assert order[..i + 1] == order[..i] + [key];
      i := i + 1;
    }
    assert order[..i] == order;
  }

  /** Some group of `g` has key k. */
  predicate HasKey<V>(g: seq<(string, seq<V>)>, k: string)
  {
    exists i :: 0 <= i < |g| && g[i].0 == k
  }

  lemma GroupsOfExact<V>(m: map<string, seq<V>>, order: seq<string>)
    requires forall k :: k in order ==> k in m
    requires Distinct(order)
    ensures forall i :: 0 <= i < |GroupsOf(m, order)| ==>
      GroupsOf(m, order)[i].0 in order && GroupsOf(m, order)[i].1 == m[GroupsOf(m, order)[i].0]
      && |GroupsOf(m, order)[i].1| > 1
    ensures forall k :: k in order && |m[k]| > 1 ==> HasKey(GroupsOf(m, order), k)
    ensures forall i, j :: 0 <= i < j < |GroupsOf(m, order)| ==>
      GroupsOf(m, order)[i].0 != GroupsOf(m, order)[j].0
  {
    GroupsOfSound(m, order);
    GroupsOfComplete(m, order);
    GroupsOfDistinct(m, order);
  }

  lemma {:induction false} GroupsOfSound<V>(m: map<string, seq<V>>, order: seq<string>)
    requires forall k :: k in order ==> k in m
    ensures forall i :: 0 <= i < |GroupsOf(m, order)| ==>
      GroupsOf(m, order)[i].0 in order && GroupsOf(m, order)[i].1 == m[GroupsOf(m, order)[i].0]
      && |GroupsOf(m, order)[i].1| > 1
  {
    if order != [] {
      var rest := order[1..];
      assert forall k :: k in rest ==> k in order;
      GroupsOfSound(m, rest);
      var head := if |m[order[0]]| > 1 then [(order[0], m[order[0]])] else [];
      var g := GroupsOf(m, order);
      var gr := GroupsOf(m, rest);
      assert g == head + gr;
      forall i | 0 <= i < |g|
        ensures g[i].0 in order && g[i].1 == m[g[i].0] && |g[i].1| > 1
      {
        if i >= |head| { assert g[i] == gr[i - |head|]; }
      }
    }
  }

  lemma GroupsOfComplete<V>(m: map<string, seq<V>>, order: seq<string>)
    requires forall k :: k in order ==> k in m
    ensures forall k :: k in order && |m[k]| > 1 ==> HasKey(GroupsOf(m, order), k)
  {
    forall k | k in order && |m[k]| > 1 ensures HasKey(GroupsOf(m, order), k) {
      GroupsOfHasKey(m, order, k);
    }
  }

  lemma {:induction false} GroupsOfHasKey<V>(m: map<string, seq<V>>, order: seq<string>, k: string)
    requires forall x :: x in order ==> x in m
    requires k in order && |m[k]| > 1
    ensures HasKey(GroupsOf(m, order), k)
  {
    var g := GroupsOf(m, order);
    if order[0] == k {
      assert g[0].0 == k;
    } else {
      var rest := order[1..];
      assert k in rest;
      assert forall x :: x in rest ==> x in order;
      GroupsOfHasKey(m, rest, k);
      var gr := GroupsOf(m, rest);
      var head := if |m[order[0]]| > 1 then [(order[0], m[order[0]])] else [];
      assert g == head + gr;
      var i :| 0 <= i < |gr| && gr[i].0 == k;
      assert g[|head| + i] == gr[i];
    }
  }

  lemma {:induction false} GroupsOfDistinct<V>(m: map<string, seq<V>>, order: seq<string>)
    requires forall k :: k in order ==> k in m
    requires Distinct(order)
    ensures forall i, j :: 0 <= i < j < |GroupsOf(m, order)| ==>
      GroupsOf(m, order)[i].0 != GroupsOf(m, order)[j].0
  {
    if order != [] {
      var rest := order[1..];
      assert forall k :: k in rest ==> k in order;
      assert Distinct(rest);
      GroupsOfDistinct(m, rest);
      GroupsOfSound(m, rest);
      var head := if |m[order[0]]| > 1 then [(order[0], m[order[0]])] else [];
      var g := GroupsOf(m, order);
      var gr := GroupsOf(m, rest);
      assert g == head + gr;
      assert order[0] !in rest;
      forall i, j | 0 <= i < j < |g| ensures g[i].0 != g[j].0
      {
        if i < |head| {
          assert g[j] == gr[j - |head|];
          assert g[j].0 in rest;
        } else {
          assert g[i] == gr[i - |head|] && g[j] == gr[j - |head|];
        }
      }
    }
  }

  // ---------------------------------------------------------------------
  // Tallies over the keys: how the debug scanner's counters relate to the maps.

  /** 1 for an array with two or more values, else 0. */
  function DupIndicator<V>(l: seq<V>): int { if |l| > 1 then 1 else 0 }

  /** The sum of `f` over the arrays of the listed keys. */
  function Tally<V>(m: map<string, seq<V>>, order: seq<string>, f: seq<V> -> int): int
    requires forall k :: k in order ==> k in m
  {
    if order == [] then 0 else f(m[order[0]]) + Tally(m, order[1..], f)
  }

  lemma {:induction false} TallyCountsGroups<V>(m: map<string, seq<V>>, order: seq<string>)
    requires forall k :: k in order ==> k in m
    ensures Tally(m, order, DupIndicator) == |GroupsOf(m, order)|
  {
    if order != [] {
      assert forall k :: k in order[1..] ==> k in order;
      TallyCountsGroups(m, order[1..]);
    }
  }

  lemma {:induction false} TallyFrame<V>(m: map<string, seq<V>>, order: seq<string>, k: string, l: seq<V>, f: seq<V> -> int)
    requires forall x :: x in order ==> x in m
    requires k !in order
    ensures Tally(m[k := l], order, f) == Tally(m, order, f)
  {
    if order != [] {
      assert forall x :: x in order[1..] ==> x in order;
      TallyFrame(m, order[1..], k, l, f);
    }
  }

  lemma {:induction false} TallyUpdate<V>(m: map<string, seq<V>>, order: seq<string>, k: string, l: seq<V>, f: seq<V> -> int)
    requires forall x :: x in order ==> x in m
    requires Distinct(order) && k in order
    ensures Tally(m[k := l], order, f) == Tally(m, order, f) - f(m[k]) + f(l)
  {
    assert forall x :: x in order[1..] ==> x in order;
    assert Distinct(order[1..]);
    if order[0] == k {
      assert k !in order[1..];
      TallyFrame(m, order[1..], k, l, f);
    } else {
      assert k in order[1..];
      TallyUpdate(m, order[1..], k, l, f);
    }
  }

  lemma {:induction false} TallyAppend<V>(m: map<string, seq<V>>, order: seq<string>, k: string, f: seq<V> -> int)
    requires forall x :: x in order ==> x in m
    requires k in m
    ensures Tally(m, order + [k], f) == Tally(m, order, f) + f(m[k])
  {
    if order == [] {
      assert order + [k] == [k];
    } else {
      assert (order + [k])[1..] == order[1..] + [k];
      assert forall x :: x in order[1..] ==> x in order;
      TallyAppend(m, order[1..], k, f);
    }
  }

  /** How one `Add` moves a tally: by the change in f on the one array it touched. */
  lemma AddTally<V>(mm: Multi<V>, k: string, v: V, f: seq<V> -> int)
    requires Valid(mm)
    ensures Tally(Add(mm, k, v).entries, Add(mm, k, v).order, f)
      == Tally(mm.entries, mm.order, f)
         + (if k in mm.entries then f(mm.entries[k] + [v]) - f(mm.entries[k]) else f([v]))
  {
    if k in mm.entries {
      TallyUpdate(mm.entries, mm.order, k, mm.entries[k] + [v], f);
    } else {
      TallyFrame(mm.entries, mm.order, k, [v], f);
      TallyAppend(mm.entries[k := [v]], mm.order, k, f);
    }
  }

  // ---------------------------------------------------------------------

  /** A `Map<string, V>` updated by `set`, with its key insertion order
      (re-setting a key keeps its position). */
  datatype Ordered<V> = Ordered(entries: map<string, V>, order: seq<string>)

  ghost predicate OrderedValid<V>(om: Ordered<V>)
  {
    Distinct(om.order) && forall k :: k in om.entries <==> k in om.order
  }

  function Put<V>(om: Ordered<V>, k: string, v: V): (r: Ordered<V>)
    ensures OrderedValid(om) ==> OrderedValid(r)
    ensures r.entries == om.entries[k := v]
    ensures r.order == if k in om.entries then om.order else om.order + [k]
  {
    Ordered(om.entries[k := v], if k in om.entries then om.order else om.order + [k])
  }

  /** The values in key insertion order (`Array.from(m.values())`). */
  function Values<V>(om: Ordered<V>): (r: seq<V>)
    requires forall k :: k in om.order ==> k in om.entries
    ensures |r| == |om.order|
    ensures forall i :: 0 <= i < |r| ==> r[i] == om.entries[om.order[i]]
  {
    seq(|om.order|, i requires 0 <= i < |om.order| => om.entries[om.order[i]])
  }
}
