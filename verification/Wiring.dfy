/** Orders in which the engine can visit its hash maps, and what of a visit depends on the order
    (`src/scripting/engine.rs`, the two wiring loops). */
module Wiring {
  import opened Wrappers

  /** One named input or output of a block. */
  datatype Wire = Wire(id: string, name: string)

  /** A block and the order in which its names come up. */
  datatype Visit = Visit(id: string, names: seq<string>)

  /** The names of each block. */
  type Table = map<string, set<string>>

  ghost predicate Orders<T(!new)>(s: seq<T>, of: set<T>) {
    Distinct(s) && forall x :: x in s <==> x in of
  }

  ghost predicate Visited(p: seq<Visit>, id: string) {
    exists i | 0 <= i < |p| :: p[i].id == id
  }

  /** A run through both loops: every block once, in any order, and for each block every name
      once, in any order. */
  ghost predicate IsPlan(p: seq<Visit>, table: Table) {
    && (forall i, j | 0 <= i < j < |p| :: p[i].id != p[j].id)
    && (forall id | id in table :: Visited(p, id))
    && (forall i | 0 <= i < |p| :: p[i].id in table && Orders(p[i].names, table[p[i].id]))
  }

  function WiresOf(v: Visit): (ws: seq<Wire>)
    ensures |ws| == |v.names|
  {
    seq(|v.names|, i requires 0 <= i < |v.names| => Wire(v.id, v.names[i]))
  }

  function Flatten(p: seq<Visit>): seq<Wire> {
    if p == [] then [] else Flatten(p[..|p| - 1]) + WiresOf(p[|p| - 1])
  }

  ghost predicate IsWire(table: Table, w: Wire) {
    w.id in table && w.name in table[w.id]
  }

  lemma {:induction false} FlattenHas(p: seq<Visit>, w: Wire)
    ensures w in Flatten(p) <==> exists i | 0 <= i < |p| :: p[i].id == w.id && w.name in p[i].names
  {
    if p != [] {
      var n := |p| - 1;
      FlattenHas(p[..n], w);
      VisitHas(p[n], w);
      assert w in Flatten(p) <==> w in Flatten(p[..n]) || w in WiresOf(p[n]);
    }
  }

  lemma VisitHas(v: Visit, w: Wire)
    ensures w in WiresOf(v) <==> v.id == w.id && w.name in v.names
  {
    var ws := WiresOf(v);
    if v.id == w.id && w.name in v.names {
      var i :| 0 <= i < |v.names| && v.names[i] == w.name;
      assert ws[i] == w;
    }
  }

  /** Every plan goes over the same wires. */
  lemma PlanCovers(p: seq<Visit>, table: Table)
    requires IsPlan(p, table)
    ensures forall w :: w in Flatten(p) <==> IsWire(table, w)
  {
    forall w ensures w in Flatten(p) <==> IsWire(table, w) {
      FlattenHas(p, w);
      if IsWire(table, w) {
        assert Visited(p, w.id);
      }
    }
  }

  lemma PlanGrows(p: seq<Visit>, table: Table, v: Visit, names: set<string>)
    requires IsPlan(p, table) && v.id !in table && Orders(v.names, names)
    ensures IsPlan(p + [v], table[v.id := names])
  {
    var q := p + [v];
    assert q[|p|] == v;
    forall id | id in table[v.id := names] ensures Visited(q, id) {
      if id != v.id {
        assert Visited(p, id);
        var i :| 0 <= i < |p| && p[i].id == id;
        assert q[i].id == id;
      }
    }
  }

  lemma {:induction false} SomeOrder<T(!new)>(of: set<T>) returns (s: seq<T>)
    ensures Orders(s, of)
  {
    s := [];
    if of != {} {
      var x :| x in of;
      s := SomeOrder(of - {x});
      s := s + [x];
    }
  }

  lemma {:induction false} SomePlan(table: Table) returns (p: seq<Visit>)
    ensures IsPlan(p, table)
    decreases |table|
  {
    p := [];
    if table != map[] {
      var id :| id in table;
      p := PlanEndingIn(table, id);
    }
  }

  lemma {:induction false} PlanEndingIn(table: Table, id: string) returns (p: seq<Visit>)
    requires id in table
    ensures IsPlan(p, table) && p != [] && p[|p| - 1].id == id
    decreases |table|, 0
  {
    var rest := table - {id};
    assert rest[id := table[id]] == table;
    assert |rest| < |table| by {
      assert |rest[id := table[id]]| == |rest| + 1;
    }
    var names := SomeOrder(table[id]);
    p := SomePlan(rest);
    PlanGrows(p, rest, Visit(id, names), table[id]);
    p := p + [Visit(id, names)];
  }

  /** Any wire can be the last one. */
  lemma PlanEndingWith(table: Table, w: Wire) returns (p: seq<Visit>)
    requires IsWire(table, w)
    ensures IsPlan(p, table) && Flatten(p) != [] && Flatten(p)[|Flatten(p)| - 1] == w
  {
    var rest := table - {w.id};
    assert rest[w.id := table[w.id]] == table;
    var names := SomeOrder(table[w.id] - {w.name});
    var visit := Visit(w.id, names + [w.name]);
    var q := SomePlan(rest);
    PlanGrows(q, rest, visit, table[w.id]);
    p := q + [visit];
    assert p[..|p| - 1] == q;
    assert WiresOf(visit)[|names|] == w;
  }

  // ---- What is left after all wires have given something, or nothing, in turn ----

  function Collect<K, V>(gifts: seq<Option<(K, V)>>): map<K, V> {
    if gifts == [] then map[]
    else
      var earlier := Collect(gifts[..|gifts| - 1]);
      var last := gifts[|gifts| - 1];
      if last.Some? then earlier[last.value.0 := last.value.1] else earlier
  }

  lemma {:induction false} CollectedWasGiven<K, V>(gifts: seq<Option<(K, V)>>)
    ensures forall k | k in Collect(gifts) :: Some((k, Collect(gifts)[k])) in gifts
    ensures forall g | g in gifts && g.Some? :: g.value.0 in Collect(gifts)
  {
    if gifts != [] {
      var earlier := gifts[..|gifts| - 1];
      CollectedWasGiven(earlier);
      assert gifts == earlier + [gifts[|gifts| - 1]];
    }
  }

  lemma SameMap<K, V>(a: map<K, V>, b: map<K, V>)
    requires a.Keys == b.Keys && forall k | k in a :: a[k] == b[k]
    ensures a == b
  {
  }

  /** One more value of `all` put into place. */
  lemma PutOneMore<K, V>(base: map<K, V>, all: map<K, V>, rest: set<K>, k: K)
    requires k in rest && rest <= all.Keys
    ensures base + (all - (rest - {k})) == (base + (all - rest))[k := all[k]]
  {
  }

  /** No key is given two values. */
  ghost predicate Agree<K(!new), V(!new)>(gifts: set<(K, V)>) {
    forall g, h | g in gifts && h in gifts && g.0 == h.0 :: g.1 == h.1
  }

  /** The gifts all taken at once. */
  ghost function Joined<K(!new), V(!new)>(gifts: set<(K, V)>): (m: map<K, V>)
    ensures forall k | k in m :: (k, m[k]) in gifts
    ensures forall g | g in gifts :: g.0 in m
  {
    var keys := set g | g in gifts :: g.0;
    assert forall k | k in keys :: exists v :: (k, v) in gifts by {
      forall k | k in keys ensures exists v :: (k, v) in gifts {
        var g :| g in gifts && g.0 == k;
        assert (k, g.1) in gifts;
      }
    }
    map k | k in keys :: var v :| (k, v) in gifts; v
  }

  /** If the gifts agree, taking them in turn in any order is taking them at once. */
  lemma CollectIsJoined<K(!new), V(!new)>(given: seq<Option<(K, V)>>, gifts: set<(K, V)>)
    requires Agree(gifts) && forall g :: Some(g) in given <==> g in gifts
    ensures Collect(given) == Joined(gifts)
  {
    CollectedWasGiven(given);
    var c, j := Collect(given), Joined(gifts);
    forall k | k in c ensures k in j && c[k] == j[k] {
      assert (k, c[k]) in gifts;
    }
    forall k | k in j ensures k in c {
      assert Some((k, j[k])) in given;
    }
  }
}
