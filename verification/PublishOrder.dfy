/** The order in which crates are published: a depth-first walk over their dependencies. */
module PublishOrder {
  datatype Crate = Crate(name: string, deps: seq<string>)

  /** The crate of each name; the last one listed counts. */
  function ByName(crates: seq<Crate>): (m: map<string, Crate>)
    ensures forall name :: name in m ==> m[name].name == name && m[name] in crates
    ensures forall i :: 0 <= i < |crates| ==> crates[i].name in m
  {
    if crates == [] then map[]
    else ByName(crates[..|crates| - 1])[crates[|crates| - 1].name := crates[|crates| - 1]]
  }

  predicate LastNamed(crates: seq<Crate>, name: string, k: nat)
  {
    k < |crates| && crates[k].name == name && forall j :: k < j < |crates| ==> crates[j].name != name
  }

  /** Where a name is listed more than once, the last crate of that name counts. */
  lemma {:induction false} ByNameHolds(crates: seq<Crate>, name: string, k: nat)
    ensures LastNamed(crates, name, k) ==> name in ByName(crates) && ByName(crates)[name] == crates[k]
    ensures name in ByName(crates) ==> exists i :: 0 <= i < |crates| && crates[i].name == name
  {
    hide ByName;
    if crates != [] {
      var init, n := crates[..|crates| - 1], |crates| - 1;
      ByNameHolds(init, name, k);
      ByNameSnoc(crates);
      if crates[n].name != name && LastNamed(crates, name, k) {
        assert LastNamed(init, name, k);
      }
    } else {
      NoNames();
    }
  }

  lemma NoNames()
    ensures ByName([]) == map[]
  {
  }

  lemma ByNameSnoc(crates: seq<Crate>)
    requires crates != []
    ensures ByName(crates) == ByName(crates[..|crates| - 1])[crates[|crates| - 1].name := crates[|crates| - 1]]
  {
  }

  predicate DependsOn(listed: map<string, Crate>, a: string, b: string)
  {
    a in listed && b in listed && b in listed[a].deps
  }

  predicate IsPath(listed: map<string, Crate>, p: seq<string>)
  {
    p != [] && forall i :: 0 <= i < |p| - 1 ==> DependsOn(listed, p[i], p[i + 1])
  }

  /** `a` is `b` or needs it, directly or through others. */
  ghost predicate Reaches(listed: map<string, Crate>, a: string, b: string)
  {
    exists p :: IsPath(listed, p) && p[0] == a && p[|p| - 1] == b
  }

  lemma ReachesItself(listed: map<string, Crate>, a: string)
    ensures Reaches(listed, a, a)
  {
    assert IsPath(listed, [a]);
  }

  lemma ReachesFurther(listed: map<string, Crate>, a: string, b: string, c: string)
    requires Reaches(listed, a, b) && DependsOn(listed, b, c)
    ensures Reaches(listed, a, c)
  {
    var p :| IsPath(listed, p) && p[0] == a && p[|p| - 1] == b;
    var q := p + [c];
    assert IsPath(listed, q) && q[0] == a && q[|q| - 1] == c;
  }

  function Names(order: seq<Crate>): set<string>
  {
    set i | 0 <= i < |order| :: order[i].name
  }

  lemma NamesSnoc(order: seq<Crate>, c: Crate)
    ensures Names(order + [c]) == Names(order) + {c.name}
  {
    var longer := order + [c];
    assert longer[|order|].name in Names(longer);
    forall n | n in Names(order) ensures n in Names(longer) {
      var i :| 0 <= i < |order| && order[i].name == n;
      assert longer[i].name == n;
    }
  }

  predicate Distinct(order: seq<Crate>)
  {
    forall i, j :: 0 <= i < j < |order| ==> order[i].name != order[j].name
  }

  /** The dependency stands before position `k`. */
  predicate Before(order: seq<Crate>, k: nat, dep: string)
    requires k <= |order|
  {
    exists j :: 0 <= j < k && order[j].name == dep
  }

  /** Every listed dependency stands before its dependent, or the two are on a cycle. */
  ghost predicate OrderedFrom(listed: map<string, Crate>, order: seq<Crate>, from: nat)
  {
    forall k, dep :: from <= k < |order| && dep in order[k].deps && dep in listed ==>
      Before(order, k, dep) || Reaches(listed, dep, order[k].name)
  }

  /** What `Sort` promises. */
  ghost predicate IsSorted(crates: seq<Crate>, order: seq<Crate>)
  {
    && Distinct(order) && Names(order) == ByName(crates).Keys
    && (forall i :: 0 <= i < |order| ==> order[i] == ByName(crates)[order[i].name])
    && OrderedFrom(ByName(crates), order, 0)
  }

  class Sorter {
    const crates: seq<Crate>
    const listed: map<string, Crate>
    var visited: set<string>
    var result: seq<Crate>

    constructor (crates: seq<Crate>)
      ensures this.crates == crates && listed == ByName(crates) && visited == {} && result == []
    {
      this.crates, listed, visited, result := crates, ByName(crates), {}, [];
    }

    /** `open` are the crates whose dependencies are being visited. */
    ghost predicate Valid(open: set<string>)
      reads this
    {
      && visited <= listed.Keys
      && visited == Names(result) + open && Names(result) !! open
      && Distinct(result)
      && OrderedFrom(listed, result, 0)
      && forall i :: 0 <= i < |result| ==> result[i].name in listed && result[i] == listed[result[i].name]
    }

    /** `visit`. */
    method Visit(name: string, ghost open: set<string>)
      requires Valid(open) && (forall s :: s in open ==> Reaches(listed, s, name))
      requires forall n :: n in listed ==> listed[n].name == n
      modifies this`visited, this`result
      ensures Valid(open) && old(visited) <= visited && old(result) <= result
      ensures name in listed ==> name in visited
      decreases listed.Keys - visited
    {
      if name in visited || name !in listed {
        return;
      }
      visited := visited + {name};
      ReachesItself(listed, name);
      var deps := listed[name].deps;
      for i := 0 to |deps|
        invariant Valid(open + {name}) && old(visited) + {name} <= visited && old(result) <= result
        invariant name !in open
        invariant forall k :: 0 <= k < i && deps[k] in listed ==> deps[k] in visited
      {
        if deps[i] in listed {
          forall s | s in open + {name} ensures Reaches(listed, s, deps[i]) {
            ReachesFurther(listed, s, name, deps[i]);
          }
          Visit(deps[i], open + {name});
        }
      }
      OrderGrows(listed, result, listed[name], open);
      NamesSnoc(result, listed[name]);
      result := result + [listed[name]];
      assert Valid(open);
    }

    /** `topological_sort`: visits every crate in the order listed. */
    method Sort() returns (order: seq<Crate>)
      requires listed == ByName(crates) && visited == {} && result == []
      modifies this`visited, this`result
      ensures IsSorted(crates, order)
    {
      hide OrderedFrom, ByName;
      NothingOrdered(listed);
      for i := 0 to |crates|
        invariant Valid({})
        invariant forall k :: 0 <= k < i ==> crates[k].name in visited
      {
        Visit(crates[i].name, {});
      }
      order := result;
      AllVisited(crates, visited);
    }
  }

  lemma NothingOrdered(listed: map<string, Crate>)
    ensures OrderedFrom(listed, [], 0)
  {
  }

  lemma AllVisited(crates: seq<Crate>, visited: set<string>)
    requires visited <= ByName(crates).Keys && forall k :: 0 <= k < |crates| ==> crates[k].name in visited
    ensures visited == ByName(crates).Keys
  {
    AllListed(crates);
  }

  lemma {:induction false} AllListed(crates: seq<Crate>)
    ensures forall name :: name in ByName(crates) ==> exists k :: 0 <= k < |crates| && crates[k].name == name
  {
    if crates != [] {
      var n := |crates| - 1;
      AllListed(crates[..n]);
      forall name | name in ByName(crates) ensures exists k :: 0 <= k < |crates| && crates[k].name == name {
        if name == crates[n].name {
          assert crates[n].name == name;
        } else {
          var k :| 0 <= k < n && crates[..n][k].name == name;
          assert crates[k].name == name;
        }
      }
    }
  }

  /** A crate may be added once every dependency is there or is one of the crates it is needed for. */
  lemma {:induction false} OrderGrows(listed: map<string, Crate>, order: seq<Crate>, crate: Crate, open: set<string>)
    requires OrderedFrom(listed, order, 0)
    requires forall s :: s in open + {crate.name} ==> Reaches(listed, s, crate.name)
    requires forall k :: 0 <= k < |crate.deps| && crate.deps[k] in listed ==>
               crate.deps[k] in Names(order) + open + {crate.name}
    ensures OrderedFrom(listed, order + [crate], 0)
  {
    var longer := order + [crate];
    forall k, dep | 0 <= k < |longer| && dep in longer[k].deps && dep in listed
      ensures Before(longer, k, dep) || Reaches(listed, dep, longer[k].name)
    {
      if k < |order| {
        if Before(order, k, dep) {
          var j :| 0 <= j < k && order[j].name == dep;
          assert longer[j].name == dep;
        }
      } else if dep in Names(order) {
        var j :| 0 <= j < |order| && order[j].name == dep;
        assert longer[j].name == dep;
      }
    }
  }

  // ---------------------------------------------------------------------------------------------
  // Main results
  // ---------------------------------------------------------------------------------------------

  /** No crate needs itself, not even through others. */
  ghost predicate Acyclic(listed: map<string, Crate>)
  {
    forall a, b :: DependsOn(listed, a, b) ==> !Reaches(listed, b, a)
  }

  /** Every listed dependency stands before its dependents. */
  predicate Topological(listed: map<string, Crate>, order: seq<Crate>)
  {
    forall k :: 0 <= k < |order| ==>
      forall d :: 0 <= d < |order[k].deps| && order[k].deps[d] in listed ==> Before(order, k, order[k].deps[d])
  }

  /** Every dependency comes first if and only if no crate needs itself, directly or through others. */
  lemma {:induction false} TopologicalIffAcyclic(crates: seq<Crate>, order: seq<Crate>)
    requires IsSorted(crates, order)
    ensures Topological(ByName(crates), order) <==> Acyclic(ByName(crates))
  {
    if Acyclic(ByName(crates)) {
      AcyclicIsTopological(crates, order);
    }
    if Topological(ByName(crates), order) {
      TopologicalIsAcyclic(crates, order);
    }
  }

  lemma AcyclicIsTopological(crates: seq<Crate>, order: seq<Crate>)
    requires IsSorted(crates, order) && Acyclic(ByName(crates))
    ensures Topological(ByName(crates), order)
  {
    var listed := ByName(crates);
    forall k, d | 0 <= k < |order| && 0 <= d < |order[k].deps| && order[k].deps[d] in listed
      ensures Before(order, k, order[k].deps[d])
    {
      assert order[k].name in Names(order);
      assert DependsOn(listed, order[k].name, order[k].deps[d]);
    }
  }

  lemma PathPrepended(listed: map<string, Crate>, a: string, p: seq<string>)
    requires IsPath(listed, p) && DependsOn(listed, a, p[0])
    ensures IsPath(listed, [a] + p)
  {
    hide DependsOn;
    var longer := [a] + p;
    assert forall i :: 0 < i < |longer| ==> longer[i] == p[i - 1];
  }

  lemma TopologicalIsAcyclic(crates: seq<Crate>, order: seq<Crate>)
    requires IsSorted(crates, order) && Topological(ByName(crates), order)
    ensures Acyclic(ByName(crates))
  {
    hide IsSorted, Topological, DependsOn, ByName;
    var listed := ByName(crates);
    forall a, b | DependsOn(listed, a, b) ensures !Reaches(listed, b, a) {
      if Reaches(listed, b, a) {
        var p :| IsPath(listed, p) && p[0] == b && p[|p| - 1] == a;
        PathPrepended(listed, a, p);
        PathGoesBack(crates, order, [a] + p, 0, |p|);
      }
    }
  }

  /** Along a path, a topological order only goes towards its beginning. */
  lemma {:induction false} PathGoesBack(crates: seq<Crate>, order: seq<Crate>, p: seq<string>, i: nat, j: nat)
    requires IsSorted(crates, order) && Topological(ByName(crates), order)
    requires IsPath(ByName(crates), p) && i < j < |p|
    ensures p[i] != p[j]
    ensures forall x, y :: 0 <= x < |order| && 0 <= y < |order| && order[x].name == p[i] && order[y].name == p[j] ==> y < x
  {
    var listed := ByName(crates);
    assert DependsOn(listed, p[j - 1], p[j]);
    assert p[j] in Names(order);
    forall x, y | 0 <= x < |order| && 0 <= y < |order| && order[x].name == p[j - 1] && order[y].name == p[j]
      ensures y < x
    {
      var d :| 0 <= d < |order[x].deps| && order[x].deps[d] == p[j];
      assert Before(order, x, order[x].deps[d]);
    }
    assert p[j - 1] in Names(order);
    if i < j - 1 {
      PathGoesBack(crates, order, p, i, j - 1);
    }
  }

  /** With distinct names every crate is published exactly once, cycles or not. */
  lemma {:induction false} EachCrateOnce(crates: seq<Crate>, order: seq<Crate>)
    requires IsSorted(crates, order) && Distinct(crates)
    ensures multiset(order) == multiset(crates)
  {
    NamedOnce(crates);
    forall c ensures c in order <==> c in crates {
      if c in crates {
        assert c.name in Names(order);
        var i :| 0 <= i < |order| && order[i].name == c.name;
      }
    }
    SameMembers(order, crates);
  }

  lemma {:induction false} NamedOnce(crates: seq<Crate>)
    requires Distinct(crates)
    ensures forall c :: c in crates ==> ByName(crates)[c.name] == c
  {
    if crates != [] {
      NamedOnce(crates[..|crates| - 1]);
    }
  }

  lemma {:induction false} SameMembers(a: seq<Crate>, b: seq<Crate>)
    requires Distinct(a) && Distinct(b) && forall c :: c in a <==> c in b
    ensures multiset(a) == multiset(b)
  {
    forall c ensures multiset(a)[c] == multiset(b)[c] {
      CountedOnce(a, c);
      CountedOnce(b, c);
    }
  }

  lemma {:induction false} CountedOnce(a: seq<Crate>, c: Crate)
    requires Distinct(a)
    ensures multiset(a)[c] == if c in a then 1 else 0
  {
    if a != [] {
      var n := |a| - 1;
      CountedOnce(a[..n], c);
      assert a == a[..n] + [a[n]];
    }
  }
}
