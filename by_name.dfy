/**
 * `sort_by(|a, b| a.name.cmp(&b.name))` followed by
 * `dedup_by(|a, b| a.name.eq(&b.name))` on a vector of packages, as both
 * config.rs and show.rs apply them to the packages they collect.
 */
module ByName {
  import opened Workspace
  import opened LexOrder

  function Names(ps: seq<Package>): (ns: seq<string>)
    ensures |ns| == |ps|
    ensures forall i :: 0 <= i < |ps| ==> ns[i] == ps[i].name
  {
    if ps == [] then [] else [ps[0].name] + Names(ps[1..])
  }

  function NameSet(ps: seq<Package>): set<string>
  {
    set p | p in ps :: p.name
  }

  predicate Sorted(ps: seq<Package>)
  {
    forall i, j :: 0 <= i < j < |ps| ==> !Less(ps[j].name, ps[i].name)
  }

  predicate StrictlySorted(ps: seq<Package>)
  {
    forall i, j :: 0 <= i < j < |ps| ==> Less(ps[i].name, ps[j].name)
  }

  /** Places `x` before the first element whose name is not below its own (so the sort is stable). */
  function Insert(x: Package, s: seq<Package>): seq<Package>
  {
    if s == [] then [x]
    else if !Less(s[0].name, x.name) then [x] + s
    else [s[0]] + Insert(x, s[1..])
  }

  /** A stable sort by name. */
  function SortByName(s: seq<Package>): seq<Package>
  {
    if s == [] then [] else Insert(s[0], SortByName(s[1..]))
  }

  /** Drops every element whose name equals that of the element kept just before it. */
  function DedupByName(s: seq<Package>): seq<Package>
    decreases |s|
  {
    if |s| <= 1 then s
    else if s[1].name == s[0].name then DedupByName([s[0]] + s[2..])
    else [s[0]] + DedupByName(s[1..])
  }

  lemma NameSetCons(h: Package, t: seq<Package>)
    ensures NameSet([h] + t) == {h.name} + NameSet(t)
  {
    var s := [h] + t;
    forall n | n in NameSet(s)
      ensures n in {h.name} + NameSet(t)
    {
      var p :| p in s && p.name == n;
      if p != h { assert p in t; }
    }
  }

  lemma SortedCons(h: Package, t: seq<Package>)
    requires Sorted(t)
    requires forall y :: y in t ==> !Less(y.name, h.name)
    ensures Sorted([h] + t)
  {
    var s := [h] + t;
    forall i, j | 0 <= i < j < |s|
      ensures !Less(s[j].name, s[i].name)
    {
      if i == 0 {
        assert s[j] in t;
      }
    }
  }

  lemma StrictlySortedCons(h: Package, t: seq<Package>)
    requires StrictlySorted(t)
    requires forall y :: y in t ==> Less(h.name, y.name)
    ensures StrictlySorted([h] + t)
  {
    var s := [h] + t;
    forall i, j | 0 <= i < j < |s|
      ensures Less(s[i].name, s[j].name)
    {
      if i == 0 {
        assert s[j] in t;
      }
    }
  }

  lemma {:induction false} InsertSorted(x: Package, s: seq<Package>)
    requires Sorted(s)
    ensures Sorted(Insert(x, s))
    ensures multiset(Insert(x, s)) == multiset(s) + multiset{x}
  {
    if s == [] {
    } else if !Less(s[0].name, x.name) {
      forall y | y in s
        ensures !Less(y.name, x.name)
      {
        if y != s[0] {
          var k :| 0 <= k < |s| && s[k] == y;
          NotAfterTransitive(x.name, s[0].name, y.name);
        }
      }
      SortedCons(x, s);
    } else {
      var t := s[1..];
      assert Sorted(t);
      InsertSorted(x, t);
      forall y | y in Insert(x, t)
        ensures !Less(y.name, s[0].name)
      {
        assert y in multiset(Insert(x, t));
        if y == x {
          Asymmetric(s[0].name, x.name);
        } else {
          assert y in t;
        }
      }
      SortedCons(s[0], Insert(x, t));
      assert s == [s[0]] + t;
    }
  }

  /** Sorting yields a sorted permutation of its input. */
  lemma {:induction false} SortSorted(s: seq<Package>)
    ensures Sorted(SortByName(s))
    ensures multiset(SortByName(s)) == multiset(s)
  {
    if s != [] {
      SortSorted(s[1..]);
      InsertSorted(s[0], SortByName(s[1..]));
      assert s == [s[0]] + s[1..];
    }
  }

  lemma {:induction false} DedupFirst(s: seq<Package>)
    requires s != []
    ensures DedupByName(s) != [] && DedupByName(s)[0] == s[0]
    decreases |s|
  {
    if |s| > 1 && s[1].name == s[0].name {
      DedupFirst([s[0]] + s[2..]);
    }
  }

  /** Deduplication only drops elements. */
  lemma {:induction false} DedupSubset(s: seq<Package>)
    ensures forall y :: y in DedupByName(s) ==> y in s
    decreases |s|
  {
    if |s| > 1 {
      if s[1].name == s[0].name {
        DedupSubset([s[0]] + s[2..]);
      } else {
        DedupSubset(s[1..]);
      }
    }
  }

  /** Deduplication keeps every name. */
  lemma {:induction false} DedupNames(s: seq<Package>)
    ensures NameSet(DedupByName(s)) == NameSet(s)
    decreases |s|
  {
    if |s| > 1 {
      if s[1].name == s[0].name {
        var t := [s[0]] + s[2..];
        DedupNames(t);
        assert NameSet(s) == NameSet(t) by {
          assert s == [s[0], s[1]] + s[2..];
        }
      } else {
        DedupNames(s[1..]);
        assert s == [s[0]] + s[1..];
        NameSetCons(s[0], s[1..]);
        NameSetCons(s[0], DedupByName(s[1..]));
      }
    }
  }

  /** On a sorted input, deduplication leaves the names strictly increasing. */
  lemma {:induction false} DedupStrict(s: seq<Package>)
    requires Sorted(s)
    ensures StrictlySorted(DedupByName(s))
    decreases |s|
  {
    if |s| > 1 {
      if s[1].name == s[0].name {
        var t := [s[0]] + s[2..];
        assert Sorted(t) by {
          forall i, j | 0 <= i < j < |t|
            ensures !Less(t[j].name, t[i].name)
          {
            assert t[j] == s[j + 1];
            if i == 0 { assert t[i] == s[0]; } else { assert t[i] == s[i + 1]; }
          }
        }
        DedupStrict(t);
      } else {
        var d := DedupByName(s[1..]);
        DedupStrict(s[1..]);
        DedupSubset(s[1..]);
        Trichotomy(s[0].name, s[1].name);
        assert Less(s[0].name, s[1].name);
        forall y | y in d
          ensures Less(s[0].name, y.name)
        {
          var k :| 1 <= k < |s| && s[k] == y;
          if k > 1 {
            Trichotomy(s[1].name, y.name);
            if Less(s[1].name, y.name) {
              Transitive(s[0].name, s[1].name, y.name);
            }
          }
        }
        StrictlySortedCons(s[0], d);
      }
    }
  }

  /** Strictly increasing names are pairwise distinct. */
  lemma StrictlySortedDistinct(s: seq<Package>, i: int, j: int)
    requires StrictlySorted(s)
    requires 0 <= i < |s| && 0 <= j < |s| && i != j
    ensures s[i].name != s[j].name
  {
    if i < j {
      Irreflexive(s[i].name);
    } else {
      Irreflexive(s[j].name);
    }
  }
}
