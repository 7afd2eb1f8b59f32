/**
 * Candidate resolution of config.rs: the workspace packages that can be
 * shown, i.e. libraries (every target a lib), other than the runner itself,
 * with a normal dependency on `rapp`; sorted by name, one per name.
 */
module Discovery {
  import opened Workspace
  import opened LexOrder
  import opened ByName

  const RapLibrary := "rapp"
  const RunnerName := "runner"

  predicate AllLib(p: Package)
  {
    forall t :: t in p.targets ==> t.isLib
  }

  predicate DependsOnRapp(p: Package)
  {
    exists d :: d in p.dependencies && d.name == RapLibrary && d.kind == Normal
  }

  predicate Qualifies(p: Package)
  {
    AllLib(p) && p.name != RunnerName && DependsOnRapp(p)
  }

  /** The packages one pass of the inner loop pushes, in order. */
  function Qualifying(ps: seq<Package>): seq<Package>
  {
    if ps == [] then []
    else Qualifying(ps[..|ps| - 1]) + (if Qualifies(ps[|ps| - 1]) then [ps[|ps| - 1]] else [])
  }

  function Repeat(q: seq<Package>, n: nat): seq<Package>
  {
    if n == 0 then [] else Repeat(q, n - 1) + q
  }

  /** What the nested loop pushes: one pass over the packages per workspace member. */
  function Collected(meta: Metadata): seq<Package>
  {
    Repeat(Qualifying(meta.packages), |meta.workspaceMembers|)
  }

  function Candidates(meta: Metadata): seq<Package>
  {
    DedupByName(SortByName(Collected(meta)))
  }

  /** `rapp_candidates`. */
  method RappCandidates(meta: Metadata) returns (r: seq<Package>)
    ensures r == Candidates(meta)
  {
    var found: seq<Package> := [];
    for i := 0 to |meta.workspaceMembers|
      invariant found == Repeat(Qualifying(meta.packages), i)
    {
      for j := 0 to |meta.packages|
        invariant found == Repeat(Qualifying(meta.packages), i) + Qualifying(meta.packages[..j])
      {
        var package := meta.packages[j];
        assert meta.packages[..j + 1][..j] == meta.packages[..j];
        if exists t :: t in package.targets && !t.isLib {
          // not a lib
          continue;
        }
        if package.name == RunnerName {
          continue;
        }
        if exists d :: d in package.dependencies && d.name == RapLibrary && d.kind == Normal {
          found := found + [package];
        }
      }
      assert meta.packages[..|meta.packages|] == meta.packages;
    }
    found := SortByName(found);
    found := DedupByName(found);
    r := found;
  }

  lemma {:induction false} QualifyingMembers(ps: seq<Package>)
    ensures forall x :: x in Qualifying(ps) <==> x in ps && Qualifies(x)
  {
    if ps != [] {
      var init := ps[..|ps| - 1];
      QualifyingMembers(init);
      assert ps == init + [ps[|ps| - 1]];
    }
  }

  lemma {:induction false} RepeatMembers(q: seq<Package>, n: nat)
    ensures forall x :: x in Repeat(q, n) <==> n > 0 && x in q
  {
    if n > 0 {
      RepeatMembers(q, n - 1);
    }
  }

  lemma CollectedMembers(meta: Metadata)
    ensures forall x :: x in Collected(meta) <==>
      |meta.workspaceMembers| > 0 && x in meta.packages && Qualifies(x)
  {
    QualifyingMembers(meta.packages);
    RepeatMembers(Qualifying(meta.packages), |meta.workspaceMembers|);
  }

  /** The resolved list holds exactly the elements of the collected one, up to duplicates. */
  lemma CandidateMembers(meta: Metadata)
    ensures forall c :: c in Candidates(meta) ==> c in Collected(meta)
    ensures NameSet(Candidates(meta)) == NameSet(Collected(meta))
  {
    var sorted := SortByName(Collected(meta));
    SortSorted(Collected(meta));
    DedupSubset(sorted);
    DedupNames(sorted);
    forall c | c in sorted
      ensures c in Collected(meta)
    {
      assert c in multiset(sorted);
    }
    assert NameSet(sorted) == NameSet(Collected(meta)) by {
      forall c
        ensures c in sorted <==> c in Collected(meta)
      {
        assert c in sorted <==> c in multiset(sorted);
      }
    }
  }

  /** Every candidate is a workspace package, all of whose targets are libs, not named `runner`, with a normal dependency on `rapp`. */
  lemma CandidatesQualify(meta: Metadata, c: Package)
    requires c in Candidates(meta)
    ensures c in meta.packages
    ensures forall t :: t in c.targets ==> t.isLib
    ensures c.name != "runner"
    ensures exists d :: d in c.dependencies && d.name == "rapp" && d.kind == Normal
  {
    CandidateMembers(meta);
    CollectedMembers(meta);
  }

  /** The candidates are sorted by name and no two of them share a name. */
  lemma CandidatesSortedUnique(meta: Metadata)
    ensures forall i, j :: 0 <= i < j < |Candidates(meta)| ==>
      Less(Candidates(meta)[i].name, Candidates(meta)[j].name)
    ensures forall i, j :: 0 <= i < |Candidates(meta)| && 0 <= j < |Candidates(meta)| && i != j ==>
      Candidates(meta)[i].name != Candidates(meta)[j].name
  {
    var c := Candidates(meta);
    SortSorted(Collected(meta));
    DedupStrict(SortByName(Collected(meta)));
    forall i, j | 0 <= i < |c| && 0 <= j < |c| && i != j
      ensures c[i].name != c[j].name
    {
      StrictlySortedDistinct(c, i, j);
    }
  }

  /**
   * The names of the candidates are exactly the names of the qualifying
   * packages, or none when the workspace has no members.
   */
  lemma CandidateNames(meta: Metadata)
    ensures NameSet(Candidates(meta)) ==
      if meta.workspaceMembers == [] then {}
      else set p | p in meta.packages && Qualifies(p) :: p.name
  {
    CandidateMembers(meta);
    CollectedMembers(meta);
  }

  /** With no workspace members there is nothing to show. */
  lemma NoMembersNoCandidates(meta: Metadata)
    requires meta.workspaceMembers == []
    ensures Candidates(meta) == []
  {
    assert Collected(meta) == [];
  }

  /** Zero candidates exactly when there are no members or no package qualifies. */
  lemma NoCandidateWhen(meta: Metadata)
    ensures Candidates(meta) == [] <==>
      meta.workspaceMembers == [] || forall p :: p in meta.packages ==> !Qualifies(p)
  {
    CandidateNames(meta);
    var c := Candidates(meta);
    if c != [] {
      assert c[0].name in NameSet(c);
    }
    if meta.workspaceMembers != [] && exists p :: p in meta.packages && Qualifies(p) {
      var p :| p in meta.packages && Qualifies(p);
      assert p.name in NameSet(c);
    }
  }

  /** Two candidates are two qualifying packages with different names. */
  lemma AmbiguousHasTwo(meta: Metadata)
    requires |Candidates(meta)| >= 2
    ensures exists p, q ::
      p in meta.packages && q in meta.packages && Qualifies(p) && Qualifies(q) && p.name != q.name
  {
    var c := Candidates(meta);
    CandidatesSortedUnique(meta);
    assert c[0].name != c[1].name;
    CandidatesQualify(meta, c[0]);
    CandidatesQualify(meta, c[1]);
    assert Qualifies(c[0]) && Qualifies(c[1]);
  }

  /** Two qualifying packages with different names give two candidates. */
  lemma TwoGiveAmbiguous(meta: Metadata, p: Package, q: Package)
    requires meta.workspaceMembers != []
    requires p in meta.packages && q in meta.packages && Qualifies(p) && Qualifies(q) && p.name != q.name
    ensures |Candidates(meta)| >= 2
  {
    var c := Candidates(meta);
    CandidateNames(meta);
    assert p.name in NameSet(c) && q.name in NameSet(c);
    var x :| x in c && x.name == p.name;
    var y :| y in c && y.name == q.name;
    var i :| 0 <= i < |c| && c[i] == x;
    var j :| 0 <= j < |c| && c[j] == y;
    assert i != j;
  }

  /** Two or more candidates exactly when two qualifying packages have different names. */
  lemma AmbiguousWhen(meta: Metadata)
    requires meta.workspaceMembers != []
    ensures |Candidates(meta)| >= 2 <==>
      exists p, q :: p in meta.packages && q in meta.packages &&
        Qualifies(p) && Qualifies(q) && p.name != q.name
  {
    if |Candidates(meta)| >= 2 {
      AmbiguousHasTwo(meta);
    }
    if exists p, q :: p in meta.packages && q in meta.packages &&
        Qualifies(p) && Qualifies(q) && p.name != q.name {
      var p, q :| p in meta.packages && q in meta.packages &&
        Qualifies(p) && Qualifies(q) && p.name != q.name;
      TwoGiveAmbiguous(meta, p, q);
    }
  }

  /** The METADATA_1 and METADATA_2 fixtures each resolve to their one library. */
  lemma FixtureCandidates()
    ensures Candidates(Metadata1) == [Metadata1.packages[0]]
    ensures Candidates(Metadata2) == [Metadata2.packages[0]]
  {
    var m1 := Metadata1.packages;
    assert Qualifies(m1[0]) by {
      assert m1[0].dependencies[0] in m1[0].dependencies;
    }
    assert !Qualifies(m1[1]);
    assert m1[..1] == [m1[0]];
    assert Qualifying(m1) == [m1[0]] by {
      assert Qualifying(m1[..1]) == [m1[0]] by { assert m1[..1][..0] == []; }
    }
    assert |Metadata1.workspaceMembers| == 1;
    assert Repeat([m1[0]], 1) == Repeat([m1[0]], 0) + [m1[0]];
    assert Collected(Metadata1) == [m1[0]];
    assert SortByName([m1[0]]) == [m1[0]];
    var m2 := Metadata2.packages;
    assert Qualifies(m2[0]) by {
      assert m2[0].dependencies[0] in m2[0].dependencies;
    }
    assert !Qualifies(m2[1]);
    assert m2[..1] == [m2[0]];
    assert Qualifying(m2) == [m2[0]] by {
      assert Qualifying(m2[..1]) == [m2[0]] by { assert m2[..1][..0] == []; }
    }
    assert |Metadata2.workspaceMembers| == 1;
    assert Repeat([m2[0]], 1) == Repeat([m2[0]], 0) + [m2[0]];
    assert Collected(Metadata2) == [m2[0]];
    assert SortByName([m2[0]]) == [m2[0]];
  }
}
