/** Taking the executor's own history table, and everything below it, out of an inspected schema. */
module Bookkeeping {

  const BOOKKEEPING_TABLE := "autosql_migration_history"

  datatype Kind = Table | OtherKind(text: string)

  /** `parent` is the identifier of the containing resource, empty at the top. */
  datatype Resource = Resource(id: string, kind: Kind, name: string, parent: string)

  predicate IsHistory(r: Resource) { r.kind.Table? && r.name == BOOKKEEPING_TABLE }

  /** Each resource is the child of the next, and the last one is the history table. */
  ghost predicate Chain(doc: seq<Resource>, chain: seq<Resource>) {
    && chain != [] && (forall i | 0 <= i < |chain| :: chain[i] in doc)
    && (forall i | 0 <= i < |chain| - 1 :: chain[i].parent != "" && chain[i].parent == chain[i + 1].id)
    && IsHistory(chain[|chain| - 1])
  }

  /** A parent chain starting at this identifier reaches the history table. */
  ghost predicate Reaches(doc: seq<Resource>, id: string) {
    exists chain: seq<Resource> :: Chain(doc, chain) && chain[0].id == id
  }

  /** The document without some identifiers, in order. */
  function Without(doc: seq<Resource>, gone: set<string>): (kept: seq<Resource>)
    ensures forall r :: r in kept <==> r in doc && r.id !in gone
  {
    if doc == [] then []
    else
      var last := doc[|doc| - 1];
      assert doc == doc[..|doc| - 1] + [last];
      Without(doc[..|doc| - 1], gone) + if last.id in gone then [] else [last]
  }

  ghost function Bookkept(doc: seq<Resource>): (gone: set<string>)
    ensures forall id :: id in gone <==> Reaches(doc, id)
  {
    var gone := set r | r in doc && Reaches(doc, r.id) :: r.id;
    assert forall id | Reaches(doc, id) :: id in gone by {
      forall id | Reaches(doc, id)
        ensures id in gone
      {
        var chain: seq<Resource> :| Chain(doc, chain) && chain[0].id == id;
        assert chain[0] in doc;
      }
    }
    gone
  }

  /** What is left: in order, the resources no parent chain of which reaches the history table. */
  ghost function Kept(doc: seq<Resource>): (kept: seq<Resource>)
    ensures forall r :: r in kept <==> r in doc && !Reaches(doc, r.id)
  {
    Without(doc, Bookkept(doc))
  }

  // ---------- the closure ----------

  predicate Removable(r: Resource, removed: set<string>) {
    IsHistory(r) || (r.parent != "" && r.parent in removed)
  }

  lemma RemovableReaches(doc: seq<Resource>, r: Resource, removed: set<string>)
    requires r in doc && Removable(r, removed) && forall id | id in removed :: Reaches(doc, id)
    ensures Reaches(doc, r.id)
  {
    if IsHistory(r) {
      assert Chain(doc, [r]);
    } else {
      var chain: seq<Resource> :| Chain(doc, chain) && chain[0].id == r.parent;
      assert Chain(doc, [r] + chain);
    }
  }

  /** A set nothing can be added to holds everything that reaches the history table. */
  lemma {:induction false} ClosedHoldsChains(doc: seq<Resource>, removed: set<string>, chain: seq<Resource>)
    requires Chain(doc, chain) && forall r | r in doc && Removable(r, removed) :: r.id in removed
    ensures chain[0].id in removed
    decreases |chain|
  {
    if |chain| > 1 {
      var rest := chain[1..];
      assert forall i | 0 <= i < |rest| :: rest[i] == chain[i + 1];
      ClosedHoldsChains(doc, removed, rest);
    }
    assert Removable(chain[0], removed);
  }

  lemma ClosedIsBookkept(doc: seq<Resource>, removed: set<string>)
    requires forall id | id in removed :: Reaches(doc, id)
    requires forall r | r in doc && Removable(r, removed) :: r.id in removed
    ensures removed == Bookkept(doc)
  {
    forall id | Reaches(doc, id)
      ensures id in removed
    {
      var chain: seq<Resource> :| Chain(doc, chain) && chain[0].id == id;
      ClosedHoldsChains(doc, removed, chain);
    }
  }

  function Ids(doc: seq<Resource>): set<string> { set r | r in doc :: r.id }

  method ExcludeBookkeeping(doc: seq<Resource>) returns (kept: seq<Resource>)
    ensures kept == Kept(doc)
  {
    hide Reaches;
    var removed: set<string> := {};
    var progress := true;
    while progress
      invariant removed <= Ids(doc) && forall id | id in removed :: Reaches(doc, id)
      invariant !progress ==> forall r | r in doc && Removable(r, removed) :: r.id in removed
      decreases Ids(doc) - removed, progress
    {
      ghost var before := removed;
      progress := false;
      for i := 0 to |doc|
        invariant before <= removed <= Ids(doc) && forall id | id in removed :: Reaches(doc, id)
        invariant progress <==> before != removed
        invariant !progress ==> forall k | 0 <= k < i && Removable(doc[k], removed) :: doc[k].id in removed
      {
        var r := doc[i];
        if r.id in removed {
          continue;
        }
        if Removable(r, removed) {
          RemovableReaches(doc, r, removed);
          removed := removed + {r.id};
          progress := true;
        }
      }
    }
    ClosedIsBookkept(doc, removed);
    if removed == {} {
      WithoutNothing(doc);
      return doc;
    }
    kept := [];
    for i := 0 to |doc|
      invariant kept == Without(doc[..i], removed)
    {
      assert doc[..i + 1][..i] == doc[..i];
      if doc[i].id !in removed {
        kept := kept + [doc[i]];
      }
    }
    assert doc[..|doc|] == doc;
  }

  lemma {:induction false} WithoutNothing(doc: seq<Resource>)
    ensures Without(doc, {}) == doc
  {
    if doc != [] {
      var most, last := doc[..|doc| - 1], doc[|doc| - 1];
      WithoutNothing(most);
      calc {
        Without(doc, {});
        Without(most, {}) + [last];
        most + [last];
        doc;
      }
    }
  }

  // ---------- what the exclusion means ----------

  lemma ChainElsewhere(doc: seq<Resource>, other: seq<Resource>, id: string)
    requires Reaches(doc, id) && forall r | r in doc :: r in other
    ensures Reaches(other, id)
  {
    var chain: seq<Resource> :| Chain(doc, chain) && chain[0].id == id;
    assert Chain(other, chain);
  }

  /** Excluding twice is excluding once. */
  lemma ExclusionIsIdempotent(doc: seq<Resource>)
    ensures Kept(Kept(doc)) == Kept(doc)
  {
    var kept := Kept(doc);
    forall id
      ensures !Reaches(kept, id)
    {
      if Reaches(kept, id) {
        ChainElsewhere(kept, doc, id);
      }
    }
    assert Bookkept(kept) == {};
    WithoutNothing(kept);
  }

  lemma {:induction false} WithoutCounts(doc: seq<Resource>, gone: set<string>, r: Resource)
    ensures multiset(Without(doc, gone))[r] == if r.id in gone then 0 else multiset(doc)[r]
  {
    if doc != [] {
      var last := |doc| - 1;
      WithoutCounts(doc[..last], gone, r);
      assert doc == doc[..last] + [doc[last]];
    }
  }

  /** Another order of the resources keeps the same resources. */
  lemma ExclusionIgnoresOrder(doc: seq<Resource>, other: seq<Resource>)
    requires multiset(doc) == multiset(other)
    ensures multiset(Kept(doc)) == multiset(Kept(other))
  {
    forall r
      ensures r in doc <==> r in other
    {
      assert r in multiset(doc) <==> r in multiset(other);
    }
    forall id
      ensures Reaches(doc, id) <==> Reaches(other, id)
    {
      if Reaches(doc, id) {
        ChainElsewhere(doc, other, id);
      }
      if Reaches(other, id) {
        ChainElsewhere(other, doc, id);
      }
    }
    assert Bookkept(doc) == Bookkept(other);
    forall r
      ensures multiset(Kept(doc))[r] == multiset(Kept(other))[r]
    {
      WithoutCounts(doc, Bookkept(doc), r);
      WithoutCounts(other, Bookkept(doc), r);
    }
  }

  /** No history table in it and nothing that hangs below these identifiers. */
  ghost predicate CleanOf(rest: seq<Resource>, below: set<string>) {
    forall r | r in rest :: !IsHistory(r) && (r.parent != "" ==> r.parent !in below)
  }

  lemma {:induction false} CleanStaysOut(doc: seq<Resource>, below: set<string>, chain: seq<Resource>)
    requires CleanOf(Without(doc, below), below) && Chain(doc, chain)
    ensures chain[0].id in below
    decreases |chain|
  {
    if chain[0].id !in below {
      assert chain[0] in Without(doc, below);
      if |chain| > 1 {
        var rest := chain[1..];
        assert forall i | 0 <= i < |rest| :: rest[i] == chain[i + 1];
        CleanStaysOut(doc, below, rest);
      }
    }
  }

  /** A history table with its descendants, added anywhere to a clean document, is invisible. */
  lemma AddedHistoryIsInvisible(doc: seq<Resource>, below: set<string>)
    requires CleanOf(Without(doc, below), below)
    requires forall id | id in below :: Reaches(doc, id)
    ensures Kept(doc) == Without(doc, below)
  {
    forall id | Reaches(doc, id)
      ensures id in below
    {
      var chain: seq<Resource> :| Chain(doc, chain) && chain[0].id == id;
      CleanStaysOut(doc, below, chain);
    }
    assert Bookkept(doc) == below;
  }
}
