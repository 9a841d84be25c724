/** Parent resolution: crates/domain/src/parent.rs. */
module Parent {
  import opened Wrappers
  import opened Sequences
  import opened Model
  import opened Lineage

  datatype Incremental = Yes | Strict | No

  datatype ParentSelection = ParentSelection(parent: Option<Subvolume>, cloneSources: seq<Subvolume>)

  const FULL_SEND := ParentSelection(None, [])

  datatype ParentError = NoStrictParent

  predicate IsCorrelated(a: Subvolume, b: Subvolume) {
    a.readonly && b.readonly
    && (Same(a.uuid, b.receivedUuid) || Same(b.uuid, a.receivedUuid) || Same(a.receivedUuid, b.receivedUuid))
  }

  /** `u` names the subvolume: as its own uuid, or as that of the subvolume it was received from. */
  predicate Names(u: Uuid, s: Subvolume) {
    s.uuid == Some(u) || s.receivedUuid == Some(u)
  }

  /** Two read-only subvolumes hold the same content: one was received from the other, or both from a third. */
  ghost predicate SameContent(a: Subvolume, b: Subvolume) {
    && a.readonly && b.readonly
    && exists u :: Names(u, a) && Names(u, b) && (a.receivedUuid == Some(u) || b.receivedUuid == Some(u))
  }

  /** A copy of `s` is among these subvolumes. */
  ghost predicate HasCopy(s: Subvolume, target: seq<Subvolume>) {
    exists t :: t in target && SameContent(s, t)
  }

  lemma CorrelatedIsSameContent(a: Subvolume, b: Subvolume)
    ensures IsCorrelated(a, b) <==> SameContent(a, b)
  {
    if IsCorrelated(a, b) {
      var u := if Same(a.uuid, b.receivedUuid) then a.uuid.value else a.receivedUuid.value;
      assert Names(u, a) && Names(u, b);
    }
  }

  // ---------------------------------------------------------------------------
  // target_correlates
  // ---------------------------------------------------------------------------

  function CorrelatedWith(a: Subvolume): Subvolume -> bool {
    (t: Subvolume) => IsCorrelated(a, t)
  }

  /** The brute-force answer: scan the whole target. */
  function Correlates(subvol: Subvolume, target: seq<Subvolume>): seq<Subvolume> {
    Filter(target, CorrelatedWith(subvol))
  }

  /** It finds exactly the subvolumes that hold the same content, so none if and only if there is no copy. */
  lemma {:induction false} CorrelatesAreCopies(subvol: Subvolume, target: seq<Subvolume>)
    ensures forall t :: t in Correlates(subvol, target) <==> t in target && SameContent(subvol, t)
    ensures Correlates(subvol, target) != [] <==> HasCopy(subvol, target)
  {
    forall t ensures t in Correlates(subvol, target) <==> t in target && SameContent(subvol, t) {
      CorrelatedIsSameContent(subvol, t);
    }
    if Correlates(subvol, target) != [] {
      assert Correlates(subvol, target)[0] in Correlates(subvol, target);
    }
  }

  predicate IdLe(a: Subvolume, b: Subvolume) { a.id <= b.id }

  predicate Ascending(s: seq<Subvolume>) {
    forall i, j :: 0 <= i < j < |s| ==> s[i].id < s[j].id
  }

  /** `dedup_by_key(id)` on an id-sorted list keeps the first of every run. */
  method DedupById(s: seq<Subvolume>) returns (r: seq<Subvolume>)
    requires Sorted(s, IdLe)
    ensures Ascending(r)
    ensures forall t :: t in r ==> t in s
    ensures forall t :: t in s ==> exists k :: 0 <= k < |r| && r[k].id == t.id
  {
    r := [];
    for i := 0 to |s|
      invariant Ascending(r)
      invariant forall t :: t in r ==> t in s
      invariant r == [] ==> i == 0
      invariant r != [] ==> i > 0 && r[|r| - 1].id == s[i - 1].id
      invariant forall k :: 0 <= k < i ==> exists m :: 0 <= m < |r| && r[m].id == s[k].id
    {
      ghost var before := r;
      if r == [] || r[|r| - 1].id != s[i].id {
        forall k | 0 <= k < |r| ensures r[k].id < s[i].id {
          assert r[|r| - 1].id <= s[i].id;
        }
        r := r + [s[i]];
      }
      assert r[|r| - 1].id == s[i].id;
      forall k | 0 <= k < i ensures exists m :: 0 <= m < |r| && r[m].id == s[k].id {
        var m :| 0 <= m < |before| && before[m].id == s[k].id;
        assert r[m] == before[m];
      }
    }
  }

  lemma IdOrder()
    ensures TotalPreorder(IdLe)
  {
  }

  /** Every correlated target subvolume is found by one of the three index lookups. */
  lemma LookedUp(subvol: Subvolume, target: RelationshipGraph, t: Subvolume)
    requires target.Valid() && t in target.subvols && IsCorrelated(subvol, t)
    ensures || (subvol.uuid.Some? && t in target.ReceivedFrom(subvol.uuid.value))
            || (subvol.receivedUuid.Some? && (target.Get(subvol.receivedUuid.value) == Some(t)
                                              || t in target.ReceivedFrom(subvol.receivedUuid.value)))
  {
    if Same(t.uuid, subvol.receivedUuid) {
      var i :| 0 <= i < |target.subvols| && target.subvols[i] == t;
      assert target.byUuid[t.uuid.value] == i;
    }
  }

  /** The three index lookups. */
  method LookUpCandidates(subvol: Subvolume, target: RelationshipGraph) returns (candidates: seq<Subvolume>)
    requires target.Valid()
    ensures forall t :: t in candidates ==> t in target.subvols
    ensures forall t :: t in Correlates(subvol, target.subvols) ==> t in candidates
  {
    candidates := [];
    if subvol.uuid.Some? {
      candidates := candidates + target.ReceivedFrom(subvol.uuid.value);
    }
    if subvol.receivedUuid.Some? {
      var node := target.Get(subvol.receivedUuid.value);
      if node.Some? {
        candidates := candidates + [node.value];
      }
      candidates := candidates + target.ReceivedFrom(subvol.receivedUuid.value);
    }
    forall t | t in Correlates(subvol, target.subvols) ensures t in candidates {
      LookedUp(subvol, target, t);
    }
  }

  /**
   `target_correlates`: look up, retain, sort and dedup in place. With unique ids the result is the
   brute-force scan, put in id order.
   */
  method TargetCorrelates(subvol: Subvolume, target: RelationshipGraph) returns (r: seq<Subvolume>)
    requires target.Valid()
    ensures Ascending(r)
    ensures forall t :: t in r ==> t in Correlates(subvol, target.subvols)
    ensures forall t :: t in Correlates(subvol, target.subvols) ==> exists k :: 0 <= k < |r| && r[k].id == t.id
    ensures UniqueIds(target.subvols) ==> forall t :: t in Correlates(subvol, target.subvols) ==> t in r
  {
    var candidates := LookUpCandidates(subvol, target);
    var retained := Filter(candidates, CorrelatedWith(subvol));
    var sorted := StableSort(retained, IdLe);
    IdOrder();
    StableSortSorted(retained, IdLe);
    SameElements(sorted, retained);
    assert forall t :: t in retained <==> t in Correlates(subvol, target.subvols);
    r := DedupById(sorted);
    NothingLost(target.subvols, Correlates(subvol, target.subvols), r);
  }

  lemma NothingLost(all: seq<Subvolume>, found: seq<Subvolume>, r: seq<Subvolume>)
    requires forall t :: t in found ==> t in all
    requires forall t :: t in r ==> t in found
    requires forall t :: t in found ==> exists k :: 0 <= k < |r| && r[k].id == t.id
    ensures UniqueIds(all) ==> forall t :: t in found ==> t in r
  {
    if UniqueIds(all) {
      forall t | t in found ensures t in r {
        var k :| 0 <= k < |r| && r[k].id == t.id;
        SameId(all, r[k], t);
      }
    }
  }

  lemma SameId(s: seq<Subvolume>, a: Subvolume, b: Subvolume)
    requires UniqueIds(s) && a in s && b in s && a.id == b.id
    ensures a == b
  {
  }

  // ---------------------------------------------------------------------------
  // best_parent
  // ---------------------------------------------------------------------------

  /** Ordered by generation, then id; `a` is at least as new as `b`. */
  predicate NewestFirst(a: Subvolume, b: Subvolume) {
    a.ReferenceGeneration() > b.ReferenceGeneration()
    || (a.ReferenceGeneration() == b.ReferenceGeneration() && a.id >= b.id)
  }

  lemma NewestFirstOrder()
    ensures TotalPreorder(NewestFirst)
  {
  }

  /** The transaction that made a read-only subvolume, or the last one that changed a writable one. */
  ghost function MadeAt(s: Subvolume): nat {
    if !s.readonly then s.generation else s.cgen
  }

  /** `a` was made after `b`, or in the same transaction with no smaller id. */
  ghost predicate NoOlder(a: Subvolume, b: Subvolume) {
    MadeAt(b) < MadeAt(a) || (MadeAt(b) == MadeAt(a) && b.id <= a.id)
  }

  lemma OrderIsByAge(a: Subvolume, b: Subvolume)
    ensures a.ReferenceGeneration() == MadeAt(a)
    ensures NewestFirst(a, b) <==> NoOlder(a, b)
  {
  }

  lemma SortedByAge(s: seq<Subvolume>)
    requires Sorted(s, NewestFirst)
    ensures Sorted(s, NoOlder)
  {
    forall i, j | 0 <= i < j < |s| ensures NoOlder(s[i], s[j]) {
      OrderIsByAge(s[i], s[j]);
    }
  }

  ghost function RelatedIds(all: seq<Subvolume>, snapshot: Subvolume): set<nat> {
    set s | s in all && IsRelated(all, snapshot, s) :: s.id
  }

  /** What a parent must be: another read-only subvolume of the same filesystem with a copy on the target. */
  function CanBeParent(snapshot: Subvolume, target: seq<Subvolume>, mode: Incremental, relatedIds: set<nat>)
    : Subvolume -> bool
  {
    (s: Subvolume) =>
      && s.id != snapshot.id && s.readonly
      && s.fsUuid == snapshot.fsUuid
      && Correlates(s, target) != []
      && (mode != Strict || s.id in relatedIds)
  }

  ghost function Candidates(snapshot: Subvolume, source: seq<Subvolume>, target: seq<Subvolume>, mode: Incremental)
    : seq<Subvolume>
  {
    Filter(source, CanBeParent(snapshot, target, mode, RelatedIds(source, snapshot)))
  }

  /**
   What may serve a send as its parent or as a clone source: another read-only subvolume of the source, on the
   snapshot's filesystem, with a copy on the target; in strict mode also one that is reported as related.
   */
  ghost predicate MayServe(s: Subvolume, snapshot: Subvolume, source: seq<Subvolume>, target: seq<Subvolume>,
                           mode: Incremental)
  {
    && s in source && s.readonly && s.id != snapshot.id && s.fsUuid == snapshot.fsUuid && HasCopy(s, target)
    && (mode == Strict ==> exists r :: IsRelated(source, snapshot, r) && r.id == s.id)
  }

  /** The filter chain lets through exactly what may serve, as often as the source lists it. */
  lemma {:induction false} CandidatesMayServe(snapshot: Subvolume, source: seq<Subvolume>, target: seq<Subvolume>,
                                              mode: Incremental, s: Subvolume)
    ensures s in Candidates(snapshot, source, target, mode) <==> MayServe(s, snapshot, source, target, mode)
    ensures multiset(Candidates(snapshot, source, target, mode))[s]
      == if MayServe(s, snapshot, source, target, mode) then multiset(source)[s] else 0
  {
    var p := CanBeParent(snapshot, target, mode, RelatedIds(source, snapshot));
    CorrelatesAreCopies(s, target);
    assert s in source ==> (p(s) <==> MayServe(s, snapshot, source, target, mode));
    FilterCounts(source, p, s);
    assert multiset(source)[s] > 0 <==> s in source;
  }

  /** The newest of these that is not newer than `gen`; if all are newer, the oldest of them. */
  ghost predicate IsBest(p: Subvolume, candidates: seq<Subvolume>, gen: nat) {
    && p in candidates
    && if MadeAt(p) <= gen then
         forall c :: c in candidates && MadeAt(c) <= gen ==> NoOlder(p, c)
       else
         forall c :: c in candidates ==> MadeAt(c) > gen && NoOlder(c, p)
  }

  method CollectIds(subvols: seq<Subvolume>) returns (ids: set<nat>)
    ensures forall id :: id in ids <==> exists i :: 0 <= i < |subvols| && subvols[i].id == id
  {
    ids := {};
    for i := 0 to |subvols|
      invariant forall id :: id in ids <==> exists k :: 0 <= k < i && subvols[k].id == id
    {
      ids := ids + {subvols[i].id};
    }
  }

  /** The related ids, needed only in strict mode. */
  method CollectRelated(source: RelationshipGraph, snapshot: Subvolume, mode: Incremental) returns (ids: set<nat>)
    requires source.Valid()
    ensures mode == Strict ==> ids == RelatedIds(source.subvols, snapshot)
  {
    ids := {};
    if mode == Strict {
      var found := Related(source, snapshot);
      ids := CollectIds(found);
      forall id ensures id in ids <==> id in RelatedIds(source.subvols, snapshot) {
        if id in ids {
          var i :| 0 <= i < |found| && found[i].id == id;
          assert IsRelated(source.subvols, snapshot, found[i]);
        }
      }
    }
  }

  /** The filters a source subvolume has to pass. */
  method Qualifies(s: Subvolume, snapshot: Subvolume, target: RelationshipGraph, mode: Incremental,
                   relatedIds: set<nat>)
    returns (ok: bool)
    requires target.Valid()
    ensures ok == CanBeParent(snapshot, target.subvols, mode, relatedIds)(s)
  {
    var copies := TargetCorrelates(s, target);
    CopiesAgree(s, target.subvols, copies);
    ok := s.id != snapshot.id && s.readonly && s.fsUuid == snapshot.fsUuid && copies != []
          && (mode != Strict || s.id in relatedIds);
  }

  method FilterCandidates(snapshot: Subvolume, source: seq<Subvolume>, target: RelationshipGraph, mode: Incremental,
                          relatedIds: set<nat>)
    returns (candidates: seq<Subvolume>)
    requires target.Valid()
    ensures candidates == Filter(source, CanBeParent(snapshot, target.subvols, mode, relatedIds))
  {
    ghost var p := CanBeParent(snapshot, target.subvols, mode, relatedIds);
    candidates := [];
    for i := 0 to |source|
      invariant candidates == Filter(source[..i], p)
    {
      var ok := Qualifies(source[i], snapshot, target, mode, relatedIds);
      FilterTake(source, i, p);
      if ok {
        candidates := candidates + [source[i]];
      }
    }
    assert source[..|source|] == source;
  }

  /** The filter chain over the source, asking the target for copies. */
  method CollectCandidates(snapshot: Subvolume, source: RelationshipGraph, target: RelationshipGraph, mode: Incremental)
    returns (candidates: seq<Subvolume>)
    requires source.Valid() && target.Valid()
    ensures candidates == Candidates(snapshot, source.subvols, target.subvols, mode)
  {
    var relatedIds := CollectRelated(source, snapshot, mode);
    candidates := FilterCandidates(snapshot, source.subvols, target, mode, relatedIds);
    FilterSame(source.subvols, CanBeParent(snapshot, target.subvols, mode, relatedIds),
               CanBeParent(snapshot, target.subvols, mode, RelatedIds(source.subvols, snapshot)));
  }

  lemma CopiesAgree(s: Subvolume, target: seq<Subvolume>, copies: seq<Subvolume>)
    requires forall t :: t in copies ==> t in Correlates(s, target)
    requires forall t :: t in Correlates(s, target) ==> exists k :: 0 <= k < |copies| && copies[k].id == t.id
    ensures copies != [] <==> Correlates(s, target) != []
  {
    if copies != [] {
      assert copies[0] in Correlates(s, target);
    }
    if Correlates(s, target) != [] {
      assert Correlates(s, target)[0] in Correlates(s, target);
    }
  }

  /** The first position that is not newer than `gen`, else the last one. */
  function FirstNotNewer(candidates: seq<Subvolume>, gen: nat): (pos: nat)
    requires candidates != []
    ensures pos < |candidates|
  {
    if |candidates| == 1 || candidates[0].ReferenceGeneration() <= gen then 0
    else 1 + FirstNotNewer(candidates[1..], gen)
  }

  lemma {:induction false} SkipsNewer(candidates: seq<Subvolume>, gen: nat, pos: nat)
    requires pos < |candidates| && forall k :: 0 <= k < pos ==> candidates[k].ReferenceGeneration() > gen
    requires pos == |candidates| - 1 || candidates[pos].ReferenceGeneration() <= gen
    ensures FirstNotNewer(candidates, gen) == pos
  {
    if pos > 0 {
      assert forall k :: 0 <= k < pos - 1 ==> candidates[1..][k] == candidates[k + 1];
      SkipsNewer(candidates[1..], gen, pos - 1);
    }
  }

  lemma {:induction false} FirstNotNewerMeans(candidates: seq<Subvolume>, gen: nat)
    requires candidates != []
    ensures
      var pos := FirstNotNewer(candidates, gen);
      && (forall k :: 0 <= k < pos ==> candidates[k].ReferenceGeneration() > gen)
      && (pos == |candidates| - 1 || candidates[pos].ReferenceGeneration() <= gen)
  {
    if |candidates| > 1 && candidates[0].ReferenceGeneration() > gen {
      FirstNotNewerMeans(candidates[1..], gen);
      assert forall k :: 0 < k < |candidates| ==> candidates[k] == candidates[1..][k - 1];
    }
  }

  lemma {:induction false} BestAgainst(candidates: seq<Subvolume>, gen: nat, pos: nat, c: Subvolume)
    requires Sorted(candidates, NewestFirst) && c in candidates
    requires pos < |candidates| && forall k :: 0 <= k < pos ==> candidates[k].ReferenceGeneration() > gen
    requires pos == |candidates| - 1 || candidates[pos].ReferenceGeneration() <= gen
    ensures MadeAt(candidates[pos]) <= gen && MadeAt(c) <= gen ==> NoOlder(candidates[pos], c)
    ensures MadeAt(candidates[pos]) > gen ==> MadeAt(c) > gen && NoOlder(c, candidates[pos])
  {
    var k :| 0 <= k < |candidates| && candidates[k] == c;
    OrderIsByAge(c, candidates[pos]);
    OrderIsByAge(candidates[pos], c);
    assert k < pos ==> NewestFirst(candidates[k], candidates[pos]);
    assert pos < k ==> NewestFirst(candidates[pos], candidates[k]);
  }

  lemma {:induction false} FirstIsBest(candidates: seq<Subvolume>, gen: nat)
    requires candidates != [] && Sorted(candidates, NewestFirst)
    ensures IsBest(candidates[FirstNotNewer(candidates, gen)], candidates, gen)
  {
    var pos := FirstNotNewer(candidates, gen);
    FirstNotNewerMeans(candidates, gen);
    forall c | c in candidates
      ensures MadeAt(candidates[pos]) <= gen && MadeAt(c) <= gen ==> NoOlder(candidates[pos], c)
      ensures MadeAt(candidates[pos]) > gen ==> MadeAt(c) > gen && NoOlder(c, candidates[pos])
    {
      BestAgainst(candidates, gen, pos, c);
    }
  }

  /** `position(..)` or the last one: in newest-first order this is the best candidate. */
  method ParentPosition(candidates: seq<Subvolume>, gen: nat) returns (pos: nat)
    requires candidates != [] && Sorted(candidates, NewestFirst)
    ensures pos == FirstNotNewer(candidates, gen)
    ensures pos < |candidates| && IsBest(candidates[pos], candidates, gen)
  {
    pos := 0;
    while pos < |candidates| && candidates[pos].ReferenceGeneration() > gen
      invariant pos <= |candidates|
      invariant forall k :: 0 <= k < pos ==> candidates[k].ReferenceGeneration() > gen
    {
      pos := pos + 1;
    }
    if pos == |candidates| {
      pos := |candidates| - 1;
    }
    SkipsNewer(candidates, gen, pos);
    FirstIsBest(candidates, gen);
  }

  /** Sorting changes the order of the candidates, not the answer. */
  lemma BestOfPermutation(p: Subvolume, a: seq<Subvolume>, b: seq<Subvolume>, gen: nat)
    requires IsBest(p, a, gen) && multiset(a) == multiset(b)
    ensures IsBest(p, b, gen)
  {
    SameElements(a, b);
  }

  /** What a selection made from these candidates is: the best one apart, the others newest first. */
  ghost predicate Splits(selection: ParentSelection, candidates: seq<Subvolume>, gen: nat) {
    && selection.parent.Some?
    && IsBest(selection.parent.value, candidates, gen)
    && multiset([selection.parent.value] + selection.cloneSources) == multiset(candidates)
    && Sorted(selection.cloneSources, NoOlder)
  }

  lemma {:induction false} RemoveAt(s: seq<Subvolume>, pos: nat)
    requires pos < |s|
    ensures multiset([s[pos]] + (s[..pos] + s[pos + 1..])) == multiset(s)
    ensures Sorted(s, NewestFirst) ==> Sorted(s[..pos] + s[pos + 1..], NewestFirst)
  {
    assert s == s[..pos] + [s[pos]] + s[pos + 1..];
    var rest := s[..pos] + s[pos + 1..];
    assert forall i :: 0 <= i < |rest| ==> rest[i] == s[if i < pos then i else i + 1];
  }

  /** The selection `best_parent` makes from the candidates it found. */
  function SplitOff(found: seq<Subvolume>, gen: nat): ParentSelection
    requires found != []
  {
    var candidates := StableSort(found, NewestFirst);
    var pos := FirstNotNewer(candidates, gen);
    ParentSelection(Some(candidates[pos]), candidates[..pos] + candidates[pos + 1..])
  }

  lemma {:induction false} SplitSorted(candidates: seq<Subvolume>, found: seq<Subvolume>, gen: nat, pos: nat)
    requires multiset(candidates) == multiset(found) && Sorted(candidates, NewestFirst)
    requires pos < |candidates| && IsBest(candidates[pos], candidates, gen)
    ensures Splits(ParentSelection(Some(candidates[pos]), candidates[..pos] + candidates[pos + 1..]), found, gen)
  {
    BestOfPermutation(candidates[pos], candidates, found, gen);
    RemoveAt(candidates, pos);
    SortedByAge(candidates[..pos] + candidates[pos + 1..]);
  }

  lemma {:induction false} SplitOffSplits(found: seq<Subvolume>, gen: nat)
    requires found != []
    ensures Splits(SplitOff(found, gen), found, gen)
  {
    var candidates := StableSort(found, NewestFirst);
    NewestFirstOrder();
    StableSortSorted(found, NewestFirst);
    FirstIsBest(candidates, gen);
    SplitSorted(candidates, found, gen, FirstNotNewer(candidates, gen));
  }

  /** Sort the candidates and remove the best one from the list. */
  method SplitBest(found: seq<Subvolume>, gen: nat) returns (selection: ParentSelection)
    requires found != []
    ensures selection == SplitOff(found, gen)
  {
    var candidates := StableSort(found, NewestFirst);
    NewestFirstOrder();
    StableSortSorted(found, NewestFirst);
    var pos := ParentPosition(candidates, gen);
    selection := ParentSelection(Some(candidates[pos]), candidates[..pos] + candidates[pos + 1..]);
  }

  /** What `best_parent` answers. */
  ghost function Choice(snapshot: Subvolume, source: seq<Subvolume>, target: seq<Subvolume>, mode: Incremental)
    : Result<ParentSelection, ParentError>
  {
    var candidates := Candidates(snapshot, source, target, mode);
    if mode == No then Ok(FULL_SEND)
    else if candidates == [] then (if mode == Strict then Err(NoStrictParent) else Ok(FULL_SEND))
    else Ok(SplitOff(candidates, snapshot.ReferenceGeneration()))
  }

  /** As the parent of a snapshot of generation `gen`, `p` is at least as good as `c`. */
  ghost predicate Outranks(p: Subvolume, c: Subvolume, gen: nat) {
    if p.cgen <= gen then c.cgen > gen || c.cgen < p.cgen || (c.cgen == p.cgen && c.id <= p.id)
    else c.cgen > p.cgen || (c.cgen == p.cgen && c.id >= p.id)
  }

  /** The parent is the newest that may serve and is not newer than the snapshot, else the oldest that may serve. */
  ghost predicate BestServes(p: Subvolume, snapshot: Subvolume, source: seq<Subvolume>, target: seq<Subvolume>,
                             mode: Incremental)
  {
    var gen := if snapshot.readonly then snapshot.cgen else snapshot.generation;
    && MayServe(p, snapshot, source, target, mode)
    && forall c :: MayServe(c, snapshot, source, target, mode) ==> Outranks(p, c, gen)
  }

  /** The best parent, and everything else that may serve as clone sources, newest first; nothing is left out. */
  ghost predicate WellChosen(selection: ParentSelection, snapshot: Subvolume, source: seq<Subvolume>,
                             target: seq<Subvolume>, mode: Incremental)
  {
    && selection.parent.Some?
    && BestServes(selection.parent.value, snapshot, source, target, mode)
    && (forall s :: multiset([selection.parent.value] + selection.cloneSources)[s]
          == if MayServe(s, snapshot, source, target, mode) then multiset(source)[s] else 0)
    && forall i, j :: 0 <= i < j < |selection.cloneSources| ==>
         var a, b := selection.cloneSources[i], selection.cloneSources[j];
         a.cgen > b.cgen || (a.cgen == b.cgen && a.id >= b.id)
  }

  ghost predicate SomeServes(snapshot: Subvolume, source: seq<Subvolume>, target: seq<Subvolume>, mode: Incremental) {
    exists s :: MayServe(s, snapshot, source, target, mode)
  }

  /** With a candidate the answer is well chosen; without one it is a full send, or in strict mode a refusal. */
  ghost predicate RightAnswer(r: Result<ParentSelection, ParentError>, snapshot: Subvolume, source: seq<Subvolume>,
                          target: seq<Subvolume>, mode: Incremental)
  {
    if mode == No then r == Ok(ParentSelection(None, []))
    else if SomeServes(snapshot, source, target, mode) then
      r.Ok? && WellChosen(r.value, snapshot, source, target, mode)
    else r == if mode == Strict then Err(NoStrictParent) else Ok(ParentSelection(None, []))
  }

  lemma {:induction false} BestOutranks(p: Subvolume, c: Subvolume, candidates: seq<Subvolume>, gen: nat)
    requires IsBest(p, candidates, gen) && c in candidates && p.readonly && c.readonly
    ensures Outranks(p, c, gen)
  {
  }

  lemma {:induction false} BestOfThese(p: Subvolume, snapshot: Subvolume, source: seq<Subvolume>,
                                       target: seq<Subvolume>, mode: Incremental)
    requires IsBest(p, Candidates(snapshot, source, target, mode), snapshot.ReferenceGeneration())
    ensures BestServes(p, snapshot, source, target, mode)
  {
    OrderIsByAge(snapshot, snapshot);
    CandidatesMayServe(snapshot, source, target, mode, p);
    forall c | MayServe(c, snapshot, source, target, mode)
      ensures Outranks(p, c, snapshot.ReferenceGeneration())
    {
      CandidatesMayServe(snapshot, source, target, mode, c);
      BestOutranks(p, c, Candidates(snapshot, source, target, mode), snapshot.ReferenceGeneration());
    }
  }

  /** Read-only subvolumes are ordered by the generation that made them. */
  lemma OrderedByCreation(s: seq<Subvolume>)
    requires Sorted(s, NoOlder) && forall i :: 0 <= i < |s| ==> s[i].readonly
    ensures forall i, j :: 0 <= i < j < |s| ==> s[i].cgen > s[j].cgen || (s[i].cgen == s[j].cgen && s[i].id >= s[j].id)
  {
    forall i, j | 0 <= i < j < |s| ensures s[i].cgen > s[j].cgen || (s[i].cgen == s[j].cgen && s[i].id >= s[j].id) {
      assert NoOlder(s[i], s[j]);
    }
  }

  lemma RestIsReadonly(first: Subvolume, rest: seq<Subvolume>, candidates: seq<Subvolume>)
    requires multiset([first] + rest) == multiset(candidates)
    requires forall c :: c in candidates ==> c.readonly
    ensures forall i :: 0 <= i < |rest| ==> rest[i].readonly
  {
    SameElements([first] + rest, candidates);
    forall i | 0 <= i < |rest| ensures rest[i].readonly {
      assert ([first] + rest)[i + 1] == rest[i];
    }
  }

  lemma {:induction false} SplitsWell(selection: ParentSelection, snapshot: Subvolume, source: seq<Subvolume>,
                                      target: seq<Subvolume>, mode: Incremental)
    requires Splits(selection, Candidates(snapshot, source, target, mode), snapshot.ReferenceGeneration())
    ensures WellChosen(selection, snapshot, source, target, mode)
  {
    BestOfThese(selection.parent.value, snapshot, source, target, mode);
    RestIsReadonly(selection.parent.value, selection.cloneSources, Candidates(snapshot, source, target, mode));
    OrderedByCreation(selection.cloneSources);
    forall s
      ensures multiset([selection.parent.value] + selection.cloneSources)[s]
           == if MayServe(s, snapshot, source, target, mode) then multiset(source)[s] else 0
    {
      CandidatesMayServe(snapshot, source, target, mode, s);
    }
  }

  /** The choice in terms of what the subvolumes are. */
  lemma {:induction false} ChoiceAnswers(snapshot: Subvolume, source: seq<Subvolume>, target: seq<Subvolume>,
                                         mode: Incremental)
    ensures RightAnswer(Choice(snapshot, source, target, mode), snapshot, source, target, mode)
  {
    var candidates := Candidates(snapshot, source, target, mode);
    if candidates == [] {
      forall s ensures !MayServe(s, snapshot, source, target, mode) {
        CandidatesMayServe(snapshot, source, target, mode, s);
      }
    } else {
      CandidatesMayServe(snapshot, source, target, mode, candidates[0]);
      assert candidates[0] in candidates;
      SplitOffSplits(candidates, snapshot.ReferenceGeneration());
      if mode != No {
        SplitsWell(SplitOff(candidates, snapshot.ReferenceGeneration()), snapshot, source, target, mode);
      }
    }
  }

  /**
   `best_parent`: refuse only a strict request without candidates; otherwise split what may serve into
   the best parent and the clone sources, losing none.
   */
  method BestParent(snapshot: Subvolume, source: RelationshipGraph, target: RelationshipGraph, mode: Incremental)
    returns (r: Result<ParentSelection, ParentError>)
    requires source.Valid() && target.Valid()
    ensures r == Choice(snapshot, source.subvols, target.subvols, mode)
    ensures RightAnswer(r, snapshot, source.subvols, target.subvols, mode)
  {
    ChoiceAnswers(snapshot, source.subvols, target.subvols, mode);
    if mode == No {
      return Ok(FULL_SEND);
    }
    var found := CollectCandidates(snapshot, source, target, mode);
    if found == [] {
      if mode == Strict {
        return Err(NoStrictParent);
      }
      return Ok(FULL_SEND);
    }
    var selection := SplitBest(found, snapshot.ReferenceGeneration());
    r := Ok(selection);
  }
}
