/**
 Subvolumes and their relationship graph: crates/domain/src/model.rs.
 `Build` fills the three hash indexes in one pass; the lookups are proved to be list filters.
 */
module Model {
  import opened Wrappers
  import opened Sequences

  /** A path as its components. `Join` and `Parent` follow `PathBuf::join` and `Path::parent`. */
  datatype Path = Path(absolute: bool, parts: seq<string>) {
    function Join(p: Path): Path {
      if p.absolute then p else Path(absolute, parts + p.parts)
    }

    function Parent(): Option<Path> {
      if parts == [] then None else Some(Path(absolute, parts[..|parts| - 1]))
    }

    function FileName(): Option<string> {
      if parts == [] || parts[|parts| - 1] == ".." then None else Some(parts[|parts| - 1])
    }

    predicate StartsWith(p: Path) {
      absolute == p.absolute && p.parts <= parts
    }
  }

  /** An absolute path replaces the one it is joined to, a relative one leads down from it. */
  lemma JoinLeads(a: Path, b: Path, c: Path)
    ensures b.absolute ==> a.Join(b) == b
    ensures !b.absolute ==> a.Join(b).StartsWith(a) && |a.Join(b).parts| == |a.parts| + |b.parts|
    ensures a.Join(b).Join(c) == a.Join(b.Join(c))
  {
  }

  /** Parent and name take apart what joining a name to a directory puts together; `..` is no name. */
  lemma ParentAndName(p: Path, dir: Path, name: string)
    ensures p.Parent() == Some(dir) && p.FileName() == Some(name)
       <==> p == dir.Join(Path(false, [name])) && name != ".."
    ensures p.Parent() == None <==> p.parts == []
    ensures p.Parent() == Some(dir) && p.FileName() == None <==> p == dir.Join(Path(false, [".."]))
  {
    if p.parts != [] {
      assert p.parts == p.parts[..|p.parts| - 1] + [p.parts[|p.parts| - 1]];
    }
  }

  datatype Uuid = Uuid(text: string)

  datatype Subvolume = Subvolume(
    id: nat,
    uuid: Option<Uuid>,
    parentUuid: Option<Uuid>,
    receivedUuid: Option<Uuid>,
    generation: nat,
    cgen: nat,
    readonly: bool,
    path: Path,
    fsUuid: Uuid,
    mountpoint: Path
  ) {
    predicate IsGarbled() { !readonly && receivedUuid == None }

    function ReferenceGeneration(): nat { if readonly then cgen else generation }

    function FullPath(): Path { mountpoint.Join(path) }
  }

  /** The two one-to-many relations. */
  datatype Relation = ByParent | ByReceived

  function Key(s: Subvolume, relation: Relation): Option<Uuid> {
    match relation
    case ByParent => s.parentUuid
    case ByReceived => s.receivedUuid
  }

  predicate UniqueUuids(subvols: seq<Subvolume>) {
    UniqueBelow(subvols, |subvols|)
  }

  predicate UniqueBelow(subvols: seq<Subvolume>, n: nat)
    requires n <= |subvols|
  {
    forall i, j :: 0 <= i < j < n && subvols[i].uuid.Some? ==> subvols[i].uuid != subvols[j].uuid
  }

  predicate UniqueIds(subvols: seq<Subvolume>) {
    forall i, j :: 0 <= i < j < |subvols| ==> subvols[i].id != subvols[j].id
  }

  datatype RelationshipGraph = RelationshipGraph(
    subvols: seq<Subvolume>,
    byUuid: map<Uuid, nat>,
    byParentUuid: map<Uuid, seq<nat>>,
    byReceivedUuid: map<Uuid, seq<nat>>
  ) {
    /** The indexes describe all of `subvols`. */
    ghost predicate Valid() {
      && UuidIndex(subvols, |subvols|, byUuid)
      && RelationIndex(subvols, |subvols|, ByParent, byParentUuid)
      && RelationIndex(subvols, |subvols|, ByReceived, byReceivedUuid)
    }

    function Get(uuid: Uuid): (r: Option<Subvolume>)
      requires Valid()
      ensures r == FindUuid(subvols, uuid)
    {
      if uuid in byUuid then
        FindUuidAt(subvols, byUuid[uuid], uuid);
        Some(subvols[byUuid[uuid]])
      else None
    }

    function ChildrenOf(parent: Uuid): (r: seq<Subvolume>)
      requires Valid()
      ensures r == Filter(subvols, Has(ByParent, parent))
    {
      LookupIsFilter(subvols, ByParent, byParentUuid, parent);
      Lookup(subvols, byParentUuid, parent)
    }

    function ReceivedFrom(source: Uuid): (r: seq<Subvolume>)
      requires Valid()
      ensures r == Filter(subvols, Has(ByReceived, source))
    {
      LookupIsFilter(subvols, ByReceived, byReceivedUuid, source);
      Lookup(subvols, byReceivedUuid, source)
    }
  }

  /** The linear scan the uuid index stands for. */
  function FindUuid(subvols: seq<Subvolume>, uuid: Uuid): (r: Option<Subvolume>)
    ensures r.Some? ==> r.value in subvols && r.value.uuid == Some(uuid)
    ensures r.None? ==> forall s :: s in subvols ==> s.uuid != Some(uuid)
  {
    if subvols == [] then None
    else if subvols[0].uuid == Some(uuid) then Some(subvols[0])
    else FindUuid(subvols[1..], uuid)
  }

  lemma {:induction false} FindUuidAt(subvols: seq<Subvolume>, i: nat, uuid: Uuid)
    requires i < |subvols| && subvols[i].uuid == Some(uuid)
    requires forall j :: 0 <= j < |subvols| && subvols[j].uuid == Some(uuid) ==> j == i
    ensures FindUuid(subvols, uuid) == Some(subvols[i])
  {
    if i > 0 {
      forall j | 0 <= j < |subvols| - 1 && subvols[1..][j].uuid == Some(uuid) ensures j == i - 1 {
        assert subvols[j + 1].uuid == Some(uuid);
      }
      FindUuidAt(subvols[1..], i - 1, uuid);
    }
  }

  datatype GraphError = DuplicateUuid(uuid: Uuid)

  function Has(relation: Relation, uuid: Uuid): Subvolume -> bool {
    (s: Subvolume) => Key(s, relation) == Some(uuid)
  }

  // ---------------------------------------------------------------------------
  // Index contents
  // ---------------------------------------------------------------------------

  ghost predicate UuidIndex(subvols: seq<Subvolume>, n: nat, m: map<Uuid, nat>)
    requires n <= |subvols|
  {
    && (forall u :: u in m ==> m[u] < n && subvols[m[u]].uuid == Some(u))
    && (forall i :: 0 <= i < n && subvols[i].uuid.Some? ==> subvols[i].uuid.value in m && m[subvols[i].uuid.value] == i)
  }

  /** The positions below `n` whose key is `uuid`, in list order. */
  function Positions(subvols: seq<Subvolume>, n: nat, relation: Relation, uuid: Uuid): (r: seq<nat>)
    requires n <= |subvols|
    ensures forall k :: 0 <= k < |r| ==> r[k] < n
  {
    if n == 0 then []
    else
      Positions(subvols, n - 1, relation, uuid)
      + (if Key(subvols[n - 1], relation) == Some(uuid) then [n - 1] else [])
  }

  ghost predicate RelationIndex(subvols: seq<Subvolume>, n: nat, relation: Relation, m: map<Uuid, seq<nat>>)
    requires n <= |subvols|
  {
    forall u {:trigger Positions(subvols, n, relation, u)} ::
      Positions(subvols, n, relation, u) == if u in m then m[u] else []
  }

  function At(subvols: seq<Subvolume>, positions: seq<nat>): (r: seq<Subvolume>)
    requires forall k :: 0 <= k < |positions| ==> positions[k] < |subvols|
  {
    seq(|positions|, k requires 0 <= k < |positions| => subvols[positions[k]])
  }

  function Lookup(subvols: seq<Subvolume>, m: map<Uuid, seq<nat>>, uuid: Uuid): seq<Subvolume>
    requires uuid in m ==> forall k :: 0 <= k < |m[uuid]| ==> m[uuid][k] < |subvols|
  {
    if uuid in m then At(subvols, m[uuid]) else []
  }

  lemma {:induction false} PositionsFilter(subvols: seq<Subvolume>, n: nat, relation: Relation, uuid: Uuid)
    requires n <= |subvols|
    ensures At(subvols, Positions(subvols, n, relation, uuid)) == Filter(subvols[..n], Has(relation, uuid))
  {
    if n > 0 {
      PositionsFilter(subvols, n - 1, relation, uuid);
      assert subvols[..n] == subvols[..n - 1] + [subvols[n - 1]];
      FilterConcat(subvols[..n - 1], [subvols[n - 1]], Has(relation, uuid));
    }
  }

  lemma LookupIsFilter(subvols: seq<Subvolume>, relation: Relation, m: map<Uuid, seq<nat>>, uuid: Uuid)
    requires RelationIndex(subvols, |subvols|, relation, m)
    ensures uuid in m ==> forall k :: 0 <= k < |m[uuid]| ==> m[uuid][k] < |subvols|
    ensures Lookup(subvols, m, uuid) == Filter(subvols, Has(relation, uuid))
  {
    PositionsFilter(subvols, |subvols|, relation, uuid);
    assert subvols[..|subvols|] == subvols;
    assert Positions(subvols, |subvols|, relation, uuid) == if uuid in m then m[uuid] else [];
  }

  lemma IndexPush(subvols: seq<Subvolume>, n: nat, relation: Relation, m: map<Uuid, seq<nat>>)
    requires n < |subvols| && RelationIndex(subvols, n, relation, m)
    ensures RelationIndex(subvols, n + 1, relation, Push(m, Key(subvols[n], relation), n))
  {
    var pushed := Push(m, Key(subvols[n], relation), n);
    forall u ensures Positions(subvols, n + 1, relation, u) == if u in pushed then pushed[u] else [] {
      assert Positions(subvols, n, relation, u) == if u in m then m[u] else [];
    }
  }

  /** `entry(key).or_default().push(i)`, when there is a key. */
  function Push(m: map<Uuid, seq<nat>>, key: Option<Uuid>, i: nat): map<Uuid, seq<nat>> {
    match key
    case None => m
    case Some(u) => m[u := (if u in m then m[u] else []) + [i]]
  }

  /** The uuid at `j` is the first one in the list that was met before. */
  predicate FirstRepeat(subvols: seq<Subvolume>, j: nat, uuid: Uuid)
    requires j < |subvols|
  {
    subvols[j].uuid == Some(uuid) && UniqueBelow(subvols, j) && !UniqueBelow(subvols, j + 1)
  }

  /** Fill the indexes, refusing a uuid that is met a second time. */
  method Build(subvols: seq<Subvolume>) returns (r: Result<RelationshipGraph, GraphError>)
    ensures r.Ok? <==> UniqueUuids(subvols)
    ensures r.Ok? ==> r.value.subvols == subvols && r.value.Valid()
    ensures r.Err? ==> exists j :: 0 <= j < |subvols| && FirstRepeat(subvols, j, r.error.uuid)
  {
    var byUuid: map<Uuid, nat>, byParentUuid: map<Uuid, seq<nat>>, byReceivedUuid: map<Uuid, seq<nat>> :=
      map[], map[], map[];
    for i := 0 to |subvols|
      invariant UniqueBelow(subvols, i) && UuidIndex(subvols, i, byUuid)
      invariant RelationIndex(subvols, i, ByParent, byParentUuid)
      invariant RelationIndex(subvols, i, ByReceived, byReceivedUuid)
    {
      var sv := subvols[i];
      if sv.uuid.Some? {
        if sv.uuid.value in byUuid {
          assert FirstRepeat(subvols, i, sv.uuid.value);
          return Err(DuplicateUuid(sv.uuid.value));
        }
        byUuid := byUuid[sv.uuid.value := i];
      }
      IndexPush(subvols, i, ByParent, byParentUuid);
      byParentUuid := Push(byParentUuid, sv.parentUuid, i);
      IndexPush(subvols, i, ByReceived, byReceivedUuid);
      byReceivedUuid := Push(byReceivedUuid, sv.receivedUuid, i);
    }
    r := Ok(RelationshipGraph(subvols, byUuid, byParentUuid, byReceivedUuid));
  }
}
