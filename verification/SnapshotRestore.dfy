/** Restoring the files of a directory: read in the order of their names, later versions of an entity win. */
module SnapshotRestore {
  import opened Options
  import opened SnapshotNames
  import opened SnapshotDump

  datatype Key = Key(dumpType: DumpType, source: Source)

  type Entities = map<Key, map<string, Entity>>

  function Field(e: Entity, name: string): Option<string> {
    if name in e then Some(e[name]) else None
  }

  /** None where the entity lacks the field that identifies it. */
  function UniqueId(t: DumpType, e: Entity): Option<string> {
    match t
    case Sites => Field(e, "name")
    case Tenants => Field(e, "name")
    case UserGroups => Field(e, "name")
    case Permissions =>
      var role, permission := Field(e, "role"), Field(e, "permission");
      if role.None? || permission.None? then None else Some(role.value + ":" + permission.value)
    case Secrets => Field(e, "key")
    case Users => Field(e, "username")
    case Other(_) => Field(e, "id")
  }

  /** An unidentified entity makes the whole restore fail. */
  function Merged(known: map<string, Entity>, t: DumpType, items: seq<Entity>): Option<map<string, Entity>> {
    if items == [] then Some(known)
    else
      var front, e := Merged(known, t, items[..|items| - 1]), items[|items| - 1];
      if front.None? || UniqueId(t, e).None? then None else Some(front.value[UniqueId(t, e).value := e])
  }

  function KeyOf(f: File): Key {
    Key(f.dumpType, f.source)
  }

  function Updated(entities: Entities, f: File): Option<Entities> {
    var known := if KeyOf(f) in entities then entities[KeyOf(f)] else map[];
    match Merged(known, f.dumpType, f.items)
    case Some(m) => Some(entities[KeyOf(f) := m])
    case None => None
  }

  function Restored(files: seq<File>): Option<Entities> {
    if files == [] then Some(map[])
    else
      match Restored(files[..|files| - 1])
      case Some(entities) => Updated(entities, files[|files| - 1])
      case None => None
  }

  function Find(entities: Entities, key: Key, id: string): Option<Entity> {
    if key in entities && id in entities[key] then Some(entities[key][id]) else None
  }

  // ----- versions -----

  /** The last of the entities with an id. */
  function LatestOf(items: seq<Entity>, t: DumpType, id: string): Option<Entity> {
    if items == [] then None
    else if UniqueId(t, items[|items| - 1]) == Some(id) then Some(items[|items| - 1])
    else LatestOf(items[..|items| - 1], t, id)
  }

  predicate Identified(t: DumpType, items: seq<Entity>) {
    forall e :: e in items ==> UniqueId(t, e).Some?
  }

  /** The version of an entity that was dumped last, over a list of calls. */
  function LatestIn(t: DumpType, data: seq<Raw>, key: Key, id: string): Option<Entity> {
    if data == [] then None
    else
      var last := data[|data| - 1];
      if key == Key(t, Written(SourceOf(last))) && UniqueId(t, last.entity) == Some(id) then Some(last.entity)
      else LatestIn(t, data[..|data| - 1], key, id)
  }

  function LatestDumped(calls: seq<Call>, key: Key, id: string): Option<Entity> {
    if calls == [] then None
    else
      var last := calls[|calls| - 1];
      Or(LatestIn(last.dumpType, last.data, key, id), LatestDumped(calls[..|calls| - 1], key, id))
  }

  function Or<T>(a: Option<T>, b: Option<T>): Option<T> {
    if a.Some? then a else b
  }

  function LatestInFiles(files: seq<File>, key: Key, id: string): Option<Entity> {
    if files == [] then None
    else
      var last := files[|files| - 1];
      Or(if KeyOf(last) == key then LatestOf(last.items, key.dumpType, id) else None,
         LatestInFiles(files[..|files| - 1], key, id))
  }

  lemma {:induction false} MergedIsLatest(known: map<string, Entity>, t: DumpType, items: seq<Entity>, id: string)
    ensures Merged(known, t, items).Some? <==> Identified(t, items)
    ensures Merged(known, t, items).Some? ==>
      var m := Merged(known, t, items).value;
      (if id in m then Some(m[id]) else None)
        == Or(LatestOf(items, t, id), if id in known then Some(known[id]) else None)
  {
    if items != [] {
      MergedIsLatest(known, t, items[..|items| - 1], id);
      assert items == items[..|items| - 1] + [items[|items| - 1]];
    }
  }

  /** Reading files one after the other keeps the latest version of each entity, and fails on an unidentified one. */
  lemma {:induction false} RestoredIsLatest(files: seq<File>, key: Key, id: string)
    ensures Restored(files).Some? <==> forall f :: f in files ==> Identified(f.dumpType, f.items)
    ensures Restored(files).Some? ==> Find(Restored(files).value, key, id) == LatestInFiles(files, key, id)
  {
    if files != [] {
      var front, last := files[..|files| - 1], files[|files| - 1];
      RestoredIsLatest(front, key, id);
      assert files == front + [last];
      if Restored(front).Some? {
        var entities := Restored(front).value;
        var known := if KeyOf(last) in entities then entities[KeyOf(last)] else map[];
        MergedIsLatest(known, last.dumpType, last.items, id);
      }
    }
  }

  // ----- the files of one call -----

  lemma {:induction false} LatestOfConcat(a: seq<Entity>, b: seq<Entity>, t: DumpType, id: string)
    ensures LatestOf(a + b, t, id) == Or(LatestOf(b, t, id), LatestOf(a, t, id))
  {
    if b == [] {
      assert a + b == a;
    } else {
      assert (a + b)[..|a + b| - 1] == a + b[..|b| - 1];
      LatestOfConcat(a, b[..|b| - 1], t, id);
    }
  }

  lemma {:induction false} LatestInFilesConcat(a: seq<File>, b: seq<File>, key: Key, id: string)
    ensures LatestInFiles(a + b, key, id) == Or(LatestInFiles(b, key, id), LatestInFiles(a, key, id))
  {
    if b == [] {
      assert a + b == a;
    } else {
      assert (a + b)[..|a + b| - 1] == a + b[..|b| - 1];
      LatestInFilesConcat(a, b[..|b| - 1], key, id);
    }
  }

  /** Files of one key read like their concatenated contents. */
  lemma {:induction false} LatestOfOneKey(files: seq<File>, mine: Key, key: Key, id: string)
    requires forall f :: f in files ==> KeyOf(f) == mine
    ensures LatestInFiles(files, key, id) == if key == mine then LatestOf(Contents(files), key.dumpType, id) else None
  {
    if files != [] {
      var front, last := files[..|files| - 1], files[|files| - 1];
      assert files == front + [last];
      LatestOfOneKey(front, mine, key, id);
      LatestOfConcat(Contents(front), last.items, key.dumpType, id);
    }
  }

  /** The latest version across the buckets of a call, taken in the given order. */
  function LatestAcross(t: DumpType, data: seq<Raw>, order: seq<Source>, key: Key, id: string): Option<Entity> {
    if order == [] then None
    else
      var s := order[|order| - 1];
      Or(if key == Key(t, Written(s)) then LatestOf(ItemsOf(data, s), t, id) else None,
         LatestAcross(t, data, order[..|order| - 1], key, id))
  }

  lemma {:induction false} FilesAreAcross(t: DumpType, data: seq<Raw>, order: seq<Source>, key: Key, id: string)
    ensures LatestInFiles(FilesOfSources(t, data, order), key, id) == LatestAcross(t, data, order, key, id)
  {
    if order != [] {
      var front, s := order[..|order| - 1], order[|order| - 1];
      FilesAreAcross(t, data, front, key, id);
      ChunksConcatenate(t, s, ItemsOf(data, s));
      LatestOfOneKey(FilesOf(t, s, ItemsOf(data, s)), Key(t, Written(s)), key, id);
      LatestInFilesConcat(FilesOfSources(t, data, front), FilesOf(t, s, ItemsOf(data, s)), key, id);
    }
  }

  // ----- which calls are restored to their latest versions -----

  function Sources(data: seq<Raw>): (r: seq<Source>)
    ensures |r| == |data| && forall k: nat :: k < |r| ==> r[k] == SourceOf(data[k])
  {
    seq(|data|, k requires 0 <= k < |data| => SourceOf(data[k]))
  }

  /** No source comes back after another one that reads the same, as an empty name reads as a missing one. */
  ghost predicate NoneComesBack(sources: seq<Source>) {
    forall c: nat, a: nat, b: nat ::
      c < a < b < |sources| && sources[c] == sources[b] && Written(sources[a]) == Written(sources[b]) ==>
        sources[a] == sources[b]
  }

  lemma {:induction false} OnlySeenSources(data: seq<Raw>, s: Source)
    ensures s in Grouped(data).order <==> s in Sources(data)
  {
    if data == [] {
    } else {
      var front := data[..|data| - 1];
      OnlySeenSources(front, s);
      GroupedBySource(front);
      assert Sources(data) == Sources(front) + [SourceOf(data[|data| - 1])];
    }
  }

  predicate SeenBefore(data: seq<Raw>, s: Source, n: nat) {
    exists k: nat :: k < n && k < |data| && SourceOf(data[k]) == s
  }

  /** Buckets are in the order in which their sources are first seen. */
  lemma {:induction false} FirstSeenFirst(data: seq<Raw>, j: nat, k: nat) returns (a: nat)
    requires j < k < |Grouped(data).order|
    ensures a < |data| && SourceOf(data[a]) == Grouped(data).order[k]
    ensures SeenBefore(data, Grouped(data).order[j], a) && !SeenBefore(data, Grouped(data).order[k], a)
  {
    var front := data[..|data| - 1];
    if k < |Grouped(front).order| {
      a := FirstSeenFirst(front, j, k);
      var c: nat :| c < a && SourceOf(front[c]) == Grouped(front).order[j];
      assert SourceOf(data[c]) == SourceOf(front[c]);
      assert forall i: nat :: i < a ==> front[i] == data[i];
    } else {
      a := |front|;
      SeenIsBucketed(front, Grouped(data).order[j]);
      SeenIsBucketed(front, Grouped(data).order[k]);
      GroupedBySource(front);
      assert forall i: nat :: i < a ==> front[i] == data[i];
    }
  }

  lemma SeenIsBucketed(data: seq<Raw>, s: Source)
    ensures s in Grouped(data).order <==> SeenBefore(data, s, |data|)
  {
    OnlySeenSources(data, s);
    if SeenBefore(data, s, |data|) {
      var k: nat :| k < |data| && SourceOf(data[k]) == s;
      assert Sources(data)[k] == s;
    }
  }

  /** Appending an entity that is not looked for changes nothing. */
  lemma {:induction false} OtherEntity(t: DumpType, data: seq<Raw>, raw: Raw, order: seq<Source>, key: Key, id: string)
    requires key != Key(t, Written(SourceOf(raw))) || UniqueId(t, raw.entity) != Some(id)
    ensures LatestAcross(t, data + [raw], order, key, id) == LatestAcross(t, data, order, key, id)
  {
    if order != [] {
      var s := order[|order| - 1];
      OtherEntity(t, data, raw, order[..|order| - 1], key, id);
      ItemsOfMore(data, raw, s);
      LatestOfMore(ItemsOf(data, s), raw.entity, t, id);
    }
  }

  lemma ItemsOfMore(data: seq<Raw>, raw: Raw, s: Source)
    ensures ItemsOf(data + [raw], s) == ItemsOf(data, s) + if SourceOf(raw) == s then [raw.entity] else []
  {
    assert (data + [raw])[..|data|] == data;
  }

  lemma LatestOfMore(items: seq<Entity>, e: Entity, t: DumpType, id: string)
    ensures items + [] == items
    ensures LatestOf(items + [e], t, id) == if UniqueId(t, e) == Some(id) then Some(e) else LatestOf(items, t, id)
  {
    assert (items + [e])[..|items|] == items;
  }

  /** Appending the entity that is looked for yields it, if its bucket is the last of those that read the same. */
  lemma {:induction false} SoughtEntity(t: DumpType, data: seq<Raw>, raw: Raw, order: seq<Source>, j: nat, id: string)
    requires UniqueId(t, raw.entity) == Some(id) && j < |order| && order[j] == SourceOf(raw)
    requires forall k: nat :: j < k < |order| ==> Written(order[k]) != Written(SourceOf(raw))
    ensures LatestAcross(t, data + [raw], order, Key(t, Written(SourceOf(raw))), id) == Some(raw.entity)
  {
    var s := order[|order| - 1];
    if j == |order| - 1 {
      ItemsOfMore(data, raw, s);
      LatestOfMore(ItemsOf(data, s), raw.entity, t, id);
    } else {
      SoughtEntity(t, data, raw, order[..|order| - 1], j, id);
    }
  }

  lemma OtherAppended(t: DumpType, front: seq<Raw>, raw: Raw, key: Key, id: string)
    requires key != Key(t, Written(SourceOf(raw))) || UniqueId(t, raw.entity) != Some(id)
    ensures LatestAcross(t, front + [raw], Grouped(front + [raw]).order, key, id)
         == LatestAcross(t, front, Grouped(front).order, key, id)
  {
    var s, order, before := SourceOf(raw), Grouped(front + [raw]).order, Grouped(front).order;
    assert (front + [raw])[..|front|] == front;
    GroupedBySource(front);
    OtherEntity(t, front, raw, order, key, id);
    if s !in before {
      assert ItemsOf(front, s) == [] && order[..|before|] == before;
    }
  }

  lemma LatestInAppended(t: DumpType, front: seq<Raw>, raw: Raw, key: Key, id: string)
    ensures LatestIn(t, front + [raw], key, id)
         == if key == Key(t, Written(SourceOf(raw))) && UniqueId(t, raw.entity) == Some(id) then Some(raw.entity)
            else LatestIn(t, front, key, id)
  {
    assert (front + [raw])[..|front|] == front;
  }

  /** For such calls the files hold, for each entity, the version that was dumped last. */
  lemma {:induction false} CallKeepsLatest(t: DumpType, data: seq<Raw>, key: Key, id: string)
    requires NoneComesBack(Sources(data))
    ensures LatestAcross(t, data, Grouped(data).order, key, id) == LatestIn(t, data, key, id)
  {
    if data != [] {
      var front, raw := data[..|data| - 1], data[|data| - 1];
      assert data == front + [raw];
      LatestInAppended(t, front, raw, key, id);
      if key != Key(t, Written(SourceOf(raw))) || UniqueId(t, raw.entity) != Some(id) {
        assert NoneComesBack(Sources(front)) by { assert Sources(front) == Sources(data)[..|front|]; }
        CallKeepsLatest(t, front, key, id);
        OtherAppended(t, front, raw, key, id);
      } else {
        var j := LastToReadTheSame(data);
        SoughtEntity(t, front, raw, Grouped(data).order, j, id);
      }
    }
  }

  lemma LastToReadTheSame(data: seq<Raw>) returns (j: nat)
    requires data != [] && NoneComesBack(Sources(data))
    ensures var order, s := Grouped(data).order, SourceOf(data[|data| - 1]);
            && j < |order| && order[j] == s
            && forall k: nat :: j < k < |order| ==> Written(order[k]) != Written(s)
  {
    var order, s := Grouped(data).order, SourceOf(data[|data| - 1]);
    GroupedBySource(data);
    OnlySeenSources(data, s);
    assert Sources(data)[|data| - 1] == s;
    j :| j < |order| && order[j] == s;
    forall k: nat | j < k < |order| && Written(order[k]) == Written(s) ensures false {
      var a := FirstSeenFirst(data, j, k);
    }
  }

  // ----- the other direction -----

  function Marked(id: string, version: string): Entity {
    map["id" := id, "version" := version]
  }

  function ClashAt(k: nat, older: nat, newer: nat): Entity {
    if k == older then Marked("x", "old") else if k == newer then Marked("x", "new") else Marked("y", "")
  }

  /** Data from the given sources where only two entities share an id: an older and a newer version. */
  function Clash(sources: seq<Source>, older: nat, newer: nat): seq<Raw> {
    seq(|sources|, k requires 0 <= k < |sources| => Wrapped(ClashAt(k, older, newer), sources[k]))
  }

  const ANY: DumpType := Other("deployments")

  lemma ClashIds(k: nat, older: nat, newer: nat)
    ensures UniqueId(ANY, ClashAt(k, older, newer)) == Some("x") <==> k == older || k == newer
  {
    assert "x"[0] != "y"[0];
  }

  lemma {:induction false} ClashItems(sources: seq<Source>, older: nat, newer: nat, n: nat, s: Source)
    requires n <= |sources| && older < newer < |sources| && sources[older] != sources[newer]
    ensures LatestOf(ItemsOf(Clash(sources, older, newer)[..n], s), ANY, "x")
         == if older < n && s == sources[older] then Some(Marked("x", "old"))
            else if newer < n && s == sources[newer] then Some(Marked("x", "new")) else None
  {
    var data := Clash(sources, older, newer);
    if n > 0 {
      ClashItems(sources, older, newer, n - 1, s);
      assert data[..n] == data[..n - 1] + [data[n - 1]];
      ItemsOfMore(data[..n - 1], data[n - 1], s);
      LatestOfMore(ItemsOf(data[..n - 1], s), data[n - 1].entity, ANY, "x");
      ClashIds(n - 1, older, newer);
    }
  }

  lemma {:induction false} ClashLatest(sources: seq<Source>, older: nat, newer: nat, n: nat, key: Key)
    requires n <= |sources| && older < newer < |sources| && key == Key(ANY, Written(sources[newer]))
    ensures newer < n ==> LatestIn(ANY, Clash(sources, older, newer)[..n], key, "x") == Some(Marked("x", "new"))
  {
    var data := Clash(sources, older, newer);
    if newer < n {
      ClashLatest(sources, older, newer, n - 1, key);
      assert data[..n][..n - 1] == data[..n - 1];
      ClashIds(n - 1, older, newer);
    }
  }

  /** If the bucket of the newer version comes first, the older one is read last. */
  lemma {:induction false} ClashAcross(sources: seq<Source>, older: nat, newer: nat, order: seq<Source>, i: nat, key: Key)
    requires older < newer < |sources| && sources[older] != sources[newer] && i < |order|
    requires order[i] == sources[older] && forall k: nat :: i < k < |order| ==> order[k] != sources[newer]
    requires key == Key(ANY, Written(sources[older]))
    ensures LatestAcross(ANY, Clash(sources, older, newer), order, key, "x") == Some(Marked("x", "old"))
  {
    var data := Clash(sources, older, newer);
    var s := order[|order| - 1];
    ClashItems(sources, older, newer, |data|, s);
    assert data[..|data|] == data;
    if i < |order| - 1 && s != sources[older] {
      ClashAcross(sources, older, newer, order[..|order| - 1], i, key);
    }
  }

  lemma OrderOfSources(data: seq<Raw>, a: nat, s: Source, u: Source) returns (j: nat, k: nat)
    requires SeenBefore(data, s, a) && !SeenBefore(data, u, a) && SeenBefore(data, u, |data|)
    ensures j < k < |Grouped(data).order| && Grouped(data).order[j] == s && Grouped(data).order[k] == u
  {
    var order := Grouped(data).order;
    SeenIsBucketed(data, s);
    SeenIsBucketed(data, u);
    j :| j < |order| && order[j] == s;
    k :| k < |order| && order[k] == u;
    if k < j {
      var first := FirstSeenFirst(data, k, j);
    }
  }

  /** Whatever the entities: with these sources, the files of a call yield the versions dumped last. */
  ghost predicate KeepsLatest(sources: seq<Source>) {
    forall t, data, key, id :: Sources(data) == sources ==>
      LatestInFiles(AllFiles(t, data), key, id) == LatestIn(t, data, key, id)
  }

  lemma ClashFails(sources: seq<Source>, older: nat, newer: nat, m: nat)
    requires older < newer < |sources| && sources[older] != sources[newer]
    requires Written(sources[older]) == Written(sources[newer])
    requires m < |sources| && sources[m] == sources[newer] && sources[older] !in sources[..m]
    ensures !KeepsLatest(sources)
  {
    var data, key := Clash(sources, older, newer), Key(ANY, Written(sources[newer]));
    assert Sources(data) == sources && data[..|data|] == data;
    ClashLatest(sources, older, newer, |data|, key);
    assert !SeenBefore(data, sources[older], m + 1) by {
      forall k: nat | k < m ensures SourceOf(data[k]) == sources[..m][k] {}
    }
    assert SourceOf(data[m]) == sources[newer] && SourceOf(data[older]) == sources[older];
    var j, k := OrderOfSources(data, m + 1, sources[newer], sources[older]);
    GroupedBySource(data);
    ClashAcross(sources, older, newer, Grouped(data).order, k, key);
    FilesAreAcross(ANY, data, Grouped(data).order, key, "x");
    assert "old"[0] != "new"[0] && Marked("x", "old")["version"] != Marked("x", "new")["version"];
    assert LatestInFiles(AllFiles(ANY, data), key, "x") != LatestIn(ANY, data, key, "x");
  }

  lemma {:induction false} FirstOfTwo(sources: seq<Source>, s: Source, u: Source, n: nat) returns (m: nat)
    requires n < |sources| && sources[n] in {s, u}
    ensures m <= n && sources[m] in {s, u} && s !in sources[..m] && u !in sources[..m]
  {
    if k: nat :| k < n && sources[k] in {s, u} {
      m := FirstOfTwo(sources, s, u, k);
    } else {
      m := n;
    }
  }

  /** A call is restored to its latest versions, whatever they are, exactly when none of its sources comes back. */
  lemma KeepsLatestIff(sources: seq<Source>)
    ensures KeepsLatest(sources) <==> NoneComesBack(sources)
  {
    if NoneComesBack(sources) {
      forall t, data, key, id | Sources(data) == sources
        ensures LatestInFiles(AllFiles(t, data), key, id) == LatestIn(t, data, key, id)
      {
        CallKeepsLatest(t, data, key, id);
        FilesAreAcross(t, data, Grouped(data).order, key, id);
      }
    } else {
      var c: nat, a: nat, b: nat :| c < a < b < |sources| && sources[c] == sources[b] &&
        Written(sources[a]) == Written(sources[b]) && sources[a] != sources[b];
      var m := FirstOfTwo(sources, sources[c], sources[a], c);
      if sources[m] == sources[c] {
        ClashFails(sources, a, b, m);
      } else {
        ClashFails(sources, c, a, m);
      }
    }
  }

  /** An entity without a source's name between two with an empty one. */
  lemma ComingBackExample()
    ensures !KeepsLatest([Source(Some(""), None), Source(None, None), Source(Some(""), None)])
  {
    var sources := [Source(Some(""), None), Source(None, None), Source(Some(""), None)];
    assert sources[0] == sources[2] && Written(sources[1]) == Written(sources[2]);
    KeepsLatestIff(sources);
  }

  // ----- reading a directory -----

  /** The names of a directory in strict order. */
  ghost predicate IsListing(order: seq<string>, names: set<string>) {
    && (forall j: nat, k: nat :: j < k < |order| ==> Before(order[j], order[k]))
    && forall name :: name in names <==> name in order
  }

  function FilesAt(dir: Directory, order: seq<string>): seq<File>
    requires forall name :: name in order ==> name in dir
  {
    seq(|order|, k requires 0 <= k < |order| => dir[order[k]])
  }

  lemma LastOfListing(order: seq<string>, names: set<string>, last: string)
    requires IsListing(order, names) && last in names && forall n :: n in names && n != last ==> Before(n, last)
    ensures order != [] && order[|order| - 1] == last && IsListing(order[..|order| - 1], names - {last})
  {
    var front, final := order[..|order| - 1], order[|order| - 1];
    assert order == front + [final];
    var k: nat :| k < |order| && order[k] == last;
    assert final in names;
    if final != last {
      BeforeIsStrict(final, last);
    }
    forall name ensures name in names - {last} <==> name in front {
      BeforeIsStrict(name, name);
      if name in front {
        var i: nat :| i < |front| && front[i] == name;
        assert Before(order[i], order[|order| - 1]);
      }
    }
  }

  lemma EmptyListing(order: seq<string>, names: set<string>)
    requires IsListing(order, names)
    ensures order == [] <==> names == {}
  {
    if order != [] {
      assert order[0] in names;
    }
    if name :| name in names {
      assert name in order;
    }
  }

  lemma {:induction false} ListingIsUnique(a: seq<string>, b: seq<string>, names: set<string>)
    requires IsListing(a, names) && IsListing(b, names)
    ensures a == b
    decreases |a|
  {
    EmptyListing(a, names);
    EmptyListing(b, names);
    if a != [] {
      var last := a[|a| - 1];
      assert last in names;
      forall n | n in names && n != last ensures Before(n, last) {
        var k: nat :| k < |a| && a[k] == n;
      }
      LastOfListing(a, names, last);
      LastOfListing(b, names, last);
      ListingIsUnique(a[..|a| - 1], b[..|b| - 1], names - {last});
      assert a == a[..|a| - 1] + [last] && b == b[..|b| - 1] + [last];
    }
  }

  function Names(n: nat): (r: seq<string>)
    ensures |r| == n && forall k: nat :: k < n ==> r[k] == Name(k + 1)
  {
    seq(n, k requires 0 <= k < n => Name(k + 1))
  }

  lemma NamesAreListed(dir: Directory, log: seq<File>)
    requires Numbered(dir, log) && |log| < TOO_MANY
    ensures IsListing(Names(|log|), dir.Keys)
  {
    var names := Names(|log|);
    forall j: nat, k: nat | j < k < |names| ensures Before(names[j], names[k]) {
      NamesInOrder(j + 1, k + 1);
    }
    forall name | name in dir ensures name in names {
      var n: nat :| 1 <= n <= |log| && name == Name(n);
      assert names[n - 1] == name;
    }
  }

  lemma TooManyAreNotListed(n: nat, names: set<string>)
    requires n >= TOO_MANY
    ensures !IsListing(Names(n), names)
  {
    HundredMillionth();
    BeforeIsStrict(Name(TOO_MANY), Name(TOO_MANY - 1));
    assert Names(n)[TOO_MANY - 2] == Name(TOO_MANY - 1) && Names(n)[TOO_MANY - 1] == Name(TOO_MANY);
  }

  /** A numbered directory is listed in the order of its numbers exactly below 10^8 files. */
  lemma ListedInOrderIff(dir: Directory, log: seq<File>, order: seq<string>)
    requires Numbered(dir, log) && IsListing(order, dir.Keys)
    ensures order == Names(|log|) <==> |log| < TOO_MANY
    ensures |log| < TOO_MANY ==> FilesAt(dir, order) == log
  {
    if |log| < TOO_MANY {
      NamesAreListed(dir, log);
      ListingIsUnique(order, Names(|log|), dir.Keys);
    } else {
      TooManyAreNotListed(|log|, dir.Keys);
    }
  }

  lemma HundredMillionth()
    ensures Before(Name(TOO_MANY), Name(TOO_MANY - 1))
  {
    assert Pow10(4) == 10000 && Pow10(WIDTH) == TOO_MANY;
    AllNines(WIDTH);
    LengthOfName(TOO_MANY);
    LengthOfName(TOO_MANY - 1);
    OneAndZeros(WIDTH);
    FirstDifference(Name(TOO_MANY), Name(TOO_MANY - 1), 0);
  }

  lemma {:induction false} OneAndZeros(k: nat)
    ensures Pow10(k) >= 1 && Digits(Pow10(k))[0] == '1'
  {
    if k > 0 {
      OneAndZeros(k - 1);
      assert Pow10(k) / 10 == Pow10(k - 1);
    }
  }

  // ----- dump, then restore -----

  lemma {:induction false} LogKeepsLatest(calls: seq<Call>, key: Key, id: string)
    requires forall call :: call in calls ==> NoneComesBack(Sources(call.data))
    ensures LatestInFiles(Log(calls), key, id) == LatestDumped(calls, key, id)
  {
    if calls != [] {
      var front, last := calls[..|calls| - 1], calls[|calls| - 1];
      assert last in calls && forall call :: call in front ==> call in calls;
      LogKeepsLatest(front, key, id);
      KeepsLatestIff(Sources(last.data));
      LatestInFilesConcat(Log(front), AllFiles(last.dumpType, last.data), key, id);
    }
  }

  /**
    For any calls writing fewer than 10^8 files in which no source comes back: reading the directory in the order
    of its names yields, for each type, source and id, the version that was dumped last.
   */
  lemma RestoreFindsLatest(calls: seq<Call>, order: seq<string>, key: Key, id: string)
    requires |Log(calls)| < TOO_MANY && IsListing(order, Dump(calls).Keys)
    requires forall call :: call in calls ==> NoneComesBack(Sources(call.data))
    ensures var r := Restored(FilesAt(Dump(calls), order));
            r.Some? ==> Find(r.value, key, id) == LatestDumped(calls, key, id)
  {
    DumpKeepsEveryFile(calls);
    ListedInOrderIff(Dump(calls), Log(calls), order);
    RestoredIsLatest(Log(calls), key, id);
    LogKeepsLatest(calls, key, id);
  }

  lemma {:induction false} IdentifiedContents(files: seq<File>, t: DumpType)
    requires forall f :: f in files ==> f.dumpType == t
    ensures Identified(t, Contents(files)) <==> forall f :: f in files ==> Identified(t, f.items)
  {
    if files != [] {
      var front, last := files[..|files| - 1], files[|files| - 1];
      assert files == front + [last];
      IdentifiedContents(front, t);
    }
  }

  lemma {:induction false} IdentifiedItems(t: DumpType, data: seq<Raw>, s: Source)
    ensures Identified(t, ItemsOf(data, s)) <==>
            forall raw :: raw in data && SourceOf(raw) == s ==> UniqueId(t, raw.entity).Some?
  {
    if data != [] {
      assert data == data[..|data| - 1] + [data[|data| - 1]];
      IdentifiedItems(t, data[..|data| - 1], s);
    }
  }

  predicate AllIdentified(call: Call) {
    forall raw :: raw in call.data ==> UniqueId(call.dumpType, raw.entity).Some?
  }

  lemma {:induction false} IdentifiedSources(t: DumpType, data: seq<Raw>, order: seq<Source>)
    ensures FilesIdentified(FilesOfSources(t, data, order)) <==>
            forall raw :: raw in data && SourceOf(raw) in order ==> UniqueId(t, raw.entity).Some?
  {
    if order != [] {
      var front, s := order[..|order| - 1], order[|order| - 1];
      assert order == front + [s];
      IdentifiedSources(t, data, front);
      ChunksConcatenate(t, s, ItemsOf(data, s));
      IdentifiedContents(FilesOf(t, s, ItemsOf(data, s)), t);
      IdentifiedItems(t, data, s);
      FilesIdentifiedConcat(FilesOfSources(t, data, front), FilesOf(t, s, ItemsOf(data, s)));
    }
  }

  predicate FilesIdentified(files: seq<File>) {
    forall f :: f in files ==> Identified(f.dumpType, f.items)
  }

  lemma IdentifiedCall(call: Call)
    ensures FilesIdentified(AllFiles(call.dumpType, call.data)) <==> AllIdentified(call)
  {
    IdentifiedSources(call.dumpType, call.data, Grouped(call.data).order);
    forall raw | raw in call.data ensures SourceOf(raw) in Grouped(call.data).order {
      var k: nat :| k < |call.data| && call.data[k] == raw;
      SeenIsBucketed(call.data, SourceOf(raw));
      assert SeenBefore(call.data, SourceOf(raw), |call.data|);
    }
  }

  lemma {:induction false} IdentifiedLog(calls: seq<Call>)
    ensures FilesIdentified(Log(calls)) <==> forall call :: call in calls ==> AllIdentified(call)
  {
    if calls != [] {
      var front, last := calls[..|calls| - 1], calls[|calls| - 1];
      assert calls == front + [last];
      IdentifiedLog(front);
      IdentifiedCall(last);
      FilesIdentifiedConcat(Log(front), AllFiles(last.dumpType, last.data));
    }
  }

  lemma FilesIdentifiedConcat(a: seq<File>, b: seq<File>)
    ensures FilesIdentified(a + b) <==> FilesIdentified(a) && FilesIdentified(b)
  {
    assert forall f :: f in a + b <==> f in a || f in b;
  }

  /** The restore fails exactly if some dumped entity lacks the field that identifies it. */
  lemma RestoreFailsIff(calls: seq<Call>, order: seq<string>)
    requires |Log(calls)| < TOO_MANY && IsListing(order, Dump(calls).Keys)
    ensures Restored(FilesAt(Dump(calls), order)).None? <==> exists call :: call in calls && !AllIdentified(call)
  {
    DumpKeepsEveryFile(calls);
    ListedInOrderIff(Dump(calls), Log(calls), order);
    RestoredIsLatest(Log(calls), Key(ANY, Source(None, None)), "");
    IdentifiedLog(calls);
  }

  // ----- the operations -----

  class SnapshotRestore {
    var entities: Entities

    /** Adds the entities of one file; false if one of them lacks the field that identifies it. */
    method UpdateEntities(f: File) returns (ok: bool)
      modifies this
      ensures match Updated(old(entities), f) case Some(r) => ok && entities == r case None => !ok
    {
      var key := KeyOf(f);
      if key !in entities {
        entities := entities[key := map[]];
      }
      ghost var known := entities[key];
      for k := 0 to |f.items|
        invariant key in entities && Merged(known, f.dumpType, f.items[..k]) == Some(entities[key])
        invariant entities == old(entities)[key := entities[key]]
      {
        assert f.items[..k + 1][..k] == f.items[..k];
        var id := UniqueId(f.dumpType, f.items[k]);
        if id.None? {
          MergedIsLatest(known, f.dumpType, f.items, "");
          assert !Identified(f.dumpType, f.items) by { assert f.items[k] in f.items; }
          return false;
        }
        entities := entities[key := entities[key][id.value := f.items[k]]];
      }
      assert f.items[..|f.items|] == f.items;
      ok := true;
    }

    method ParseAndRestore(dir: Directory) returns (ok: bool, ghost order: seq<string>)
      modifies this
      ensures IsListing(order, dir.Keys)
      ensures match Restored(FilesAt(dir, order)) case Some(r) => ok && entities == r case None => !ok
    {
      entities := map[];
      var names := Sorted(dir.Keys);
      order := names;
      for k := 0 to |names|
        invariant Restored(FilesAt(dir, names)[..k]) == Some(entities)
      {
        assert FilesAt(dir, names)[..k + 1][..k] == FilesAt(dir, names)[..k];
        ok := UpdateEntities(dir[names[k]]);
        if !ok {
          RestoreStopsHere(FilesAt(dir, names), k + 1);
          return;
        }
      }
      assert FilesAt(dir, names)[..|names|] == FilesAt(dir, names);
      ok := true;
    }
  }

  lemma {:induction false} RestoreStopsHere(files: seq<File>, k: nat)
    requires k <= |files| && Restored(files[..k]).None?
    ensures Restored(files).None?
    decreases |files|
  {
    if k == |files| {
      assert files[..k] == files;
    } else {
      assert files[..|files| - 1][..k] == files[..k];
      RestoreStopsHere(files[..|files| - 1], k);
    }
  }

  method Sorted(names: set<string>) returns (order: seq<string>)
    ensures IsListing(order, names)
  {
    order := [];
    var rest := names;
    while rest != {}
      invariant rest <= names && IsListing(order, names - rest)
      invariant forall a, b :: a in rest && b in order ==> Before(a, b)
    {
      var last := Last(rest);
      forall name ensures name in names - (rest - {last}) <==> name in [last] + order {
      }
      order := [last] + order;
      rest := rest - {last};
    }
    assert names - {} == names;
  }

  method Last(names: set<string>) returns (last: string)
    requires names != {}
    ensures last in names && forall n :: n in names && n != last ==> Before(n, last)
  {
    last :| last in names;
    var todo := names - {last};
    while todo != {}
      invariant todo <= names && last in names - todo
      invariant forall n :: n in names - todo && n != last ==> Before(n, last)
    {
      var name :| name in todo;
      BeforeIsTotal(name, last);
      if Before(last, name) {
        forall n | n in names - todo && n != last ensures Before(n, name) {
          BeforeIsTransitive(n, last, name);
        }
        last := name;
      }
      todo := todo - {name};
    }
  }
}
