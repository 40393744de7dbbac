/**
  Dumping entities: grouped by their source, cut into files of limited size, and written under the next free
  numbers of a directory.
 */
module SnapshotDump {
  import opened Options
  import opened SnapshotNames

  /** The fields of an entity. */
  type Entity = map<string, string>

  datatype DumpType = Sites | Tenants | UserGroups | Permissions | Secrets | Users | Other(name: string)

  /** Where an entity comes from: the same for all entities of a file. */
  datatype Source = Source(name: Option<string>, id: Option<string>)

  datatype Raw = Plain(entity: Entity) | Wrapped(entity: Entity, source: Source)

  datatype File = File(dumpType: DumpType, source: Source, items: seq<Entity>)

  type Directory = map<string, File>

  const BATCH: nat := 500

  function SourceOf(raw: Raw): Source {
    if raw.Wrapped? then raw.source else Source(None, None)
  }

  function NonEmpty(s: Option<string>): Option<string> {
    if s == Some("") then None else s
  }

  /** Empty names are not written to the file, and read as missing. */
  function Written(s: Source): Source {
    Source(NonEmpty(s.name), NonEmpty(s.id))
  }

  // ----- grouping by source -----

  /** A dictionary with its keys in the order of insertion. */
  datatype Buckets = Buckets(order: seq<Source>, items: map<Source, seq<Entity>>)

  function AddTo(b: Buckets, raw: Raw): Buckets {
    var s := SourceOf(raw);
    if s in b.items then b.(items := b.items[s := b.items[s] + [raw.entity]])
    else Buckets(b.order + [s], b.items[s := [raw.entity]])
  }

  function Grouped(data: seq<Raw>): Buckets {
    if data == [] then Buckets([], map[]) else AddTo(Grouped(data[..|data| - 1]), data[|data| - 1])
  }

  /** The entities of one source, in the order of the data. */
  function ItemsOf(data: seq<Raw>, s: Source): seq<Entity> {
    if data == [] then []
    else
      var last := data[|data| - 1];
      ItemsOf(data[..|data| - 1], s) + if SourceOf(last) == s then [last.entity] else []
  }

  ghost predicate IsGrouped(b: Buckets, data: seq<Raw>) {
    && (forall s :: s in b.order <==> s in b.items)
    && (forall j: nat, k: nat :: j < k < |b.order| ==> b.order[j] != b.order[k])
    && (forall s :: s in b.items ==> b.items[s] == ItemsOf(data, s))
    && (forall s :: s !in b.items ==> ItemsOf(data, s) == [])
  }

  lemma AddOne(b: Buckets, data: seq<Raw>, raw: Raw)
    requires IsGrouped(b, data)
    ensures IsGrouped(AddTo(b, raw), data + [raw])
  {
    assert (data + [raw])[..|data|] == data;
    var after := AddTo(b, raw);
    forall s ensures s in after.order <==> s in after.items {
      assert s in after.order <==> s in b.order || s == SourceOf(raw);
    }
    forall s ensures if s in after.items then after.items[s] == ItemsOf(data + [raw], s) else ItemsOf(data + [raw], s) == [] {
    }
  }

  /** The buckets are in the order their sources are first seen, and hold exactly the entities of their source. */
  lemma {:induction false} GroupedBySource(data: seq<Raw>)
    ensures IsGrouped(Grouped(data), data)
  {
    if data != [] {
      GroupedBySource(data[..|data| - 1]);
      AddOne(Grouped(data[..|data| - 1]), data[..|data| - 1], data[|data| - 1]);
      assert data == data[..|data| - 1] + [data[|data| - 1]];
    }
  }

  /** `picks` are the places in the data at which the source is found, all of them and from front to back. */
  ghost predicate IsPickedBySource(data: seq<Raw>, s: Source, items: seq<Entity>, picks: seq<nat>) {
    && |picks| == |items|
    && (forall k :: 0 <= k < |picks| ==> picks[k] < |data| && SourceOf(data[picks[k]]) == s && items[k] == data[picks[k]].entity)
    && (forall j, k :: 0 <= j < k < |picks| ==> picks[j] < picks[k])
    && forall i: nat :: i < |data| && SourceOf(data[i]) == s ==> i in picks
  }

  /** A bucket loses no entity of its source, repeats none, and keeps their order. */
  lemma {:induction false} ItemsOfArePicked(data: seq<Raw>, s: Source) returns (picks: seq<nat>)
    ensures IsPickedBySource(data, s, ItemsOf(data, s), picks)
  {
    if data == [] {
      picks := [];
    } else {
      var front, n := data[..|data| - 1], |data| - 1;
      picks := ItemsOfArePicked(front, s);
      picks := PickedOneMore(data, s, n, ItemsOf(front, s), picks);
    }
  }

  lemma PickedOneMore(data: seq<Raw>, s: Source, n: nat, items: seq<Entity>, picks: seq<nat>) returns (more: seq<nat>)
    requires |data| == n + 1 && IsPickedBySource(data[..n], s, items, picks)
    ensures IsPickedBySource(data, s, items + if SourceOf(data[n]) == s then [data[n].entity] else [], more)
  {
    forall i: nat | i < n ensures data[i] == data[..n][i] {}
    more := picks;
    if SourceOf(data[n]) == s {
      more := picks + [n];
      assert more[|picks|] == n && forall i :: i in picks ==> i in more;
    }
  }

  // ----- chunks -----

  function FileCount(items: seq<Entity>): nat {
    |items| / BATCH + if |items| % BATCH != 0 then 1 else 0
  }

  function Chunk(items: seq<Entity>, i: nat): seq<Entity>
    requires i < FileCount(items)
  {
    items[i * BATCH..if (i + 1) * BATCH <= |items| then (i + 1) * BATCH else |items|]
  }

  /** The files of one source, each with the next entities. */
  function FilesOf(t: DumpType, s: Source, items: seq<Entity>): (r: seq<File>)
    ensures |r| == FileCount(items)
    ensures forall i: nat :: i < |r| ==> r[i] == File(t, Written(s), Chunk(items, i))
  {
    seq(FileCount(items), i requires 0 <= i < FileCount(items) => File(t, Written(s), Chunk(items, i)))
  }

  function Contents(files: seq<File>): seq<Entity> {
    if files == [] then [] else Contents(files[..|files| - 1]) + files[|files| - 1].items
  }

  function Upto(items: seq<Entity>, count: nat): seq<Entity> {
    items[..if count * BATCH <= |items| then count * BATCH else |items|]
  }

  lemma ChunkContinues(items: seq<Entity>, i: nat)
    requires i < FileCount(items)
    ensures Upto(items, i) + Chunk(items, i) == Upto(items, i + 1) && 0 < |Chunk(items, i)| <= BATCH
  {
  }

  lemma {:induction false} ChunksConcatenateUpTo(t: DumpType, s: Source, items: seq<Entity>, n: nat)
    requires n <= FileCount(items)
    ensures Contents(FilesOf(t, s, items)[..n]) == Upto(items, n)
  {
    if n > 0 {
      ChunksConcatenateUpTo(t, s, items, n - 1);
      ChunkContinues(items, n - 1);
      var files := FilesOf(t, s, items);
      assert files[..n][..n - 1] == files[..n - 1];
    }
  }

  /** The files of a source hold its entities, all of them and in order, none empty or too long. */
  lemma ChunksConcatenate(t: DumpType, s: Source, items: seq<Entity>)
    ensures var files := FilesOf(t, s, items);
            && Contents(files) == items
            && forall f :: f in files ==> f.dumpType == t && f.source == Written(s) && 0 < |f.items| <= BATCH
  {
    var files := FilesOf(t, s, items);
    ChunksConcatenateUpTo(t, s, items, FileCount(items));
    assert files[..FileCount(items)] == files;
    forall i: nat | i < |files| ensures 0 < |files[i].items| <= BATCH {
      ChunkContinues(items, i);
    }
  }

  // ----- one call -----

  function FilesOfSources(t: DumpType, data: seq<Raw>, order: seq<Source>): seq<File> {
    if order == [] then []
    else
      var s := order[|order| - 1];
      FilesOfSources(t, data, order[..|order| - 1]) + FilesOf(t, s, ItemsOf(data, s))
  }

  function AllFiles(t: DumpType, data: seq<Raw>): seq<File> {
    FilesOfSources(t, data, Grouped(data).order)
  }

  /** The first `n` files are written under the numbers after `last`. */
  function Put(dir: Directory, last: nat, files: seq<File>, n: nat): Directory
    requires n <= |files|
  {
    if n == 0 then dir else Put(dir, last, files, n - 1)[Name(last + n) := files[n - 1]]
  }

  ghost predicate IsLast(name: string, dir: Directory) {
    name in dir && IsDump(name) && forall n :: n in dir && IsDump(n) && n != name ==> Before(n, name)
  }

  /** The number of the last name in the directory. */
  ghost function LastNumber(dir: Directory): nat {
    if name :| IsLast(name, dir) then NumberOrZero(name) else 0
  }

  function NumberOrZero(name: string): nat
    requires IsDump(name)
  {
    match Number(name) case Some(n) => n case None => 0
  }

  lemma LastIsUnique(dir: Directory, name: string)
    requires IsLast(name, dir)
    ensures LastNumber(dir) == NumberOrZero(name)
  {
    var other :| IsLast(other, dir) && LastNumber(dir) == NumberOrZero(other);
    if other != name {
      BeforeIsStrict(name, other);
    }
  }

  ghost function AfterWriting(dir: Directory, t: DumpType, data: seq<Raw>): Directory {
    Put(dir, LastNumber(dir), AllFiles(t, data), |AllFiles(t, data)|)
  }

  function Ids(data: seq<Raw>): set<string> {
    set raw | raw in data && "id" in raw.entity && raw.entity["id"] != "" :: raw.entity["id"]
  }

  // ----- numbered directories -----

  /** The directory holds exactly the files of the log, numbered from 1. */
  ghost predicate Numbered(dir: Directory, log: seq<File>) {
    && (forall n: nat :: 1 <= n <= |log| ==> Name(n) in dir && dir[Name(n)] == log[n - 1])
    && forall name :: name in dir ==> exists n: nat :: 1 <= n <= |log| && name == Name(n)
  }

  lemma LastNumberIs(dir: Directory, log: seq<File>)
    requires Numbered(dir, log) && ComesLast(|log|)
    ensures LastNumber(dir) == |log|
  {
    if log != [] {
      var name := Name(|log|);
      NameIsNumbered(|log|);
      forall other | other in dir && IsDump(other) && other != name ensures Before(other, name) {
        var n: nat :| 1 <= n <= |log| && other == Name(n);
      }
      LastIsUnique(dir, name);
    }
  }

  lemma NewestIsNotLast(dir: Directory, log: seq<File>)
    requires Numbered(dir, log) && !ComesLast(|log|)
    ensures !IsLast(Name(|log|), dir)
  {
    var m: nat :| 1 <= m < |log| && !Before(Name(m), Name(|log|));
    NameIsNumbered(m);
    NameIsNumbered(|log|);
    assert Name(m) in dir && Name(m) != Name(|log|);
  }

  lemma LastNumberIsTooSmall(dir: Directory, log: seq<File>)
    requires Numbered(dir, log) && !ComesLast(|log|)
    ensures LastNumber(dir) < |log|
  {
    NewestIsNotLast(dir, log);
    if name :| IsLast(name, dir) && LastNumber(dir) == NumberOrZero(name) {
      var n: nat :| 1 <= n <= |log| && name == Name(n);
      NameIsNumbered(n);
    }
  }

  lemma PutOneAppends(dir: Directory, log: seq<File>, n: nat, file: File, after: Directory, more: seq<File>)
    requires Numbered(dir, log) && n == |log| + 1
    requires after == dir[Name(n) := file] && more == log + [file]
    ensures Numbered(after, more)
  {
    forall m: nat | 1 <= m <= |log| ensures Name(m) != Name(n) {
      if Name(m) == Name(n) {
        NamesDiffer(m, n);
      }
    }
  }

  lemma PutLastAppends(dir: Directory, log: seq<File>, files: seq<File>, n: nat)
    requires 0 < n <= |files| && Numbered(Put(dir, |log|, files, n - 1), log + files[..n - 1])
    ensures Numbered(Put(dir, |log|, files, n), log + files[..n])
  {
    OneMoreOf(log, files, n);
    PutOneAppends(Put(dir, |log|, files, n - 1), log + files[..n - 1], |log| + n, files[n - 1],
      Put(dir, |log|, files, n), log + files[..n]);
  }

  lemma {:induction false} PutAppends(dir: Directory, log: seq<File>, files: seq<File>, n: nat)
    requires Numbered(dir, log) && n <= |files|
    ensures Numbered(Put(dir, |log|, files, n), log + files[..n])
  {
    if n == 0 {
      NoneOf(log, files);
    } else {
      PutAppends(dir, log, files, n - 1);
      PutLastAppends(dir, log, files, n);
    }
  }

  lemma NoneOf(log: seq<File>, files: seq<File>)
    ensures log + files[..0] == log
  {
  }

  lemma OneMoreOf(log: seq<File>, files: seq<File>, n: nat)
    requires 0 < n <= |files|
    ensures log + files[..n] == log + files[..n - 1] + [files[n - 1]]
  {
  }

  /** Whether a call with any files overwrites one that is already there. */
  ghost predicate Overwrites(dir: Directory, files: seq<File>) {
    exists n: nat :: LastNumber(dir) < n <= LastNumber(dir) + |files| && Name(n) in dir
  }

  /**
    No file is overwritten exactly while there are fewer than 10^8 of them, or if all digits of their number
    but the last are nines.
   */
  lemma OverwritesIff(dir: Directory, log: seq<File>, files: seq<File>)
    requires Numbered(dir, log) && files != []
    ensures Overwrites(dir, files) <==> !(|log| < TOO_MANY || NinesButLast(|log|))
  {
    ComesLastIff(|log|);
    if ComesLast(|log|) {
      LastNumberIs(dir, log);
      forall n: nat | n > |log| ensures Name(n) !in dir {
        if Name(n) in dir {
          var m: nat :| 1 <= m <= |log| && Name(n) == Name(m);
          NamesDiffer(m, n);
        }
      }
    } else {
      LastNumberIsTooSmall(dir, log);
      assert Name(LastNumber(dir) + 1) in dir;
    }
  }

  /** With the file number 10^8 written, the next one replaces an earlier file. */
  lemma OverwriteExample(file: File)
    ensures exists dir, log :: |log| == TOO_MANY && Numbered(dir, log) && Overwrites(dir, [file])
  {
    var log := seq(TOO_MANY, i => file);
    var dir: Directory := map n: nat | 1 <= n <= TOO_MANY :: Name(n) := file;
    assert Numbered(dir, log);
    OverwritesIff(dir, log, [file]);
    DigitsOfTooMany();
  }

  lemma DigitsOfTooMany()
    ensures !NinesButLast(TOO_MANY)
  {
    var tens := Digits(TOO_MANY / 10);
    assert TOO_MANY % 10 == 0 && TOO_MANY / 10 % 10 == 0;
    assert Digits(TOO_MANY) == tens + ['0'] && tens[|tens| - 1] == '0';
    assert Digits(TOO_MANY)[|tens| - 1] == '0';
  }

  // ----- a directory over several calls -----

  datatype Call = Call(dumpType: DumpType, data: seq<Raw>)

  ghost function Dump(calls: seq<Call>): Directory {
    if calls == [] then map[]
    else
      var last := calls[|calls| - 1];
      AfterWriting(Dump(calls[..|calls| - 1]), last.dumpType, last.data)
  }

  function Log(calls: seq<Call>): seq<File> {
    if calls == [] then []
    else Log(calls[..|calls| - 1]) + AllFiles(calls[|calls| - 1].dumpType, calls[|calls| - 1].data)
  }

  /** Any calls that write fewer than 10^8 files keep all of them, in the order they were written. */
  lemma {:induction false} DumpKeepsEveryFile(calls: seq<Call>)
    requires |Log(calls)| < TOO_MANY
    ensures Numbered(Dump(calls), Log(calls))
  {
    if calls != [] {
      var front, last := calls[..|calls| - 1], calls[|calls| - 1];
      DumpKeepsEveryFile(front);
      ComesLastIff(|Log(front)|);
      LastNumberIs(Dump(front), Log(front));
      var files := AllFiles(last.dumpType, last.data);
      PutAppends(Dump(front), Log(front), files, |files|);
      assert files[..|files|] == files;
    }
  }

  // ----- the operations -----

  method GetMaxFilenumInDir(dir: Directory) returns (n: nat)
    ensures n == LastNumber(dir)
  {
    var last: Option<string>, todo := None, dir.Keys;
    while todo != {}
      invariant todo <= dir.Keys
      invariant last.Some? ==> IsDump(last.value) && last.value in dir.Keys - todo
      invariant forall name :: name in dir.Keys - todo && IsDump(name) ==>
        last.Some? && (name == last.value || Before(name, last.value))
    {
      var name :| name in todo;
      if IsDump(name) && (last.None? || Before(last.value, name)) {
        if last.Some? {
          AllBefore(dir.Keys - todo, last.value, name);
        }
        last := Some(name);
      } else if last.Some? {
        BeforeIsTotal(name, last.value);
      }
      todo := todo - {name};
    }
    if last.None? {
      n := 0;
    } else {
      assert IsLast(last.value, dir);
      LastIsUnique(dir, last.value);
      n := NumberOrZero(last.value);
    }
  }

  lemma AllBefore(names: set<string>, last: string, name: string)
    requires forall n :: n in names && IsDump(n) ==> n == last || Before(n, last)
    requires Before(last, name)
    ensures forall n :: n in names && IsDump(n) ==> Before(n, name)
  {
    forall n | n in names && IsDump(n) && n != last ensures Before(n, name) {
      BeforeIsTransitive(n, last, name);
    }
  }

  lemma MoreIds(data: seq<Raw>, k: nat)
    requires k < |data|
    ensures var e := data[k].entity;
            Ids(data[..k + 1]) == Ids(data[..k]) + if "id" in e && e["id"] != "" then {e["id"]} else {}
  {
    assert data[..k + 1] == data[..k] + [data[k]];
  }

  method PrepareBuckets(data: seq<Raw>) returns (order: seq<Source>, items: map<Source, seq<Entity>>, ids: set<string>)
    ensures Buckets(order, items) == Grouped(data) && ids == Ids(data)
  {
    order, items, ids := [], map[], {};
    for k := 0 to |data|
      invariant Buckets(order, items) == Grouped(data[..k]) && ids == Ids(data[..k])
    {
      assert data[..k + 1][..k] == data[..k];
      MoreIds(data, k);
      var raw := data[k];
      var s := SourceOf(raw);
      if s !in items {
        order, items := order + [s], items[s := []];
      }
      assert items[s] == [] ==> items[s] + [raw.entity] == [raw.entity];
      items := items[s := items[s] + [raw.entity]];
      if "id" in raw.entity && raw.entity["id"] != "" {
        ids := ids + {raw.entity["id"]};
      }
    }
    assert data[..|data|] == data;
  }

  lemma {:induction false} SourcesInOrder(t: DumpType, data: seq<Raw>, order: seq<Source>, k: nat)
    requires k < |order|
    ensures var before, mine := FilesOfSources(t, data, order[..k]), FilesOf(t, order[k], ItemsOf(data, order[k]));
            before + mine == FilesOfSources(t, data, order[..k + 1]) <= FilesOfSources(t, data, order)
    decreases |order|
  {
    assert order[..k + 1][..k] == order[..k];
    if k == |order| - 1 {
      assert order[..k + 1] == order;
    } else {
      var front := order[..|order| - 1];
      SourcesInOrder(t, data, front, k);
      assert front[..k] == order[..k] && front[..k + 1] == order[..k + 1];
    }
  }

  lemma Slot(before: seq<File>, mine: seq<File>, all: seq<File>)
    requires before + mine <= all
    ensures |before| + |mine| <= |all| && all[|before|..|before| + |mine|] == mine
  {
    assert forall i: nat :: i < |mine| ==> all[|before| + i] == (before + mine)[|before| + i] == mine[i];
  }

  /** Where the files of a source are among all files of a call. */
  lemma SlotOfSource(t: DumpType, data: seq<Raw>, order: seq<Source>, k: nat)
    requires k < |order|
    ensures var done := |FilesOfSources(t, data, order[..k])|;
            var all, mine := FilesOfSources(t, data, order), FilesOf(t, order[k], ItemsOf(data, order[k]));
            && done + |mine| <= |all| && all[done..done + |mine|] == mine
            && done + |mine| == |FilesOfSources(t, data, order[..k + 1])|
  {
    SourcesInOrder(t, data, order, k);
    Slot(FilesOfSources(t, data, order[..k]), FilesOf(t, order[k], ItemsOf(data, order[k])),
      FilesOfSources(t, data, order));
  }

  /** The directory once the files of the first `k` sources are written. */
  ghost function Progress(dir: Directory, t: DumpType, data: seq<Raw>, order: seq<Source>, k: nat): (Directory, nat)
    requires k <= |order|
  {
    At(dir, LastNumber(dir), FilesOfSources(t, data, order), |FilesOfSources(t, data, order[..k])|)
  }

  function At(dir: Directory, last: nat, files: seq<File>, n: nat): (Directory, nat) {
    if n <= |files| then (Put(dir, last, files, n), last + n) else (dir, last)
  }

  lemma ProgressEnds(dir: Directory, t: DumpType, data: seq<Raw>, order: seq<Source>)
    ensures Progress(dir, t, data, order, 0) == (dir, LastNumber(dir))
    ensures order == Grouped(data).order ==> Progress(dir, t, data, order, |order|).0 == AfterWriting(dir, t, data)
  {
    assert order[..0] == [] && order[..|order|] == order;
  }

  /** The files of one source are those of `all` from place `done` on. */
  ghost predicate InPlace(all: seq<File>, done: nat, t: DumpType, s: Source, items: seq<Entity>) {
    done + FileCount(items) <= |all| && all[done..done + FileCount(items)] == FilesOf(t, s, items)
  }

  lemma FileInPlace(all: seq<File>, done: nat, t: DumpType, s: Source, items: seq<Entity>, i: nat)
    requires InPlace(all, done, t, s, items) && i < FileCount(items)
    ensures done + i < |all| && all[done + i] == File(t, Written(s), Chunk(items, i))
  {
    assert all[done + i] == all[done..done + FileCount(items)][i];
  }

  lemma ProgressStep(dir: Directory, t: DumpType, data: seq<Raw>, order: seq<Source>, k: nat, s: Source, items: seq<Entity>)
    returns (all: seq<File>, done: nat)
    requires k < |order| && s == order[k] && items == ItemsOf(data, s)
    ensures InPlace(all, done, t, s, items)
    ensures Progress(dir, t, data, order, k) == At(dir, LastNumber(dir), all, done)
    ensures Progress(dir, t, data, order, k + 1) == At(dir, LastNumber(dir), all, done + FileCount(items))
  {
    SlotOfSource(t, data, order, k);
    all, done := FilesOfSources(t, data, order), |FilesOfSources(t, data, order[..k])|;
    AtSame(dir, LastNumber(dir), all, |FilesOfSources(t, data, order[..k + 1])|, done + FileCount(items));
  }

  lemma AtNext(dir: Directory, last: nat, files: seq<File>, n: nat, now: Directory, number: nat)
    requires n < |files| && (now, number) == At(dir, last, files, n)
    ensures At(dir, last, files, n + 1) == (now[Name(number + 1) := files[n]], number + 1)
  {
  }

  lemma AtSame(dir: Directory, last: nat, files: seq<File>, m: nat, n: nat)
    requires m == n
    ensures At(dir, last, files, m) == At(dir, last, files, n)
  {
  }

  class SnapshotCreate {
    var files: Directory

    /** Writes file number `n` of the call, under the next number. */
    method WriteFile(file: File, last: nat, ghost dir: Directory, ghost first: nat, ghost all: seq<File>, ghost n: nat,
        ghost more: nat)
      returns (filenum: nat)
      requires n < |all| && all[n] == file && more == n + 1
      requires (files, last) == At(dir, first, all, n)
      modifies this
      ensures (files, filenum) == At(dir, first, all, more)
    {
      AtNext(dir, first, all, n, files, last);
      filenum := last + 1;
      files := files[Name(filenum) := file];
    }

    /** Writes the files of one source, whose place among all files of the call is known. */
    method WriteSource(t: DumpType, s: Source, items: seq<Entity>, start: nat,
        ghost dir: Directory, ghost first: nat, ghost all: seq<File>, ghost done: nat)
      returns (filenum: nat)
      requires InPlace(all, done, t, s, items)
      requires (files, start) == At(dir, first, all, done)
      modifies this
      ensures (files, filenum) == At(dir, first, all, done + FileCount(items))
    {
      filenum := start;
      var count := FileCount(items);
      for i := 0 to count
        invariant (files, filenum) == At(dir, first, all, done + i)
      {
        FileInPlace(all, done, t, s, items, i);
        var file := File(t, Written(s), Chunk(items, i));
        filenum := WriteFile(file, filenum, dir, first, all, done + i, done + (i + 1));
      }
    }

    method WriteNext(t: DumpType, source: Source, items: seq<Entity>, start: nat,
        ghost dir: Directory, ghost data: seq<Raw>, ghost order: seq<Source>, ghost k: nat)
      returns (filenum: nat)
      requires k < |order| && source == order[k] && items == ItemsOf(data, source)
      requires (files, start) == Progress(dir, t, data, order, k)
      modifies this
      ensures (files, filenum) == Progress(dir, t, data, order, k + 1)
    {
      ghost var all, done := ProgressStep(dir, t, data, order, k, source, items);
      filenum := WriteSource(t, source, items, start, dir, LastNumber(dir), all, done);
    }

    method WriteFiles(t: DumpType, data: seq<Raw>) returns (ids: set<string>)
      modifies this
      ensures files == AfterWriting(old(files), t, data) && ids == Ids(data)
    {
      var order, items;
      order, items, ids := PrepareBuckets(data);
      GroupedBySource(data);
      ghost var dir := files;
      var filenum := GetMaxFilenumInDir(files);
      ProgressEnds(dir, t, data, order);
      for k := 0 to |order|
        invariant (files, filenum) == Progress(dir, t, data, order, k)
      {
        assert order[k] in order;
        filenum := WriteNext(t, order[k], items[order[k]], filenum, dir, data, order, k);
      }
    }
  }
}
