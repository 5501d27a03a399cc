/**
 The repository of known roms (src/data/hash_map.h, src/data/entry.h): records of sizes and
 digests, merged when they agree, behind one index for each kind of digest.
 */
module HashMap {
  import opened Optional

  /** Size and digests of a rom, each of them enabled or not. */
  datatype HashData = HashData(size: Option<nat>, crc32: Option<nat>, md5: Option<nat>, sha1: Option<nat>)

  /** A record: what is known, and the roms that refer to it. */
  datatype Record<Rom> = Record(hash: HashData, roms: seq<Rom>, references: nat)

  /** The records, and for each kind of digest the record it leads to. */
  datatype Repository<Rom> = Repository(data: seq<Record<Rom>>, crc32map: map<nat, nat>, md5map: map<nat, nat>, sha1map: map<nat, nat>)

  predicate FieldMatches<T(==)>(a: Option<T>, b: Option<T>) {
    a.None? || b.None? || a == b
  }

  /** `operator==`: no field that both have enabled tells them apart. */
  predicate Compatible(a: HashData, b: HashData) {
    FieldMatches(a.size, b.size) && FieldMatches(a.crc32, b.crc32) && FieldMatches(a.md5, b.md5) && FieldMatches(a.sha1, b.sha1)
  }

  function MergedField<T>(a: Option<T>, b: Option<T>): Option<T> {
    if b.Some? then b else a
  }

  /** `operator+=` */
  function Merged(a: HashData, b: HashData): HashData {
    HashData(MergedField(a.size, b.size), MergedField(a.crc32, b.crc32), MergedField(a.md5, b.md5), MergedField(a.sha1, b.sha1))
  }

  predicate FieldWithin<T(==)>(a: Option<T>, b: Option<T>) {
    a.Some? ==> a == b
  }

  /** Everything that `a` says, `b` says too. */
  predicate Within(a: HashData, b: HashData) {
    FieldWithin(a.size, b.size) && FieldWithin(a.crc32, b.crc32) && FieldWithin(a.md5, b.md5) && FieldWithin(a.sha1, b.sha1)
  }

  /** Merging loses nothing of either side exactly when they are compatible. */
  lemma MergeKeepsExactly(a: HashData, b: HashData)
    ensures Within(b, Merged(a, b)) && (Within(a, Merged(a, b)) <==> Compatible(a, b))
  {
  }

  // ---------------------------------------------------------------------------------------
  // Adding
  // ---------------------------------------------------------------------------------------

  function Empty<Rom>(): Repository<Rom> {
    Repository([], map[], map[], map[])
  }

  /** What one index says of an entry: nothing, a record to merge with, or a collision. */
  datatype Match = Nothing | Matching(ref: nat) | Collision

  function Lookup<Rom>(r: Repository<Rom>, index: map<nat, nat>, digest: Option<nat>, entry: HashData): (m: Match)
    requires forall k :: k in index ==> index[k] < |r.data|
    ensures m.Matching? ==> m.ref < |r.data| && Compatible(entry, r.data[m.ref].hash)
  {
    if digest.None? || digest.value !in index then Nothing
    else if Compatible(entry, r.data[index[digest.value]].hash) then Matching(index[digest.value])
    else Collision
  }

  predicate InRange<Rom>(r: Repository<Rom>) {
    && (forall k :: k in r.crc32map ==> r.crc32map[k] < |r.data|)
    && (forall k :: k in r.md5map ==> r.md5map[k] < |r.data|)
    && (forall k :: k in r.sha1map ==> r.sha1map[k] < |r.data|)
  }

  function Indexed(index: map<nat, nat>, digest: Option<nat>, ref: nat): map<nat, nat> {
    if digest.Some? then index[digest.value := ref] else index
  }

  /** The entry merged into record `ref`, and indexed there. */
  function Put<Rom>(r: Repository<Rom>, ref: nat, rom: Rom, entry: HashData): Repository<Rom>
    requires ref < |r.data|
  {
    var record := r.data[ref];
    Repository(r.data[ref := Record(Merged(record.hash, entry), record.roms + [rom], record.references + 1)],
               Indexed(r.crc32map, entry.crc32, ref), Indexed(r.md5map, entry.md5, ref), Indexed(r.sha1map, entry.sha1, ref))
  }

  /** A record with nothing in it yet. */
  function Blank<Rom>(): Record<Rom> {
    Record(HashData(None, None, None, None), [], 0)
  }

  /** Where an entry belongs: of several matches the last counts, and a collision outweighs them all. */
  ghost function Destination<Rom>(r: Repository<Rom>, entry: HashData): (d: Match)
    requires InRange(r)
    ensures d.Matching? ==> d.ref < |r.data| && Compatible(entry, r.data[d.ref].hash)
  {
    var c, m, s := Lookup(r, r.crc32map, entry.crc32, entry), Lookup(r, r.md5map, entry.md5, entry), Lookup(r, r.sha1map, entry.sha1, entry);
    if c.Collision? || m.Collision? || s.Collision? then Collision
    else if s.Matching? then s
    else if m.Matching? then m
    else c
  }

  /** `add`: the repository afterwards, and the record that the entry went to. */
  ghost function Added<Rom>(r: Repository<Rom>, rom: Rom, entry: HashData): (Repository<Rom>, Option<nat>)
    requires InRange(r)
  {
    match Destination(r, entry)
    case Collision => (r, None)
    case Matching(ref) => (Put(r, ref, rom, entry), Some(ref))
    case Nothing => (Put(r.(data := r.data + [Blank()]), |r.data|, rom, entry), Some(|r.data|))
  }

  // ---------------------------------------------------------------------------------------
  // What every add keeps
  // ---------------------------------------------------------------------------------------

  function Crc32s<Rom>(data: seq<Record<Rom>>): (c: seq<Option<nat>>)
    ensures |c| == |data|
  {
    seq(|data|, i requires 0 <= i < |data| => data[i].hash.crc32)
  }

  function Md5s<Rom>(data: seq<Record<Rom>>): (c: seq<Option<nat>>)
    ensures |c| == |data|
  {
    seq(|data|, i requires 0 <= i < |data| => data[i].hash.md5)
  }

  function Sha1s<Rom>(data: seq<Record<Rom>>): (c: seq<Option<nat>>)
    ensures |c| == |data|
  {
    seq(|data|, i requires 0 <= i < |data| => data[i].hash.sha1)
  }

  /** An index points to records with the digest, and every enabled digest is in it. */
  ghost predicate IndexGood(index: map<nat, nat>, digests: seq<Option<nat>>) {
    && (forall k :: k in index ==> index[k] < |digests| && digests[index[k]] == Some(k))
    && (forall i :: 0 <= i < |digests| && digests[i].Some? ==> digests[i].value in index)
  }

  lemma IndexMerged(index: map<nat, nat>, digests: seq<Option<nat>>, ref: nat, digest: Option<nat>)
    requires IndexGood(index, digests) && ref < |digests| && FieldMatches(digest, digests[ref])
    ensures IndexGood(Indexed(index, digest, ref), digests[ref := MergedField(digests[ref], digest)])
  {
  }

  lemma IndexBlank(index: map<nat, nat>, digests: seq<Option<nat>>)
    requires IndexGood(index, digests)
    ensures IndexGood(index, digests + [None])
  {
  }

  ghost predicate AllIndexed<Rom>(r: Repository<Rom>) {
    IndexGood(r.crc32map, Crc32s(r.data)) && IndexGood(r.md5map, Md5s(r.data)) && IndexGood(r.sha1map, Sha1s(r.data))
  }

  /** A record's references are its roms. */
  ghost predicate Counted<Rom>(r: Repository<Rom>) {
    forall i :: 0 <= i < |r.data| ==> r.data[i].references == |r.data[i].roms|
  }

  ghost predicate Good<Rom>(r: Repository<Rom>) {
    AllIndexed(r) && Counted(r)
  }

  /** `after` knows everything that `before` knew, record by record. */
  ghost predicate Grown<Rom>(before: Repository<Rom>, after: Repository<Rom>) {
    && |before.data| <= |after.data|
    && forall i :: 0 <= i < |before.data| ==> Within(before.data[i].hash, after.data[i].hash) && before.data[i].roms <= after.data[i].roms
  }

  function References<Rom>(data: seq<Record<Rom>>): nat
    decreases |data|
  {
    if data == [] then 0 else data[0].references + References(data[1..])
  }

  lemma {:induction false} ReferencesAt<Rom>(data: seq<Record<Rom>>, ref: nat, record: Record<Rom>)
    requires ref < |data|
    ensures References(data[ref := record]) == References(data) - data[ref].references + record.references
    decreases |data|
  {
    if ref > 0 {
      ReferencesAt(data[1..], ref - 1, record);
      assert data[ref := record][1..] == data[1..][ref - 1 := record];
    }
  }

  lemma {:induction false} ReferencesOneMore<Rom>(data: seq<Record<Rom>>, record: Record<Rom>)
    ensures References(data + [record]) == References(data) + record.references
    decreases |data|
  {
    if data == [] {
      assert ([] + [record])[1..] == [];
    } else {
      ReferencesOneMore(data[1..], record);
      assert (data + [record])[1..] == data[1..] + [record];
    }
  }

  /** Merging a compatible entry keeps everything. */
  lemma PutKeeps<Rom>(r: Repository<Rom>, ref: nat, rom: Rom, entry: HashData)
    requires Good(r) && ref < |r.data| && Compatible(entry, r.data[ref].hash)
    ensures var t := Put(r, ref, rom, entry);
            Good(t) && Grown(r, t) && Within(entry, t.data[ref].hash) && References(t.data) == References(r.data) + 1
  {
    var t := Put(r, ref, rom, entry);
    MergeKeepsExactly(r.data[ref].hash, entry);
    ReferencesAt(r.data, ref, t.data[ref]);
    PutIndexed(r, ref, rom, entry);
    assert t.data[ref].roms[..|r.data[ref].roms|] == r.data[ref].roms;
  }

  lemma PutIndexed<Rom>(r: Repository<Rom>, ref: nat, rom: Rom, entry: HashData)
    requires AllIndexed(r) && ref < |r.data| && Compatible(entry, r.data[ref].hash)
    ensures AllIndexed(Put(r, ref, rom, entry))
  {
    hide IndexGood, Indexed;
    var t := Put(r, ref, rom, entry);
    IndexMerged(r.crc32map, Crc32s(r.data), ref, entry.crc32);
    IndexMerged(r.md5map, Md5s(r.data), ref, entry.md5);
    IndexMerged(r.sha1map, Sha1s(r.data), ref, entry.sha1);
    assert Crc32s(t.data) == Crc32s(r.data)[ref := MergedField(r.data[ref].hash.crc32, entry.crc32)];
    assert Md5s(t.data) == Md5s(r.data)[ref := MergedField(r.data[ref].hash.md5, entry.md5)];
    assert Sha1s(t.data) == Sha1s(r.data)[ref := MergedField(r.data[ref].hash.sha1, entry.sha1)];
  }

  lemma BlankKeeps<Rom>(r: Repository<Rom>)
    requires Good(r)
    ensures var t := r.(data := r.data + [Blank()]); Good(t) && Grown(r, t) && References(t.data) == References(r.data)
  {
    hide IndexGood, References;
    ReferencesOneMore(r.data, Blank());
    var t := r.(data := r.data + [Blank()]);
    IndexBlank(r.crc32map, Crc32s(r.data));
    IndexBlank(r.md5map, Md5s(r.data));
    IndexBlank(r.sha1map, Sha1s(r.data));
    assert Crc32s(t.data) == Crc32s(r.data) + [None] && Md5s(t.data) == Md5s(r.data) + [None] && Sha1s(t.data) == Sha1s(r.data) + [None];
  }

  /**
   An add keeps the repository good; a rejected one changes nothing, an accepted one adds one
   reference, puts everything the entry says into its record and takes nothing from any record.
   */
  lemma AddKeeps<Rom>(r: Repository<Rom>, rom: Rom, entry: HashData)
    requires Good(r)
    ensures InRange(r)
    ensures var (t, ref) := Added(r, rom, entry);
            Good(t) && Grown(r, t)
            && (ref.None? ==> t == r)
            && (ref.Some? ==> ref.value < |t.data| && Within(entry, t.data[ref.value].hash) && References(t.data) == References(r.data) + 1)
  {
    hide Put, Within, Good, Grown, References;
    GoodInRange(r);
    GrownSame(r);
    var (t, ref) := Added(r, rom, entry);
    if ref.Some? {
      if ref.value < |r.data| {
        PutKeeps(r, ref.value, rom, entry);
      } else {
        var u := r.(data := r.data + [Blank()]);
        BlankKeeps(r);
        PutKeeps(u, ref.value, rom, entry);
        GrownTransitive(r, u, t);
      }
    }
  }

  /** So it is after every run of entries that carry all three digests. */
  lemma FullRunRejectsExactly<Rom>(entries: seq<(Rom, HashData)>, rom: Rom, entry: HashData)
    requires forall i :: 0 <= i < |entries| ==> Full(entries[i].1)
    ensures var r := Run(entries).0; InRange(r) && (Added(r, rom, entry).1.None? <==> Contradicted(r, entry))
  {
    hide Added, Contradicted, Good;
    var r := Run(entries).0;
    FullRunUnshared(entries);
    UnsharedIsNoneShared(r);
    RejectedExactly(r, rom, entry);
  }

  lemma UnsharedIsNoneShared<Rom>(r: Repository<Rom>)
    requires Unshared(r)
    ensures NoneShared(r)
  {
    hide Full;
    forall i, j | 0 <= i < j < |r.data|
      ensures Crc32s(r.data)[i] != Crc32s(r.data)[j] && Md5s(r.data)[i] != Md5s(r.data)[j] && Sha1s(r.data)[i] != Sha1s(r.data)[j]
    {
      assert Apart(r.data[i].hash, r.data[j].hash);
    }
  }

  lemma GoodInRange<Rom>(r: Repository<Rom>)
    requires Good(r)
    ensures InRange(r)
  {
  }

  lemma GrownSame<Rom>(r: Repository<Rom>)
    ensures Grown(r, r)
  {
  }

  lemma GrownTransitive<Rom>(a: Repository<Rom>, b: Repository<Rom>, c: Repository<Rom>)
    requires Grown(a, b) && Grown(b, c)
    ensures Grown(a, c)
  {
  }

  /** Does the record that an index knows a digest by contradict the entry? */
  predicate Refuses<Rom>(r: Repository<Rom>, index: map<nat, nat>, digest: Option<nat>, entry: HashData)
    requires InRange(r) && forall k :: k in index ==> index[k] < |r.data|
  {
    digest.Some? && digest.value in index && !Compatible(entry, r.data[index[digest.value]].hash)
  }

  lemma RejectedByIndex<Rom>(r: Repository<Rom>, rom: Rom, entry: HashData)
    requires InRange(r)
    ensures Added(r, rom, entry).1.None?
            <==> Refuses(r, r.crc32map, entry.crc32, entry) || Refuses(r, r.md5map, entry.md5, entry) || Refuses(r, r.sha1map, entry.sha1, entry)
  {
    hide Compatible;
  }

  // ---------------------------------------------------------------------------------------
  // Whole runs
  // ---------------------------------------------------------------------------------------

  /** The adds of a run, in order: the repository afterwards, and where each entry went. */
  ghost function Run<Rom>(entries: seq<(Rom, HashData)>): (r: (Repository<Rom>, seq<Option<nat>>))
    ensures Good(r.0) && |r.1| == |entries|
    decreases |entries|
  {
    if entries == [] then (Empty(), [])
    else
      var (before, refs) := Run(entries[..|entries| - 1]);
      var (rom, entry) := entries[|entries| - 1];
      AddKeeps(before, rom, entry);
      var (after, ref) := Added(before, rom, entry);
      (after, refs + [ref])
  }

  /** Where an accepted entry goes: the record its SHA-1 is known by, else its MD5, else its CRC-32; else a new one. */
  function Home<Rom>(r: Repository<Rom>, entry: HashData): nat {
    if entry.sha1.Some? && entry.sha1.value in r.sha1map then r.sha1map[entry.sha1.value]
    else if entry.md5.Some? && entry.md5.value in r.md5map then r.md5map[entry.md5.value]
    else if entry.crc32.Some? && entry.crc32.value in r.crc32map then r.crc32map[entry.crc32.value]
    else |r.data|
  }

  /**
   What an accepted add does, record by record: the one it goes to has the rom behind those it had, and
   every digest of the entry over what it said; all the others are what they were.
   */
  lemma AddedExactly<Rom>(r: Repository<Rom>, rom: Rom, entry: HashData)
    requires InRange(r)
    ensures var (t, ref) := Added(r, rom, entry);
            ref.Some? ==>
              && ref == Some(Home(r, entry)) && ref.value < |t.data|
              && |t.data| == (if ref.value == |r.data| then |r.data| + 1 else |r.data|)
              && (forall i :: 0 <= i < |r.data| && i != ref.value ==> t.data[i] == r.data[i])
              && var before, after := if ref.value < |r.data| then r.data[ref.value] else Blank(), t.data[ref.value];
              && after.roms == before.roms + [rom] && after.references == before.references + 1
              && after.hash.size == (if entry.size.Some? then entry.size else before.hash.size)
              && after.hash.crc32 == (if entry.crc32.Some? then entry.crc32 else before.hash.crc32)
              && after.hash.md5 == (if entry.md5.Some? then entry.md5 else before.hash.md5)
              && after.hash.sha1 == (if entry.sha1.Some? then entry.sha1 else before.hash.sha1)
  {
    hide Compatible;
  }

  /** The roms of the entries that went to record `i`, in order. */
  function RomsOf<Rom>(entries: seq<(Rom, HashData)>, refs: seq<Option<nat>>, i: nat): seq<Rom>
    requires |entries| == |refs|
    decreases |entries|
  {
    if entries == [] then []
    else
      var n := |entries| - 1;
      RomsOf(entries[..n], refs[..n], i) + if refs[n] == Some(i) then [entries[n].0] else []
  }

  /** Only to records that are there. */
  ghost predicate WentThere(refs: seq<Option<nat>>, n: nat) {
    forall j :: 0 <= j < |refs| && refs[j].Some? ==> refs[j].value < n
  }

  /** Over every run of adds, the roms of a record are exactly those of the entries that went to it, in order. */
  lemma {:induction false} RunKeepsRoms<Rom>(entries: seq<(Rom, HashData)>)
    ensures WentThere(Run(entries).1, |Run(entries).0.data|)
    ensures forall i :: 0 <= i < |Run(entries).0.data| ==> Run(entries).0.data[i].roms == RomsOf(entries, Run(entries).1, i)
    decreases |entries|
  {
    hide Added, Good;
    if entries != [] {
      var n := |entries| - 1;
      var (rom, entry) := entries[n];
      RunKeepsRoms(entries[..n]);
      var (before, refs) := Run(entries[..n]);
      AddKeeps(before, rom, entry);
      AddedExactly(before, rom, entry);
      var (r, all) := Run(entries);
      assert all == refs + [all[n]] && all[..n] == refs;
      forall i | 0 <= i < |r.data|
        ensures r.data[i].roms == RomsOf(entries, all, i)
      {
        assert RomsOf(entries, all, i) == RomsOf(entries[..n], refs, i) + if all[n] == Some(i) then [rom] else [];
        if i >= |before.data| {
          forall j | 0 <= j < n
            ensures refs[j] != Some(i)
          {
          }
          NoneWentThere(entries[..n], refs, i);
        }
      }
      forall j | 0 <= j < |entries| && all[j].Some?
        ensures all[j].value < |r.data|
      {
        assert j < n ==> all[j] == refs[j];
      }
    }
  }

  lemma {:induction false} NoneWentThere<Rom>(entries: seq<(Rom, HashData)>, refs: seq<Option<nat>>, i: nat)
    requires |entries| == |refs| && forall j :: 0 <= j < |refs| ==> refs[j] != Some(i)
    ensures RomsOf(entries, refs, i) == []
    decreases |entries|
  {
    if entries != [] {
      NoneWentThere(entries[..|entries| - 1], refs[..|entries| - 1], i);
    }
  }

  function Accepted(refs: seq<Option<nat>>): nat
    decreases |refs|
  {
    if refs == [] then 0 else (if refs[|refs| - 1].Some? then 1 else 0) + Accepted(refs[..|refs| - 1])
  }

  /**
   Over every run of adds: the references add up to the accepted adds, and every accepted entry
   is still in the record it went to, whatever came later.
   */
  lemma {:induction false} RunKeepsEverything<Rom>(entries: seq<(Rom, HashData)>)
    ensures var (r, refs) := Run(entries);
            References(r.data) == Accepted(refs)
            && forall i :: 0 <= i < |entries| && refs[i].Some? ==>
                 refs[i].value < |r.data| && Within(entries[i].1, r.data[refs[i].value].hash)
    decreases |entries|
  {
    hide References, Added, Within, Good;
    if entries == [] {
      NoReferences<Rom>();
    } else {
      var n := |entries| - 1;
      RunKeepsEverything(entries[..n]);
      var (before, refs) := Run(entries[..n]);
      AddKeeps(before, entries[n].0, entries[n].1);
      var (r, all) := Run(entries);
      assert all == refs + [all[n]] && all[..n] == refs;
      forall i | 0 <= i < n && refs[i].Some?
        ensures refs[i].value < |r.data| && Within(entries[i].1, r.data[refs[i].value].hash)
      {
        WithinTransitive(entries[i].1, before.data[refs[i].value].hash, r.data[refs[i].value].hash);
      }
    }
  }

  lemma NoReferences<Rom>()
    ensures References<Rom>([]) == 0
  {
  }

  lemma WithinTransitive(a: HashData, b: HashData, c: HashData)
    requires Within(a, b) && Within(b, c)
    ensures Within(a, c)
  {
  }

  // ---------------------------------------------------------------------------------------
  // Entries with all digests
  // ---------------------------------------------------------------------------------------

  predicate Full(h: HashData) {
    h.crc32.Some? && h.md5.Some? && h.sha1.Some?
  }

  /** No two records share any digest, and each index leads to the record with the digest. */
  ghost predicate Unshared<Rom>(r: Repository<Rom>) {
    && (forall i :: 0 <= i < |r.data| ==> Full(r.data[i].hash))
    && (forall i, j :: 0 <= i < j < |r.data| ==> Apart(r.data[i].hash, r.data[j].hash))
  }

  predicate Apart(a: HashData, b: HashData) {
    a.crc32 != b.crc32 && a.md5 != b.md5 && a.sha1 != b.sha1
  }

  lemma NewIsApart<Rom>(r: Repository<Rom>, entry: HashData, i: nat)
    requires Good(r) && Full(entry) && i < |r.data|
    requires entry.crc32.value !in r.crc32map && entry.md5.value !in r.md5map && entry.sha1.value !in r.sha1map
    ensures Apart(r.data[i].hash, entry)
  {
    assert Crc32s(r.data)[i] == r.data[i].hash.crc32 && Md5s(r.data)[i] == r.data[i].hash.md5 && Sha1s(r.data)[i] == r.data[i].hash.sha1;
  }

  lemma MergedFull(a: HashData, b: HashData)
    requires Full(a) && Full(b) && Compatible(b, a)
    ensures Merged(a, b).crc32 == a.crc32 && Merged(a, b).md5 == a.md5 && Merged(a, b).sha1 == a.sha1
  {
  }

  /** What is not in any index goes into a record of its own. */
  lemma AddedWhere<Rom>(r: Repository<Rom>, rom: Rom, entry: HashData)
    requires Good(r)
    ensures InRange(r)
    ensures var (t, ref) := Added(r, rom, entry);
            ref.Some? ==>
              if ref.value < |r.data| then Compatible(entry, r.data[ref.value].hash) && t == Put(r, ref.value, rom, entry)
              else
                && ref.value == |r.data| && t == Put(r.(data := r.data + [Blank()]), |r.data|, rom, entry)
                && (entry.crc32.Some? ==> entry.crc32.value !in r.crc32map) && (entry.md5.Some? ==> entry.md5.value !in r.md5map)
                && (entry.sha1.Some? ==> entry.sha1.value !in r.sha1map)
  {
    hide Put, Compatible;
  }

  lemma AddUnshared<Rom>(r: Repository<Rom>, rom: Rom, entry: HashData)
    requires Good(r) && Unshared(r) && Full(entry)
    ensures InRange(r) && Unshared(Added(r, rom, entry).0)
  {
    hide Added, Good, Compatible, Merged;
    AddedWhere(r, rom, entry);
    AddKeeps(r, rom, entry);
    var (t, ref) := Added(r, rom, entry);
    if ref.Some? {
      if ref.value < |r.data| {
        MergedFull(r.data[ref.value].hash, entry);
      } else {
        forall i | 0 <= i < |r.data|
          ensures Apart(r.data[i].hash, entry)
        {
          NewIsApart(r, entry, i);
        }
        BlankMerged(entry);
      }
    }
  }

  lemma BlankMerged(entry: HashData)
    ensures Merged(HashData(None, None, None, None), entry) == entry
  {
  }

  /** If every entry of a run carries all three digests, no two records ever share one. */
  lemma {:induction false} FullRunUnshared<Rom>(entries: seq<(Rom, HashData)>)
    requires forall i :: 0 <= i < |entries| ==> Full(entries[i].1)
    ensures Unshared(Run(entries).0)
    decreases |entries|
  {
    hide Added, Good, Unshared;
    if entries == [] {
      EmptyUnshared<Rom>();
    } else {
      var n := |entries| - 1;
      FullRunUnshared(entries[..n]);
      AddUnshared(Run(entries[..n]).0, entries[n].0, entries[n].1);
    }
  }

  lemma EmptyUnshared<Rom>()
    ensures Unshared(Empty<Rom>())
  {
  }

  // ---------------------------------------------------------------------------------------
  // When records come to share a digest
  // ---------------------------------------------------------------------------------------

  ghost predicate Distinct(digests: seq<Option<nat>>) {
    forall i, j :: 0 <= i < j < |digests| && digests[i].Some? && digests[j].Some? ==> digests[i] != digests[j]
  }

  /** No digest is enabled in two records. */
  ghost predicate NoneShared<Rom>(r: Repository<Rom>) {
    Distinct(Crc32s(r.data)) && Distinct(Md5s(r.data)) && Distinct(Sha1s(r.data))
  }

  /** The index does not lead anywhere else than to `ref`. */
  predicate Agrees(index: map<nat, nat>, digest: Option<nat>, ref: nat) {
    digest.Some? && digest.value in index ==> index[digest.value] == ref
  }

  lemma DistinctExactly(index: map<nat, nat>, digests: seq<Option<nat>>, ref: nat, digest: Option<nat>)
    requires IndexGood(index, digests) && Distinct(digests) && ref < |digests| && FieldMatches(digest, digests[ref])
    ensures Distinct(digests[ref := MergedField(digests[ref], digest)]) <==> Agrees(index, digest, ref)
  {
    var after := digests[ref := MergedField(digests[ref], digest)];
    if digest.Some? && digest.value in index && index[digest.value] != ref {
      var other := index[digest.value];
      assert after[other] == after[ref] == digest;
    } else if digest.Some? {
      forall i | 0 <= i < |digests| && i != ref && digests[i].Some?
        ensures digests[i] != digest
      {
      }
    }
  }

  lemma DistinctBlank(digests: seq<Option<nat>>)
    ensures Distinct(digests + [None]) <==> Distinct(digests)
  {
    if Distinct(digests + [None]) {
      forall i, j | 0 <= i < j < |digests| && digests[i].Some? && digests[j].Some?
        ensures digests[i] != digests[j]
      {
        assert (digests + [None])[i] == digests[i] && (digests + [None])[j] == digests[j];
      }
    }
  }

  /** Two agree on a digest that both have. */
  predicate HasCommonDigest(a: HashData, b: HashData) {
    || (a.crc32.Some? && a.crc32 == b.crc32) || (a.md5.Some? && a.md5 == b.md5) || (a.sha1.Some? && a.sha1 == b.sha1)
  }

  /** A record has a digest of the entry, and contradicts it. */
  ghost predicate Contradicted<Rom>(r: Repository<Rom>, entry: HashData) {
    exists i :: 0 <= i < |r.data| && HasCommonDigest(entry, r.data[i].hash) && !Compatible(entry, r.data[i].hash)
  }

  lemma IndexKnows(index: map<nat, nat>, digests: seq<Option<nat>>, i: nat)
    requires IndexGood(index, digests) && Distinct(digests) && i < |digests| && digests[i].Some?
    ensures digests[i].value in index && index[digests[i].value] == i
  {
  }

  /**
   While no records share a digest, an entry is rejected exactly when a record has one of its digests
   and contradicts it in the size or in another digest.
   */
  lemma RejectedExactly<Rom>(r: Repository<Rom>, rom: Rom, entry: HashData)
    requires Good(r) && NoneShared(r)
    ensures InRange(r)
    ensures Added(r, rom, entry).1.None? <==> Contradicted(r, entry)
  {
    hide Compatible, Added, IndexGood, Distinct;
    GoodInRange(r);
    RejectedByIndex(r, rom, entry);
    if Refuses(r, r.crc32map, entry.crc32, entry) {
      RefusingContradicts(r, r.crc32map, Crc32s(r.data), entry.crc32, entry);
    } else if Refuses(r, r.md5map, entry.md5, entry) {
      RefusingContradicts(r, r.md5map, Md5s(r.data), entry.md5, entry);
    } else if Refuses(r, r.sha1map, entry.sha1, entry) {
      RefusingContradicts(r, r.sha1map, Sha1s(r.data), entry.sha1, entry);
    }
    if i :| 0 <= i < |r.data| && HasCommonDigest(entry, r.data[i].hash) && !Compatible(entry, r.data[i].hash) {
      if entry.crc32.Some? && entry.crc32 == r.data[i].hash.crc32 {
        IndexKnows(r.crc32map, Crc32s(r.data), i);
      } else if entry.md5.Some? && entry.md5 == r.data[i].hash.md5 {
        IndexKnows(r.md5map, Md5s(r.data), i);
      } else {
        IndexKnows(r.sha1map, Sha1s(r.data), i);
      }
    }
  }

  lemma RefusingContradicts<Rom>(r: Repository<Rom>, index: map<nat, nat>, digests: seq<Option<nat>>, digest: Option<nat>, entry: HashData)
    requires InRange(r) && IndexGood(index, digests) && |digests| == |r.data|
    requires || (digests == Crc32s(r.data) && digest == entry.crc32)
             || (digests == Md5s(r.data) && digest == entry.md5)
             || (digests == Sha1s(r.data) && digest == entry.sha1)
    requires Refuses(r, index, digest, entry)
    ensures Contradicted(r, entry)
  {
    hide Compatible;
    var i := index[digest.value];
    assert digests[i] == digest;
    assert HasCommonDigest(entry, r.data[i].hash);
  }

  /** The record that an index knows a digest by. */
  function Known(index: map<nat, nat>, digest: Option<nat>): Option<nat> {
    if digest.Some? && digest.value in index then Some(index[digest.value]) else None
  }

  /** All the indexes that know one of the entry's digests lead to the same record. */
  predicate KnownAsOne<Rom>(r: Repository<Rom>, entry: HashData) {
    var c, m, s := Known(r.crc32map, entry.crc32), Known(r.md5map, entry.md5), Known(r.sha1map, entry.sha1);
    FieldMatches(c, m) && FieldMatches(c, s) && FieldMatches(m, s)
  }

  /** An accepted entry goes to a record that an index knows it by, if there is one. */
  lemma AgreesExactly<Rom>(r: Repository<Rom>, rom: Rom, entry: HashData)
    requires InRange(r)
    ensures var ref := Added(r, rom, entry).1;
            ref.Some? ==> (KnownAsOne(r, entry) <==> Agrees(r.crc32map, entry.crc32, ref.value) && Agrees(r.md5map, entry.md5, ref.value)
                                                     && Agrees(r.sha1map, entry.sha1, ref.value))
  {
    hide Compatible, Put;
  }

  /**
   Records that share no digest still share none after an accepted add exactly when all the
   indexes that know one of the entry's digests lead to the same record.
   */
  lemma SharesExactly<Rom>(r: Repository<Rom>, rom: Rom, entry: HashData)
    requires Good(r) && NoneShared(r)
    ensures InRange(r)
    ensures var (t, ref) := Added(r, rom, entry);
            ref.Some? ==> (NoneShared(t) <==> KnownAsOne(r, entry))
  {
    hide Added, Compatible, Put, KnownAsOne, Agrees;
    AddedWhere(r, rom, entry);
    AgreesExactly(r, rom, entry);
    var (t, ref) := Added(r, rom, entry);
    if ref.Some? {
      if ref.value < |r.data| {
        PutShares(r, ref.value, rom, entry);
      } else {
        var u := r.(data := r.data + [Blank()]);
        BlankKeeps(r);
        BlankShares(r);
        BlankCompatible(entry);
        PutShares(u, ref.value, rom, entry);
      }
    }
  }

  function ByCrc32(crc32: nat): HashData { HashData(None, Some(crc32), None, None) }

  function ByMd5(md5: nat): HashData { HashData(None, None, Some(md5), None) }

  function ByBoth(crc32: nat, md5: nat): HashData { HashData(None, Some(crc32), Some(md5), None) }

  /** A rom known by its CRC-32, and one known by its MD5. */
  function TwoRecords<Rom>(rom: Rom, crc32: nat, md5: nat): Repository<Rom> {
    Repository([Record(ByCrc32(crc32), [rom], 1), Record(ByMd5(md5), [rom], 1)], map[crc32 := 0], map[md5 := 1], map[])
  }

  lemma NewRecord<Rom>(r: Repository<Rom>, rom: Rom, entry: HashData)
    requires InRange(r) && Destination(r, entry).Nothing?
    ensures Added(r, rom, entry).0 == Repository(r.data + [Record(entry, [rom], 1)], Indexed(r.crc32map, entry.crc32, |r.data|),
                                                 Indexed(r.md5map, entry.md5, |r.data|), Indexed(r.sha1map, entry.sha1, |r.data|))
  {
    assert (r.data + [Blank()])[|r.data| := Record(entry, [rom], 1)] == r.data + [Record(entry, [rom], 1)];
    assert [] + [rom] == [rom];
    assert Merged(HashData(None, None, None, None), entry) == entry;
  }

  lemma TwoRecordsAdded<Rom>(rom: Rom, crc32: nat, md5: nat)
    ensures var r0 := Empty<Rom>();
            InRange(r0) && var r1 := Added(r0, rom, ByCrc32(crc32)).0;
            InRange(r1) && Added(r1, rom, ByMd5(md5)).0 == TwoRecords(rom, crc32, md5)
  {
    hide Added;
    NewRecord(Empty<Rom>(), rom, ByCrc32(crc32));
    var r1 := Added(Empty<Rom>(), rom, ByCrc32(crc32)).0;
    assert r1.data == [Record(ByCrc32(crc32), [rom], 1)] && r1.crc32map == map[crc32 := 0] && r1.md5map == map[] && r1.sha1map == map[];
    NewRecord(r1, rom, ByMd5(md5));
    assert Added(r1, rom, ByMd5(md5)).0.data == TwoRecords(rom, crc32, md5).data;
  }

  /** Two records, and an entry with one digest of each: both records say its CRC-32 afterwards. */
  lemma TwoRecordsShare<Rom>(rom: Rom, crc32: nat, md5: nat)
    ensures var r := TwoRecords(rom, crc32, md5);
            InRange(r) && NoneShared(r) && !KnownAsOne(r, ByBoth(crc32, md5))
            && var (t, ref) := Added(r, rom, ByBoth(crc32, md5));
               ref == Some(1) && |t.data| == 2 && t.data[0].hash.crc32 == t.data[1].hash.crc32 == Some(crc32) && !NoneShared(t)
  {
    var r := TwoRecords(rom, crc32, md5);
    var t := Added(r, rom, ByBoth(crc32, md5)).0;
    assert Crc32s(t.data)[0] == Crc32s(t.data)[1] == Some(crc32);
  }

  lemma BlankCompatible(entry: HashData)
    ensures Compatible(entry, HashData(None, None, None, None))
  {
  }

  lemma BlankShares<Rom>(r: Repository<Rom>)
    requires NoneShared(r)
    ensures NoneShared(r.(data := r.data + [Blank()]))
  {
    hide Distinct;
    var t := r.data + [Blank()];
    DistinctBlank(Crc32s(r.data));
    DistinctBlank(Md5s(r.data));
    DistinctBlank(Sha1s(r.data));
    assert Crc32s(t) == Crc32s(r.data) + [None] && Md5s(t) == Md5s(r.data) + [None] && Sha1s(t) == Sha1s(r.data) + [None];
  }

  lemma PutShares<Rom>(r: Repository<Rom>, ref: nat, rom: Rom, entry: HashData)
    requires Good(r) && NoneShared(r) && ref < |r.data| && Compatible(entry, r.data[ref].hash)
    ensures NoneShared(Put(r, ref, rom, entry))
            <==> Agrees(r.crc32map, entry.crc32, ref) && Agrees(r.md5map, entry.md5, ref) && Agrees(r.sha1map, entry.sha1, ref)
  {
    hide Distinct, IndexGood, Agrees;
    var t := Put(r, ref, rom, entry);
    DistinctExactly(r.crc32map, Crc32s(r.data), ref, entry.crc32);
    DistinctExactly(r.md5map, Md5s(r.data), ref, entry.md5);
    DistinctExactly(r.sha1map, Sha1s(r.data), ref, entry.sha1);
    assert Crc32s(t.data) == Crc32s(r.data)[ref := MergedField(r.data[ref].hash.crc32, entry.crc32)];
    assert Md5s(t.data) == Md5s(r.data)[ref := MergedField(r.data[ref].hash.md5, entry.md5)];
    assert Sha1s(t.data) == Sha1s(r.data)[ref := MergedField(r.data[ref].hash.sha1, entry.sha1)];
  }

  // ---------------------------------------------------------------------------------------
  // The repository as an object
  // ---------------------------------------------------------------------------------------

  class Hashes<Rom> {
    var data: seq<Record<Rom>>
    var crc32map: map<nat, nat>
    var md5map: map<nat, nat>
    var sha1map: map<nat, nat>

    ghost function Model(): Repository<Rom>
      reads this
    {
      Repository(data, crc32map, md5map, sha1map)
    }

    constructor ()
      ensures Model() == Empty() && Good(Model())
    {
      data, crc32map, md5map, sha1map := [], map[], map[], map[];
    }

    predicate IsCollision(entry: HashData, ref: nat)
      requires ref < |data|
      reads this
    {
      !Compatible(entry, data[ref].hash)
    }

    /** Looks one digest up: does the entry collide, and if not, where does it belong? */
    method Search(index: map<nat, nat>, digest: Option<nat>, entry: HashData) returns (found: Match)
      requires forall k :: k in index ==> index[k] < |data|
      ensures found == Lookup(Model(), index, digest, entry)
    {
      hide Compatible;
      if digest.None? || digest.value !in index {
        found := Nothing;
      } else if !IsCollision(entry, index[digest.value]) {
        found := Matching(index[digest.value]);
      } else {
        found := Collision;
      }
    }

    /** `+=` on the record, one rom more, and the indexes of the digests that the entry has. */
    method Merge(ref: nat, rom: Rom, entry: HashData)
      requires ref < |data|
      modifies this
      ensures Model() == Put(old(Model()), ref, rom, entry)
    {
      hide Merged;
      var record := data[ref];
      data := data[ref := Record(Merged(record.hash, entry), record.roms + [rom], record.references + 1)];
      if entry.crc32.Some? {
        crc32map := crc32map[entry.crc32.value := ref];
      }
      if entry.md5.Some? {
        md5map := md5map[entry.md5.value := ref];
      }
      if entry.sha1.Some? {
        sha1map := sha1map[entry.sha1.value := ref];
      }
    }

    /** The three searches: of several matches the last counts; any collision rejects the entry. */
    method FindRecord(entry: HashData) returns (found: Match)
      requires InRange(Model())
      ensures found == Destination(Model(), entry)
    {
      hide Compatible, Lookup;
      found := Nothing;
      var first := Search(crc32map, entry.crc32, entry);
      if !first.Nothing? {
        found := first;
      }
      if found.Collision? {
        return;
      }
      var second := Search(md5map, entry.md5, entry);
      if !second.Nothing? {
        found := second;
      }
      if found.Collision? {
        return;
      }
      var third := Search(sha1map, entry.sha1, entry);
      if !third.Nothing? {
        found := third;
      }
    }

    /** `add` */
    method Add(rom: Rom, entry: HashData) returns (ref: Option<nat>)
      requires Good(Model())
      modifies this
      ensures (Model(), ref) == Added(old(Model()), rom, entry)
      ensures Good(Model()) && Grown(old(Model()), Model())
      ensures ref.Some? ==>
                && ref.value < |data| && data[ref.value].roms == (if ref.value < |old(data)| then old(data)[ref.value].roms else []) + [rom]
                && forall i :: 0 <= i < |old(data)| && i != ref.value ==> data[i] == old(data)[i]
    {
      hide Compatible, Put, Good, Grown, Destination, InRange;
      GoodInRange(Model());
      AddKeeps(Model(), rom, entry);
      AddedExactly(Model(), rom, entry);
      var found := FindRecord(entry);
      if found.Collision? {
        return None;
      }
      ref := if found.Matching? then Some(found.ref) else None;
      if ref.None? {
        data := data + [Blank()];
        ref := Some(|data| - 1);
      }
      Merge(ref.value, rom, entry);
    }

    /** Finds a record with the SHA-1 exactly when there is one. */
    method Find(sha1: nat) returns (record: Option<Record<Rom>>)
      requires Good(Model())
      ensures record.Some? ==> record.value in data && record.value.hash.sha1 == Some(sha1)
      ensures record.None? ==> forall i :: 0 <= i < |data| ==> data[i].hash.sha1 != Some(sha1)
    {
      if sha1 in sha1map {
        record := Some(data[sha1map[sha1]]);
      } else {
        record := None;
        forall i | 0 <= i < |data|
          ensures data[i].hash.sha1 != Some(sha1)
        {
          assert Sha1s(data)[i] == data[i].hash.sha1;
        }
      }
    }

    method SizeInBytes() returns (total: nat)
      ensures total == Bytes(data)
    {
      total := 0;
      assert data[..0] == [];
      for i := 0 to |data|
        invariant total == Bytes(data[..i])
      {
        assert data[..i + 1][..i] == data[..i];
        total := total + SizeOf(data[i].hash);
      }
      assert data[..|data|] == data;
    }
  }

  /** A size that is not enabled counts as 0 here. */
  function SizeOf(h: HashData): nat {
    if h.size.Some? then h.size.value else 0
  }

  function Bytes<Rom>(data: seq<Record<Rom>>): nat
    decreases |data|
  {
    if data == [] then 0 else Bytes(data[..|data| - 1]) + SizeOf(data[|data| - 1].hash)
  }
}
