/**
 Listening progress arrives in batches. A batch looks every record up once, updates it in memory for each event, and
 saves all records at the end.
 */
module PodcastProgress {
  import opened Prelude
  import AuthKeys

  datatype Id = Id(memberId: string, programId: string)

  datatype Info = Info(id: Id, progress: Option<real>, lastProgress: Option<real>, albumId: Option<string>, at: int)

  datatype Row = Row(
    id: Id,
    albumId: Option<string>,
    progress: real,
    lastProgress: real,
    createdAt: int,
    updatedAt: int
  )

  type Table = map<Id, Row>

  /** `x || 1` */
  function OrOne(x: Option<real>): real {
    if x.Some? && x.value != 0.0 then x.value else 1.0
  }

  function Album(albumId: Option<string>): Option<string> {
    if albumId.Some? && AuthKeys.TrimEnd(AuthKeys.TrimStart(albumId.value)) != "" then albumId else None
  }

  function Updated(row: Row, info: Info): Row {
    row.(albumId := Album(info.albumId), progress := OrOne(info.progress), lastProgress := OrOne(info.lastProgress),
         updatedAt := info.at)
  }

  /** A new record with what the event says; its times are not set yet. */
  function Create(info: Info): Row {
    Row(info.id, info.albumId, OrOne(info.progress), OrOne(info.lastProgress), 0, 0)
  }

  function FindOrCreate(t: Table, info: Info): Row {
    if info.id in t then t[info.id] else Create(info).(createdAt := info.at)
  }

  /** A stored record carries its own ids. */
  ghost predicate OwnIds(t: Table) {
    forall id | id in t :: t[id].id == id
  }

  // ----- one event at a time -----

  function One(t: Table, info: Info): Table {
    t[info.id := Updated(FindOrCreate(t, info), info)]
  }

  function Serial(t: Table, infos: seq<Info>): Table {
    if infos == [] then t else One(Serial(t, infos[..|infos| - 1]), infos[|infos| - 1])
  }

  // ----- a batch -----

  function Key(id: Id): string {
    id.memberId + "_" + id.programId
  }

  /** Where the record is that was stored under the key, which was made from the record's own ids. */
  function IndexOf<K(==)>(key: Id -> K, rows: seq<Row>, k: K): (i: nat)
    ensures i <= |rows|
    ensures i < |rows| ==> key(rows[i].id) == k
    ensures forall j | 0 <= j < i :: key(rows[j].id) != k
  {
    if rows == [] then 0 else if key(rows[0].id) == k then 0 else 1 + IndexOf(key, rows[1..], k)
  }

  function Merge<K(==)>(key: Id -> K, t: Table, rows: seq<Row>, info: Info): seq<Row> {
    var i := IndexOf(key, rows, key(info.id));
    if i < |rows| then rows[i := Updated(rows[i], info)] else rows + [Updated(FindOrCreate(t, info), info)]
  }

  /** The records in the order in which their keys first occurred. */
  function Merged<K(==)>(key: Id -> K, t: Table, infos: seq<Info>): seq<Row> {
    if infos == [] then [] else Merge(key, t, Merged(key, t, infos[..|infos| - 1]), infos[|infos| - 1])
  }

  function SaveAll(t: Table, rows: seq<Row>): Table {
    if rows == [] then t else SaveAll(t, rows[..|rows| - 1])[rows[|rows| - 1].id := rows[|rows| - 1]]
  }

  function Batch<K(==)>(key: Id -> K, t: Table, infos: seq<Info>): Table {
    SaveAll(t, Merged(key, t, infos))
  }

  lemma {:induction false} SaveAllOwnIds(t: Table, rows: seq<Row>)
    requires OwnIds(t)
    ensures OwnIds(SaveAll(t, rows))
  {
    if rows == [] {
    } else {
      SaveAllOwnIds(t, rows[..|rows| - 1]);
    }
  }

  // ----- the method -----

  /** The entity: its fields are updated in place while the map holds it. */
  class PodcastProgramProgress {
    var id: Id
    var albumId: Option<string>
    var progress: real
    var lastProgress: real
    var createdAt: int
    var updatedAt: int

    constructor (row: Row)
      ensures Contents() == row
    {
      id, albumId, progress := row.id, row.albumId, row.progress;
      lastProgress, createdAt, updatedAt := row.lastProgress, row.createdAt, row.updatedAt;
    }

    function Contents(): Row
      reads this
    {
      Row(id, albumId, progress, lastProgress, createdAt, updatedAt)
    }

    method Update(info: Info)
      modifies this
      ensures Contents() == Updated(old(Contents()), info)
    {
      progress := OrOne(info.progress);
      lastProgress := OrOne(info.lastProgress);
      updatedAt := info.at;
      albumId := Album(info.albumId);
    }
  }

  ghost function Rows(records: seq<PodcastProgramProgress>): (rows: seq<Row>)
    reads records
    ensures |rows| == |records|
    ensures forall j | 0 <= j < |records| :: rows[j] == records[j].Contents()
  {
    if records == [] then [] else Rows(records[..|records| - 1]) + [records[|records| - 1].Contents()]
  }

  lemma RowsAre(records: seq<PodcastProgramProgress>, rows: seq<Row>)
    requires |records| == |rows| && forall j | 0 <= j < |rows| :: records[j].Contents() == rows[j]
    ensures Rows(records) == rows
  {
  }

  /** The map leads from the key of each row to its object. */
  ghost predicate Reached<K>(key: Id -> K, uniqueMap: map<K, PodcastProgramProgress>,
                             values: seq<PodcastProgramProgress>, rows: seq<Row>)
    requires |values| == |rows|
  {
    forall j | 0 <= j < |rows| :: key(rows[j].id) in uniqueMap && uniqueMap[key(rows[j].id)] == values[j]
  }

  ghost predicate Covered<K>(key: Id -> K, uniqueMap: map<K, PodcastProgramProgress>, rows: seq<Row>) {
    forall k | k in uniqueMap :: IndexOf(key, rows, k) < |rows|
  }

  ghost predicate NoObjectTwice(values: seq<PodcastProgramProgress>) {
    forall i, j | 0 <= i < j < |values| :: values[i] != values[j]
  }

  ghost predicate Indexed<K>(key: Id -> K, uniqueMap: map<K, PodcastProgramProgress>,
                             values: seq<PodcastProgramProgress>, rows: seq<Row>) {
    |values| == |rows| && Reached(key, uniqueMap, values, rows) && Covered(key, uniqueMap, rows)
      && NoObjectTwice(values)
  }

  lemma StillCovered<K>(key: Id -> K, uniqueMap: map<K, PodcastProgramProgress>, rows: seq<Row>, rows': seq<Row>)
    requires Covered(key, uniqueMap, rows)
    requires |rows| <= |rows'| && forall j | 0 <= j < |rows| :: rows'[j].id == rows[j].id
    ensures Covered(key, uniqueMap, rows')
  {
    forall k | k in uniqueMap
      ensures IndexOf(key, rows', k) < |rows'|
    {
      assert key(rows'[IndexOf(key, rows, k)].id) == k;
    }
  }

  lemma IndexedUpdate<K>(key: Id -> K, uniqueMap: map<K, PodcastProgramProgress>, values: seq<PodcastProgramProgress>,
                         rows: seq<Row>,
                         at: nat, row: Row)
    requires Indexed(key, uniqueMap, values, rows) && at < |rows| && row.id == rows[at].id
    ensures Indexed(key, uniqueMap, values, rows[at := row])
  {
    StillCovered(key, uniqueMap, rows, rows[at := row]);
  }

  lemma ReachedAppend<K>(key: Id -> K, uniqueMap: map<K, PodcastProgramProgress>, values: seq<PodcastProgramProgress>,
                         rows: seq<Row>,
                         value: PodcastProgramProgress, row: Row)
    requires |values| == |rows| && Reached(key, uniqueMap, values, rows) && key(row.id) !in uniqueMap
    ensures Reached(key, uniqueMap[key(row.id) := value], values + [value], rows + [row])
  {
    forall j | 0 <= j < |rows|
      ensures key(rows[j].id) != key(row.id)
    {
      assert key(rows[j].id) in uniqueMap;
    }
  }

  lemma CoveredAppend<K>(key: Id -> K, uniqueMap: map<K, PodcastProgramProgress>, rows: seq<Row>,
                         value: PodcastProgramProgress, row: Row)
    requires Covered(key, uniqueMap, rows)
    ensures Covered(key, uniqueMap[key(row.id) := value], rows + [row])
  {
    StillCovered(key, uniqueMap, rows, rows + [row]);
    assert key((rows + [row])[|rows|].id) == key(row.id);
  }

  lemma IndexedAppend<K>(key: Id -> K, uniqueMap: map<K, PodcastProgramProgress>, values: seq<PodcastProgramProgress>,
                         rows: seq<Row>,
                         value: PodcastProgramProgress, row: Row)
    requires Indexed(key, uniqueMap, values, rows) && key(row.id) !in uniqueMap && value !in values
    ensures Indexed(key, uniqueMap[key(row.id) := value], values + [value], rows + [row])
  {
    ReachedAppend(key, uniqueMap, values, rows, value, row);
    CoveredAppend(key, uniqueMap, rows, value, row);
  }

  lemma HeldIff<K>(key: Id -> K, uniqueMap: map<K, PodcastProgramProgress>, values: seq<PodcastProgramProgress>,
                   rows: seq<Row>, k: K)
    requires Indexed(key, uniqueMap, values, rows)
    ensures k in uniqueMap <==> IndexOf(key, rows, k) < |rows|
  {
    if IndexOf(key, rows, k) < |rows| {
      assert key(rows[IndexOf(key, rows, k)].id) in uniqueMap;
    }
  }

  lemma MergedNext<K>(key: Id -> K, t: Table, infos: seq<Info>, i: nat)
    requires i < |infos|
    ensures Merged(key, t, infos[..i + 1]) == Merge(key, t, Merged(key, t, infos[..i]), infos[i])
  {
    assert infos[..i + 1][..i] == infos[..i];
  }

  class PodcastService {
    var table: Table

    method FindPodcastProgramProgress(info: Info) returns (found: PodcastProgramProgress?)
      ensures found != null <==> info.id in table
      ensures found != null ==> fresh(found) && found.Contents() == table[info.id]
    {
      found := null;
      if info.id in table {
        found := new PodcastProgramProgress(table[info.id]);
      }
    }

    method SavePodcastProgramProgress(records: seq<PodcastProgramProgress>)
      modifies this
      ensures table == SaveAll(old(table), old(Rows(records))) && Rows(records) == old(Rows(records))
    {
      ghost var rows := Rows(records);
      var i := 0;
      while i < |records|
        invariant 0 <= i <= |records|
        invariant table == SaveAll(old(table), rows[..i])
      {
        assert rows[..i + 1][..i] == rows[..i];
        table := table[records[i].id := records[i].Contents()];
        i := i + 1;
      }
      assert rows[..i] == rows;
    }

    method FirstRecord(info: Info) returns (record: PodcastProgramProgress)
      ensures fresh(record) && record.Contents() == FindOrCreate(table, info)
    {
      var found := FindPodcastProgramProgress(info);
      if found != null {
        record := found;
      } else {
        record := new PodcastProgramProgress(Create(info));
        record.createdAt := info.at;
      }
    }

    method UpdatedRecord(info: Info) returns (record: PodcastProgramProgress)
      ensures fresh(record) && record.Contents() == Updated(FindOrCreate(table, info), info)
    {
      record := FirstRecord(info);
      record.Update(info);
    }

    method UpdateHeld<K(==)>(key: Id -> K, info: Info, uniqueMap: map<K, PodcastProgramProgress>,
                             values: seq<PodcastProgramProgress>, ghost rows: seq<Row>)
      requires Indexed(key, uniqueMap, values, rows) && Rows(values) == rows && key(info.id) in uniqueMap
      modifies values
      ensures var rows' := rows[IndexOf(key, rows, key(info.id)) := Updated(rows[IndexOf(key, rows, key(info.id))],
                                                                            info)];
              Indexed(key, uniqueMap, values, rows') && Rows(values) == rows'
    {
      ghost var at := IndexOf(key, rows, key(info.id));
      ghost var rows' := rows[at := Updated(rows[at], info)];
      IndexedUpdate(key, uniqueMap, values, rows, at, rows'[at]);
      var record := uniqueMap[key(info.id)];
      assert record == values[at];
      record.Update(info);
      forall j | 0 <= j < |values|
        ensures values[j].Contents() == rows'[j]
      {
        assert j != at ==> values[j] != record && values[j].Contents() == rows[j];
      }
      RowsAre(values, rows');
    }

    method AddNew<K(==)>(key: Id -> K, info: Info, uniqueMap: map<K, PodcastProgramProgress>,
                         values: seq<PodcastProgramProgress>, ghost rows: seq<Row>)
                           returns (record: PodcastProgramProgress)
      requires OwnIds(table) && Indexed(key, uniqueMap, values, rows) && Rows(values) == rows
               && key(info.id) !in uniqueMap
      ensures fresh(record)
      ensures var rows' := rows + [Updated(FindOrCreate(table, info), info)];
              Indexed(key, uniqueMap[key(info.id) := record], values + [record], rows')
                && Rows(values + [record]) == rows'
    {
      record := UpdatedRecord(info);
      assert forall j | 0 <= j < |values| :: values[j] != record && values[j].Contents() == rows[j];
      IndexedAppend(key, uniqueMap, values, rows, record, record.Contents());
      RowsAre(values + [record], rows + [record.Contents()]);
    }

    /** One event: the record is looked up, in memory first, and updated in place. */
    method ProcessOne<K(==)>(key: Id -> K, info: Info, uniqueMap: map<K, PodcastProgramProgress>,
                             values: seq<PodcastProgramProgress>, ghost rows: seq<Row>)
      returns (uniqueMap': map<K, PodcastProgramProgress>, values': seq<PodcastProgramProgress>)
      requires OwnIds(table) && Indexed(key, uniqueMap, values, rows) && Rows(values) == rows
      modifies values
      ensures Indexed(key, uniqueMap', values', Merge(key, table, rows, info))
      ensures Rows(values') == Merge(key, table, rows, info)
      ensures forall j | 0 <= j < |values'| :: fresh(values'[j]) || values'[j] in values
    {
      uniqueMap', values' := uniqueMap, values;
      if key(info.id) in uniqueMap {
        UpdateHeld(key, info, uniqueMap, values, rows);
      } else {
        HeldIff(key, uniqueMap, values, rows, key(info.id));
        var record := AddNew(key, info, uniqueMap, values, rows);
        uniqueMap' := uniqueMap[key(info.id) := record];
        values' := values + [record];
      }
    }

    /** The loop over the events, for whatever key the records are held under. Nothing is stored yet. */
    method MergeEvents<K(==)>(key: Id -> K, progressInfoList: seq<Info>) returns (values: seq<PodcastProgramProgress>)
      requires OwnIds(table)
      ensures Rows(values) == Merged(key, table, progressInfoList)
    {
      var uniqueMap: map<K, PodcastProgramProgress> := map[];
      values := [];
      ghost var rows: seq<Row> := [];
      var i := 0;
      while i < |progressInfoList|
        invariant 0 <= i <= |progressInfoList|
        invariant forall j | 0 <= j < |values| :: fresh(values[j])
        invariant rows == Merged(key, table, progressInfoList[..i])
        invariant Indexed(key, uniqueMap, values, rows) && Rows(values) == rows
      {
        MergedNext(key, table, progressInfoList, i);
        uniqueMap, values := ProcessOne(key, progressInfoList[i], uniqueMap, values, rows);
        rows := Merge(key, table, rows, progressInfoList[i]);
        i := i + 1;
      }
      assert progressInfoList[..i] == progressInfoList;
    }

    method MergeAndSave<K(==)>(key: Id -> K, progressInfoList: seq<Info>) returns (saved: seq<PodcastProgramProgress>)
      requires OwnIds(table)
      modifies this
      ensures Rows(saved) == Merged(key, old(table), progressInfoList)
      ensures table == Batch(key, old(table), progressInfoList)
    {
      saved := MergeEvents(key, progressInfoList);
      SavePodcastProgramProgress(saved);
    }

    /** The records are held under the joined key. */
    method ProcessPodcastProgramProgress(progressInfoList: seq<Info>) returns (saved: seq<PodcastProgramProgress>)
      requires OwnIds(table)
      modifies this
      ensures Rows(saved) == Merged(Key, old(table), progressInfoList)
      ensures table == Batch(Key, old(table), progressInfoList) && OwnIds(table)
    {
      SaveAllOwnIds(table, Merged(Key, table, progressInfoList));
      saved := MergeAndSave(Key, progressInfoList);
    }
  }

  // ----- the batch against one event at a time -----

  /** Two events with the same joined key are about the same record. */
  ghost predicate NoClash<K>(key: Id -> K, infos: seq<Info>) {
    forall i, j | 0 <= i < |infos| && 0 <= j < |infos| :: key(infos[i].id) == key(infos[j].id)
      ==> infos[i].id == infos[j].id
  }

  lemma LongerMember(a: Id, b: Id)
    requires Key(a) == Key(b) && |a.memberId| < |b.memberId|
    ensures '_' in a.programId
  {
    assert Key(a)[|b.memberId|] == '_';
    assert a.programId[|b.memberId| - |a.memberId| - 1] == '_';
  }

  /** Program ids are UUIDs: without '_' in them the joined key is one-to-one. */
  lemma KeyInjective(a: Id, b: Id)
    requires '_' !in a.programId && '_' !in b.programId && Key(a) == Key(b)
    ensures a == b
  {
    if |a.memberId| < |b.memberId| {
      LongerMember(a, b);
    } else if |b.memberId| < |a.memberId| {
      LongerMember(b, a);
    }
    var s, i := Key(a), |a.memberId|;
    assert s[..i] == a.memberId && Key(b)[..i] == b.memberId;
    assert s[i + 1..] == a.programId && Key(b)[i + 1..] == b.programId;
  }

  ghost predicate About(infos: seq<Info>, id: Id) {
    exists i :: 0 <= i < |infos| && infos[i].id == id
  }

  lemma AboutSnoc(infos: seq<Info>, id: Id)
    requires infos != []
    ensures About(infos, id) <==> About(infos[..|infos| - 1], id) || infos[|infos| - 1].id == id
  {
    var n := |infos| - 1;
    if About(infos, id) {
      var i :| 0 <= i < |infos| && infos[i].id == id;
      assert i < n ==> infos[..n][i].id == id;
    }
    if About(infos[..n], id) {
      var i :| 0 <= i < n && infos[..n][i].id == id;
      assert infos[i].id == id;
    }
  }

  /** Events touch the records they are about and no others, and a stored record carries its own id. */
  lemma {:induction false} SerialTouches(t: Table, infos: seq<Info>, id: Id)
    ensures id in Serial(t, infos) <==> id in t || About(infos, id)
    ensures !About(infos, id) && id in t ==> Serial(t, infos)[id] == t[id]
  {
    if infos == [] {
    } else {
      SerialTouches(t, infos[..|infos| - 1], id);
      AboutSnoc(infos, id);
    }
  }

  ghost predicate DistinctKeys<K>(key: Id -> K, rows: seq<Row>) {
    forall i, j | 0 <= i < j < |rows| :: key(rows[i].id) != key(rows[j].id)
  }

  ghost predicate Has(rows: seq<Row>, id: Id) {
    exists j :: 0 <= j < |rows| && rows[j].id == id
  }

  lemma MergeStep<K>(key: Id -> K, t: Table, rows: seq<Row>, info: Info)
    requires OwnIds(t) && DistinctKeys(key, rows)
    ensures var rows' := Merge(key, t, rows, info);
            && DistinctKeys(key, rows') && |rows| <= |rows'|
            && (forall j | 0 <= j < |rows| :: rows'[j].id == rows[j].id)
            && (forall j | |rows| <= j < |rows'| :: rows'[j].id == info.id)
            && (exists j :: 0 <= j < |rows'| && key(rows'[j].id) == key(info.id))
  {
    var rows', at := Merge(key, t, rows, info), IndexOf(key, rows, key(info.id));
    assert key(rows'[at].id) == key(info.id);
  }

  lemma {:induction false} MergedDistinct<K>(key: Id -> K, t: Table, infos: seq<Info>)
    requires OwnIds(t)
    ensures DistinctKeys(key, Merged(key, t, infos))
  {
    if infos == [] {
    } else {
      MergedDistinct(key, t, infos[..|infos| - 1]);
      MergeStep(key, t, Merged(key, t, infos[..|infos| - 1]), infos[|infos| - 1]);
    }
  }

  lemma {:induction false} MergedAbout<K>(key: Id -> K, t: Table, infos: seq<Info>, j: nat)
    requires OwnIds(t) && j < |Merged(key, t, infos)|
    ensures About(infos, Merged(key, t, infos)[j].id)
  {
    var init, info := infos[..|infos| - 1], infos[|infos| - 1];
    MergedDistinct(key, t, init);
    MergeStep(key, t, Merged(key, t, init), info);
    AboutSnoc(infos, Merged(key, t, infos)[j].id);
    if j < |Merged(key, t, init)| {
      MergedAbout(key, t, init, j);
    }
  }

  lemma {:induction false} MergedFound<K>(key: Id -> K, t: Table, infos: seq<Info>, id: Id)
    requires OwnIds(t) && About(infos, id)
    ensures IndexOf(key, Merged(key, t, infos), key(id)) < |Merged(key, t, infos)|
  {
    var init, info := infos[..|infos| - 1], infos[|infos| - 1];
    var rows, rows' := Merged(key, t, init), Merged(key, t, infos);
    MergedDistinct(key, t, init);
    MergeStep(key, t, rows, info);
    AboutSnoc(infos, id);
    if About(init, id) {
      MergedFound(key, t, init, id);
      assert key(rows'[IndexOf(key, rows, key(id))].id) == key(id);
    }
  }

  /** Only one record is stored under a key. */
  lemma Apart<K>(key: Id -> K, rows: seq<Row>, k: K, j: nat)
    requires DistinctKeys(key, rows) && j < |rows| && j != IndexOf(key, rows, k)
    ensures key(rows[j].id) != k
  {
  }

  lemma {:induction false} SaveAllAt<K>(key: Id -> K, t: Table, rows: seq<Row>, id: Id)
    requires DistinctKeys(key, rows)
    ensures id in SaveAll(t, rows) <==> id in t || Has(rows, id)
    ensures !Has(rows, id) && id in t ==> SaveAll(t, rows)[id] == t[id]
    ensures forall j | 0 <= j < |rows| && rows[j].id == id :: SaveAll(t, rows)[id] == rows[j]
  {
    if rows == [] {
    } else {
      var n := |rows| - 1;
      SaveAllAt(key, t, rows[..n], id);
      if Has(rows[..n], id) {
        var j :| 0 <= j < n && rows[..n][j].id == id;
        assert rows[j].id == id;
      }
      if Has(rows, id) && rows[n].id != id {
        var j :| 0 <= j < |rows| && rows[j].id == id;
        assert rows[..n][j].id == id;
      }
    }
  }

  lemma NoClashPrefix<K>(key: Id -> K, infos: seq<Info>)
    requires infos != [] && NoClash(key, infos)
    ensures NoClash(key, infos[..|infos| - 1])
  {
    var init := infos[..|infos| - 1];
    forall i, j | 0 <= i < |init| && 0 <= j < |init| && key(init[i].id) == key(init[j].id)
      ensures init[i].id == init[j].id
    {
      assert init[i] == infos[i] && init[j] == infos[j];
    }
  }

  /**
   Without a clash the record found under the key is the event's own, and no record means the first event about it.
   */
  lemma FoundIsOwn<K>(key: Id -> K, t: Table, infos: seq<Info>)
    requires infos != [] && NoClash(key, infos) && OwnIds(t)
    ensures var n := |infos| - 1;
            var rows, info := Merged(key, t, infos[..n]), infos[n];
            var at := IndexOf(key, rows, key(info.id));
            if at < |rows| then rows[at].id == info.id else !About(infos[..n], info.id)
  {
    var n := |infos| - 1;
    var rows, info := Merged(key, t, infos[..n]), infos[n];
    var at := IndexOf(key, rows, key(info.id));
    if About(infos[..n], info.id) {
      MergedFound(key, t, infos[..n], info.id);
    }
    if at < |rows| {
      MergedAbout(key, t, infos[..n], at);
      var i :| 0 <= i < n && infos[..n][i].id == rows[at].id;
      assert infos[i].id == rows[at].id;
    }
  }

  ghost predicate Agree(t: Table, rows: seq<Row>) {
    forall j | 0 <= j < |rows| :: rows[j].id in t && t[rows[j].id] == rows[j]
  }

  lemma AgreeUpdate<K>(key: Id -> K, stored: Table, rows: seq<Row>, info: Info)
    requires DistinctKeys(key, rows) && Agree(stored, rows) && IndexOf(key, rows, key(info.id)) < |rows|
    requires rows[IndexOf(key, rows, key(info.id))].id == info.id
    ensures var at := IndexOf(key, rows, key(info.id)); Agree(One(stored, info), rows[at := Updated(rows[at], info)])
  {
    var at := IndexOf(key, rows, key(info.id));
    forall j | 0 <= j < |rows| && j != at
      ensures rows[j].id != info.id
    {
      Apart(key, rows, key(info.id), j);
    }
    assert Updated(rows[at], info).id == info.id;
  }

  lemma AgreeAppend<K>(key: Id -> K, stored: Table, rows: seq<Row>, info: Info, row: Row)
    requires Agree(stored, rows) && IndexOf(key, rows, key(info.id)) == |rows| && row.id == info.id
    ensures Agree(stored[info.id := row], rows + [row])
  {
    forall j | 0 <= j < |rows|
      ensures rows[j].id != info.id
    {
      assert key(rows[j].id) != key(info.id);
    }
  }

  lemma AgreeStep<K>(key: Id -> K, t: Table, stored: Table, rows: seq<Row>, info: Info)
    requires OwnIds(t) && DistinctKeys(key, rows) && Agree(stored, rows)
    requires var at := IndexOf(key, rows, key(info.id));
             if at < |rows| then rows[at].id == info.id else FindOrCreate(stored, info) == FindOrCreate(t, info)
    ensures Agree(One(stored, info), Merge(key, t, rows, info))
  {
    if IndexOf(key, rows, key(info.id)) < |rows| {
      AgreeUpdate(key, stored, rows, info);
    } else {
      AgreeAppend(key, stored, rows, info, Updated(FindOrCreate(t, info), info));
    }
  }

  /** What is held in memory is what one event at a time would have stored. */
  lemma {:induction false} HeldIsStored<K>(key: Id -> K, t: Table, infos: seq<Info>)
    requires OwnIds(t) && NoClash(key, infos)
    ensures Agree(Serial(t, infos), Merged(key, t, infos))
  {
    if infos == [] {
    } else {
      var init, info := infos[..|infos| - 1], infos[|infos| - 1];
      NoClashPrefix(key, infos);
      HeldIsStored(key, t, init);
      FoundIsOwn(key, t, infos);
      MergedDistinct(key, t, init);
      SerialTouches(t, init, info.id);
      AgreeStep(key, t, Serial(t, init), Merged(key, t, init), info);
    }
  }

  lemma HeldIffAbout<K>(key: Id -> K, t: Table, infos: seq<Info>, id: Id)
    requires OwnIds(t) && NoClash(key, infos)
    ensures Has(Merged(key, t, infos), id) <==> About(infos, id)
  {
    var rows := Merged(key, t, infos);
    if About(infos, id) {
      var i :| 0 <= i < |infos| && infos[i].id == id;
      MergedFound(key, t, infos, id);
      var at := IndexOf(key, rows, key(id));
      MergedAbout(key, t, infos, at);
      var k :| 0 <= k < |infos| && infos[k].id == rows[at].id;
      assert rows[at].id == id;
    }
    if Has(rows, id) {
      var j :| 0 <= j < |rows| && rows[j].id == id;
      MergedAbout(key, t, infos, j);
    }
  }

  lemma BatchIsSerial<K>(key: Id -> K, t: Table, infos: seq<Info>)
    requires OwnIds(t) && NoClash(key, infos)
    ensures Batch(key, t, infos) == Serial(t, infos)
  {
    MergedDistinct(key, t, infos);
    HeldIsStored(key, t, infos);
    forall id
      ensures id in Batch(key, t, infos) <==> id in Serial(t, infos)
      ensures id in Batch(key, t, infos) ==> Batch(key, t, infos)[id] == Serial(t, infos)[id]
    {
      SaveAllAt(key, t, Merged(key, t, infos), id);
      SerialTouches(t, infos, id);
      HeldIffAbout(key, t, infos, id);
    }
  }

  /** Two records under one key: one of them is not even stored. */
  lemma ClashLosesRecord<K>(key: Id -> K, infos: seq<Info>, i: nat, j: nat)
    requires i < |infos| && j < |infos| && key(infos[i].id) == key(infos[j].id) && infos[i].id != infos[j].id
    ensures Batch(key, map[], infos) != Serial(map[], infos)
  {
    var t: Table := map[];
    var rows, k := Merged(key, t, infos), key(infos[i].id);
    assert About(infos, infos[i].id) && About(infos, infos[j].id);
    MergedDistinct(key, t, infos);
    MergedFound(key, t, infos, infos[i].id);
    var at := IndexOf(key, rows, k);
    var id := if rows[at].id == infos[i].id then infos[j].id else infos[i].id;
    forall n | 0 <= n < |rows|
      ensures rows[n].id != id
    {
      if n != at {
        Apart(key, rows, k, n);
      }
    }
    SaveAllAt(key, t, rows, id);
    SerialTouches(t, infos, id);
  }

  /**
   A batch stores what its events would store one after the other, whatever is in the table, exactly when no two of its
   records share a key.
   */
  lemma BatchIsSerialIff(infos: seq<Info>)
    ensures NoClash(Key, infos) <==> forall t: Table | OwnIds(t) :: Batch(Key, t, infos) == Serial(t, infos)
  {
    if NoClash(Key, infos) {
      forall t: Table | OwnIds(t)
        ensures Batch(Key, t, infos) == Serial(t, infos)
      {
        BatchIsSerial(Key, t, infos);
      }
    } else {
      var i, j :| 0 <= i < |infos| && 0 <= j < |infos| && Key(infos[i].id) == Key(infos[j].id)
        && infos[i].id != infos[j].id;
      ClashLosesRecord(Key, infos, i, j);
      var empty: Table := map[];
      assert OwnIds(empty);
    }
  }

  /** The batches that occur: each record is saved once, and as one event at a time would leave it. */
  lemma ProgramBatches(t: Table, infos: seq<Info>)
    requires OwnIds(t) && forall i | 0 <= i < |infos| :: '_' !in infos[i].id.programId
    ensures Batch(Key, t, infos) == Serial(t, infos) && OwnIds(Serial(t, infos))
    ensures DistinctKeys(Key, Merged(Key, t, infos)) && Agree(Serial(t, infos), Merged(Key, t, infos))
    ensures forall id :: Has(Merged(Key, t, infos), id) <==> About(infos, id)
  {
    forall i, j | 0 <= i < |infos| && 0 <= j < |infos| && Key(infos[i].id) == Key(infos[j].id)
      ensures infos[i].id == infos[j].id
    {
      KeyInjective(infos[i].id, infos[j].id);
    }
    BatchIsSerial(Key, t, infos);
    MergedDistinct(Key, t, infos);
    HeldIsStored(Key, t, infos);
    SerialOwnIds(t, infos);
    forall id
      ensures Has(Merged(Key, t, infos), id) <==> About(infos, id)
    {
      HeldIffAbout(Key, t, infos, id);
    }
  }

  lemma {:induction false} SerialOwnIds(t: Table, infos: seq<Info>)
    requires OwnIds(t)
    ensures OwnIds(Serial(t, infos))
  {
    if infos == [] {
    } else {
      SerialOwnIds(t, infos[..|infos| - 1]);
    }
  }

  lemma FirstAbout(infos: seq<Info>, i: nat)
    requires i < |infos| && forall j | 0 <= j < i :: infos[j].id != infos[i].id
    ensures !About(infos[..i], infos[i].id)
  {
    forall j | 0 <= j < i
      ensures infos[..i][j].id != infos[i].id
    {
      assert infos[..i][j] == infos[j];
    }
  }

  /** A record that was there keeps its creation time; a new one has that of the first event about it. */
  lemma {:induction false} CreationTime(t: Table, infos: seq<Info>, i: nat)
    requires i < |infos|
    requires forall j | 0 <= j < i :: infos[j].id != infos[i].id
    ensures infos[i].id in Serial(t, infos)
    ensures Serial(t, infos)[infos[i].id].createdAt == if infos[i].id in t then t[infos[i].id].createdAt
              else infos[i].at
    decreases |infos|
  {
    var n := |infos| - 1;
    if i < n {
      CreationTime(t, infos[..n], i);
    } else {
      SerialTouches(t, infos[..n], infos[i].id);
      FirstAbout(infos, n);
    }
  }
}
