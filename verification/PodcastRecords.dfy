/** What a batch of progress events stores: the values of the last event about each record. */
module PodcastRecords {
  import opened Prelude
  import AuthKeys
  import opened PodcastProgress

  /** The event's own number when it has one that is not zero, and 1 otherwise. */
  ghost predicate OwnOrOne(x: Option<real>, stored: real) {
    match x
    case None => stored == 1.0
    case Some(n) => if n == 0.0 then stored == 1.0 else stored == n
  }

  predicate HasText(s: string) {
    exists i :: 0 <= i < |s| && !AuthKeys.IsSpace(s[i])
  }

  /** The event's album when it is more than white space, and none otherwise. */
  ghost predicate OwnAlbum(x: Option<string>, stored: Option<string>) {
    match x
    case None => stored == None
    case Some(s) => if HasText(s) then stored == Some(s) else stored == None
  }

  /** The record that the event leaves; its creation time is another matter. */
  ghost predicate Leaves(info: Info, r: Row) {
    && r.id == info.id && r.updatedAt == info.at
    && OwnOrOne(info.progress, r.progress) && OwnOrOne(info.lastProgress, r.lastProgress)
    && OwnAlbum(info.albumId, r.albumId)
  }

  lemma {:induction false} StartHasText(s: string)
    ensures HasText(AuthKeys.TrimStart(s)) <==> HasText(s)
  {
    if s != "" && AuthKeys.IsSpace(s[0]) {
      StartHasText(s[1..]);
      if HasText(s) {
        var i :| 0 <= i < |s| && !AuthKeys.IsSpace(s[i]);
        assert s[1..][i - 1] == s[i];
      }
      if HasText(s[1..]) {
        var i :| 0 <= i < |s| - 1 && !AuthKeys.IsSpace(s[1..][i]);
        assert s[i + 1] == s[1..][i];
      }
    }
  }

  lemma {:induction false} EndHasText(s: string)
    ensures HasText(AuthKeys.TrimEnd(s)) <==> HasText(s)
  {
    if s != "" && AuthKeys.IsSpace(s[|s| - 1]) {
      EndHasText(s[..|s| - 1]);
      if HasText(s) {
        var i :| 0 <= i < |s| && !AuthKeys.IsSpace(s[i]);
        assert s[..|s| - 1][i] == s[i];
      }
      if HasText(s[..|s| - 1]) {
        var i :| 0 <= i < |s| - 1 && !AuthKeys.IsSpace(s[..|s| - 1][i]);
        assert s[i] == s[..|s| - 1][i];
      }
    }
  }

  /** Nothing is left of a text by trimming exactly when all of it is white space. */
  lemma TrimmedIff(s: string)
    ensures AuthKeys.TrimEnd(AuthKeys.TrimStart(s)) != "" <==> HasText(s)
  {
    StartHasText(s);
    EndHasText(AuthKeys.TrimStart(s));
    var t := AuthKeys.TrimEnd(AuthKeys.TrimStart(s));
    if t != "" {
      assert !AuthKeys.IsSpace(t[|t| - 1]);
    }
  }

  lemma UpdatedLeaves(row: Row, info: Info)
    requires row.id == info.id
    ensures Leaves(info, Updated(row, info)) && Updated(row, info).createdAt == row.createdAt
  {
    if info.albumId.Some? {
      TrimmedIff(info.albumId.value);
    }
  }

  /** No event from place `i` on is about the record. */
  ghost predicate LastAbout(infos: seq<Info>, i: nat) {
    i < |infos| && forall j | i < j < |infos| :: infos[j].id != infos[i].id
  }

  lemma {:induction false} SerialLast(t: Table, infos: seq<Info>, i: nat)
    requires OwnIds(t) && LastAbout(infos, i)
    ensures infos[i].id in Serial(t, infos) && Leaves(infos[i], Serial(t, infos)[infos[i].id])
  {
    var n := |infos| - 1;
    SerialOwnIds(t, infos[..n]);
    if i < n {
      SerialLast(t, infos[..n], i);
    } else {
      UpdatedLeaves(FindOrCreate(Serial(t, infos[..n]), infos[n]), infos[n]);
    }
  }

  /**
   After a batch every record that an event is about holds what the last event about it says, and was created when it
   was before or else at the first event; all other records are as before.
   */
  lemma BatchStores(t: Table, infos: seq<Info>, first: nat, last: nat)
    requires OwnIds(t) && NoClash(Key, infos)
    requires LastAbout(infos, last) && first <= last && infos[first].id == infos[last].id
    requires forall j | 0 <= j < first :: infos[j].id != infos[first].id
    ensures var id, stored := infos[last].id, Batch(Key, t, infos);
            && id in stored && Leaves(infos[last], stored[id])
            && stored[id].createdAt == if id in t then t[id].createdAt else infos[first].at
  {
    BatchIsSerial(Key, t, infos);
    SerialLast(t, infos, last);
    CreationTime(t, infos, first);
  }

  lemma BatchSpares(t: Table, infos: seq<Info>, id: Id)
    requires OwnIds(t) && NoClash(Key, infos) && forall j | 0 <= j < |infos| :: infos[j].id != id
    ensures id in Batch(Key, t, infos) <==> id in t
    ensures id in t ==> Batch(Key, t, infos)[id] == t[id]
  {
    BatchIsSerial(Key, t, infos);
    SerialTouches(t, infos, id);
  }
}
