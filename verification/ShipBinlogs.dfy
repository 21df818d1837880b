/** Crash-resumable shipping: db/provision/ship_binlogs.py. */
module ShipBinlogs {
  import opened Options
  import opened Strings

  datatype Marker = Marker(uuid: string, logName: string)

  /** The marker file's reading: absent, empty or one-word content is no marker at all. */
  function LoadMarker(file: Option<string>): Option<Marker> {
    if file.None? then None
    else
      var content := Strip(file.value);
      var space := Find(content, " ");
      if space == -1 then None else Some(Marker(content[..space], content[space + 1..]))
  }

  /** What `save_marker` puts in the file. */
  function MarkerText(uuid: string, logName: string): string { uuid + " " + logName }

  predicate Word(s: string) { s != "" && forall c | c in s :: !IsSpace(c) }

  lemma FirstSpace(uuid: string, rest: string)
    requires ' ' !in uuid
    ensures Find(uuid + " " + rest, " ") == |uuid|
  {
    var text := uuid + " " + rest;
    FindIsFirst(text, " ");
    FindChar(text, ' ');
    assert text[|uuid|] == ' ';
    assert forall i | 0 <= i < |uuid| :: text[i] == uuid[i];
    InPrefix(text, |uuid|, Find(text, " "));
  }

  /** A saved marker is read back as it was saved. */
  lemma MarkerRoundTrip(uuid: string, logName: string)
    requires Word(uuid) && Word(logName)
    ensures LoadMarker(Some(MarkerText(uuid, logName))) == Some(Marker(uuid, logName))
  {
    var text := MarkerText(uuid, logName);
    assert uuid[0] in uuid && logName[|logName| - 1] in logName;
    StripNone(text);
    FirstSpace(uuid, logName);
    assert text[..|uuid|] == uuid && text[|uuid| + 1..] == logName;
  }

  function IndexOf(logs: seq<string>, name: string): (i: nat)
    requires name in logs
    ensures i < |logs| && logs[i] == name && name !in logs[..i]
  {
    if logs[0] == name then 0 else IndexOf(logs[1..], name) + 1
  }

  /** The marker is this incarnation's, and its log is still listed. */
  predicate Trusted(marker: Option<Marker>, uuid: string, closed: seq<string>) {
    marker.Some? && marker.value.uuid == uuid && marker.value.logName in closed
  }

  /** `logs_to_ship`: everything after a marker that can be trusted, else everything. */
  function LogsToShip(closed: seq<string>, marker: Option<Marker>, uuid: string): seq<string> {
    if !Trusted(marker, uuid, closed) then closed
    else closed[IndexOf(closed, marker.value.logName) + 1..]
  }

  datatype Shipped = Shipped(uuid: string, logName: string)

  /** A marker worth resuming from: it names a log of this incarnation that, together with
      every earlier log still retained, has been uploaded. */
  predicate Resumable(marker: Option<Marker>, uploaded: set<Shipped>, uuid: string, closed: seq<string>) {
    Trusted(marker, uuid, closed) ==>
      forall j | 0 <= j <= IndexOf(closed, marker.value.logName) :: Shipped(uuid, closed[j]) in uploaded
  }

  predicate DistinctNames(s: seq<string>) { forall i, j | 0 <= i < j < |s| :: s[i] != s[j] }

  /** Nothing is skipped: what is not pending was uploaded before and ends with the marker's log, and what is
      pending is the rest, in order. Everything is pending exactly when the marker cannot be trusted. */
  lemma PendingIsTheRest(marker: Option<Marker>, uploaded: set<Shipped>, uuid: string, closed: seq<string>)
    requires Resumable(marker, uploaded, uuid, closed)
    ensures var pending := LogsToShip(closed, marker, uuid);
      var skipped := |closed| - |pending|;
      && 0 <= skipped && closed[skipped..] == pending
      && (forall j | 0 <= j < skipped :: Shipped(uuid, closed[j]) in uploaded)
      && (skipped > 0 <==> Trusted(marker, uuid, closed))
      && (skipped > 0 ==> closed[skipped - 1] == marker.value.logName)
  {
  }

  /** The server purging old logs, closing new ones, or coming back under a new uuid keeps the marker resumable. */
  lemma ServerMoves(marker: Option<Marker>, uploaded: set<Shipped>, uuid: string, closed: seq<string>, purged: nat,
                    more: seq<string>)
    requires Resumable(marker, uploaded, uuid, closed) && purged <= |closed|
    requires DistinctNames(closed + more)
    requires marker.Some? && marker.value.uuid == uuid ==> marker.value.logName !in more
    ensures Resumable(marker, uploaded, uuid, closed[purged..] + more)
  {
    var now := closed[purged..] + more;
    if marker.Some? && marker.value.uuid == uuid && marker.value.logName in now {
      var name := marker.value.logName;
      var i := IndexOf(now, name);
      assert i < |closed| - purged;
      assert closed[purged + i] == name;
      var was := IndexOf(closed, name);
      assert (closed + more)[was] == (closed + more)[purged + i];
      forall j | 0 <= j <= i ensures Shipped(uuid, now[j]) in uploaded {
        assert now[j] == closed[purged + j];
      }
    }
  }

  /** A marker on log number `k`, everything up to it uploaded, resumes at `k + 1`. */
  lemma MarkedUpTo(uploaded: set<Shipped>, uuid: string, closed: seq<string>, k: nat)
    requires DistinctNames(closed) && k < |closed|
    requires forall j | 0 <= j <= k :: Shipped(uuid, closed[j]) in uploaded
    ensures Resumable(Some(Marker(uuid, closed[k])), uploaded, uuid, closed)
    ensures LogsToShip(closed, Some(Marker(uuid, closed[k])), uuid) == closed[k + 1..]
  {
    assert IndexOf(closed, closed[k]) == k;
  }

  /** Where a run stops: nowhere, before uploading pending log `at`, or between its upload and its marker. */
  datatype Stop = Never | BeforeUpload(at: nat) | BeforeMarker(at: nat)

  function ShippedSet(uuid: string, names: seq<string>): set<Shipped> { set n | n in names :: Shipped(uuid, n) }

  lemma ShippedSetGrows(uuid: string, names: seq<string>, name: string)
    ensures ShippedSet(uuid, names + [name]) == ShippedSet(uuid, names) + {Shipped(uuid, name)}
  {
    assert name in names + [name];
    forall n | n in names ensures n in names + [name] {
    }
  }

  /** However far a run got, its marker resumes exactly there. */
  lemma MarkerKept(was: Option<Marker>, before: set<Shipped>, now: Option<Marker>, uploaded: set<Shipped>,
                   uuid: string, closed: seq<string>, pending: seq<string>, done: nat)
    requires DistinctNames(closed) && Resumable(was, before, uuid, closed)
    requires pending == LogsToShip(closed, was, uuid) && done <= |pending|
    requires before + ShippedSet(uuid, pending[..done]) <= uploaded
    requires now == if done == 0 then was else Some(Marker(uuid, pending[done - 1]))
    ensures Resumable(now, uploaded, uuid, closed) && LogsToShip(closed, now, uuid) == pending[done..]
  {
    PendingIsTheRest(was, before, uuid, closed);
    var from := |closed| - |pending|;
    if done > 0 {
      var last := from + done - 1;
      UploadedUpTo(uploaded, uuid, closed, from, done);
      MarkedUpTo(uploaded, uuid, closed, last);
      assert closed[last + 1..] == closed[from..][done..];
    }
  }

  lemma UploadedUpTo(uploaded: set<Shipped>, uuid: string, closed: seq<string>, from: nat, done: nat)
    requires 0 < done && from + done <= |closed|
    requires forall j | 0 <= j < from :: Shipped(uuid, closed[j]) in uploaded
    requires ShippedSet(uuid, closed[from..][..done]) <= uploaded
    ensures forall j | 0 <= j < from + done :: Shipped(uuid, closed[j]) in uploaded
  {
    forall j | from <= j < from + done ensures Shipped(uuid, closed[j]) in uploaded {
      assert closed[j] == closed[from..][..done][j - from];
    }
  }

  /** What a run that recorded `done` of its pending logs uploaded, the one cut off before its marker included. */
  function UploadedBy(uuid: string, pending: seq<string>, done: nat, stop: Stop): set<Shipped>
    requires done <= |pending|
  {
    ShippedSet(uuid, pending[..done])
      + if done < |pending| && stop == BeforeMarker(done) then {Shipped(uuid, pending[done])} else {}
  }

  /** The bucket's shipped logs and the marker, as the file `save_marker` writes is read back. */
  class Shipper {
    var uploaded: set<Shipped>
    var marker: Option<Marker>

    predicate Ready(uuid: string, closed: seq<string>)
      reads this
    {
      Resumable(marker, uploaded, uuid, closed)
    }

    /** Uploads one log and then records it; may stop in between. */
    method ShipOne(uuid: string, name: string, stopBeforeMarker: bool)
      modifies this
      ensures uploaded == old(uploaded) + {Shipped(uuid, name)}
      ensures marker == if stopBeforeMarker then old(marker) else Some(Marker(uuid, name))
    {
      uploaded := uploaded + {Shipped(uuid, name)};
      if !stopBeforeMarker {
        marker := Some(Marker(uuid, name));
      }
    }

    /** The upload loop; `done` of the pending logs end up recorded. */
    method ShipPending(uuid: string, pending: seq<string>, stop: Stop) returns (done: nat)
      modifies this
      ensures done <= |pending| && (done < |pending| ==> stop == BeforeUpload(done) || stop == BeforeMarker(done))
      ensures marker == if done == 0 then old(marker) else Some(Marker(uuid, pending[done - 1]))
      ensures uploaded == old(uploaded) + UploadedBy(uuid, pending, done, stop)
    {
      done := 0;
      while done < |pending| && stop != BeforeUpload(done)
        invariant done <= |pending|
        invariant marker == if done == 0 then old(marker) else Some(Marker(uuid, pending[done - 1]))
        invariant uploaded == old(uploaded) + ShippedSet(uuid, pending[..done])
      {
        ShipOne(uuid, pending[done], stop == BeforeMarker(done));
        if stop == BeforeMarker(done) {
          return;
        }
        ShippedSetGrows(uuid, pending[..done], pending[done]);
        assert pending[..done + 1] == pending[..done] + [pending[done]];
        done := done + 1;
      }
    }

    /** One run over the closed logs the server lists: it records the first so many of the pending logs,
        all of them unless it is stopped, and however it stops the next run resumes exactly there. */
    method RunShip(uuid: string, closed: seq<string>, stop: Stop) returns (shipped: seq<string>)
      requires DistinctNames(closed) && Ready(uuid, closed)
      modifies this
      ensures Ready(uuid, closed)
      ensures var pending := LogsToShip(closed, old(marker), uuid);
        && |shipped| <= |pending| && shipped == pending[..|shipped|]
        && (|shipped| < |pending| ==> stop == BeforeUpload(|shipped|) || stop == BeforeMarker(|shipped|))
        && LogsToShip(closed, marker, uuid) == pending[|shipped|..]
        && uploaded == old(uploaded) + UploadedBy(uuid, pending, |shipped|, stop)
    {
      var pending := LogsToShip(closed, marker, uuid);
      var done := ShipPending(uuid, pending, stop);
      shipped := pending[..done];
      MarkerKept(old(marker), old(uploaded), marker, uploaded, uuid, closed, pending, done);
    }
  }

  /** Whatever run came before, a run that is not stopped leaves every retained closed log uploaded. */
  method CatchUp(s: Shipper, uuid: string, closed: seq<string>, stop: Stop)
    requires DistinctNames(closed) && s.Ready(uuid, closed)
    modifies s
    ensures forall n | n in closed :: Shipped(uuid, n) in s.uploaded
  {
    var first := s.RunShip(uuid, closed, stop);
    var rest := s.RunShip(uuid, closed, Never);
    PendingIsTheRest(s.marker, s.uploaded, uuid, closed);
  }
}
