/** The object keys the dump and binlog pipelines write and the pruner reads back. */
module BackupKeys {
  import opened BinlogNames
  import opened Options
  import opened Strings

  datatype KeyParts = KeyParts(uuid: string, name: string)

  /** `object_key_for` in db/provision/ship_binlogs.py. */
  function BinlogKey(uuid: string, logName: string): string {
    "binlogs/" + uuid + "/db1-" + logName + ".age"
  }

  /** The key `dump_nightly.py` uploads a dump under. */
  function DumpKey(uuid: string, stamp: string): string { "dumps/" + uuid + "/db1-" + stamp + ".sql.age" }

  predicate PathSegment(uuid: string) { uuid != "" && '/' !in uuid }

  /** The uuid segment and the rest of a key under `prefix`, or nothing. */
  function SplitKey(key: string, prefix: string): Option<KeyParts> {
    if !StartsWith(key, prefix) then None
    else
      var rest := key[|prefix|..];
      var slash := Find(rest, "/");
      if slash < 1 then None else Some(KeyParts(rest[..slash], rest[slash + 1..]))
  }

  /** `^binlogs/(?P<uuid>[^/]+)/db1-(?P<log_name>.+)\.age$`. */
  function ParseBinlogKey(key: string): Option<KeyParts> {
    var split := SplitKey(key, "binlogs/");
    if split.None? then None
    else
      var tail := split.value.name;
      if |tail| > 8 && StartsWith(tail, "db1-") && EndsWith(tail, ".age")
      then Some(KeyParts(split.value.uuid, tail[4..|tail| - 4]))
      else None
  }

  predicate StampText(s: string) { s != "" && forall c | c in s :: IsDigit(c) || c == 'T' || c == 'Z' }

  lemma StampTextIff(s: string)
    ensures StampText(s) <==> Spelled(s, DIGITS, "TZ", "", "")
  {
    forall c ensures IsDigit(c) || c == 'T' || c == 'Z' <==> c in DIGITS || c in "TZ" || c in "" || c in "" {
      RangesAre(c);
      assert "TZ" == ['T', 'Z'];
    }
    SpelledIff(s, DIGITS, "TZ", "", "", c => IsDigit(c) || c == 'T' || c == 'Z');
  }

  /** `^dumps/(?P<uuid>[^/]+)/db1-[0-9TZ]+\.sql\.age$`. */
  function ParseDumpKey(key: string): Option<KeyParts> {
    var split := SplitKey(key, "dumps/");
    if split.None? then None
    else
      var tail := split.value.name;
      if |tail| > 12 && StartsWith(tail, "db1-") && EndsWith(tail, ".sql.age") && StampText(tail[4..|tail| - 8])
      then Some(KeyParts(split.value.uuid, tail[4..|tail| - 8]))
      else None
  }

  lemma SplitKeyIff(key: string, prefix: string, uuid: string, tail: string)
    ensures SplitKey(key, prefix) == Some(KeyParts(uuid, tail))
      <==> PathSegment(uuid) && key == prefix + (uuid + ("/" + tail))
  {
    if StartsWith(key, prefix) {
      var rest := key[|prefix|..];
      assert key == prefix + rest;
      FindIsFirst(rest, "/");
      FindChar(rest, '/');
      var slash := Find(rest, "/");
      if slash >= 1 {
        SplitAt(rest, slash, '/');
      }
      if PathSegment(uuid) && key == prefix + (uuid + ("/" + tail)) {
        SlashAfter(rest, uuid, tail, slash);
      }
    }
  }

  lemma SlashAfter(rest: string, uuid: string, tail: string, slash: int)
    requires rest == uuid + ("/" + tail) && '/' !in uuid && slash == Find(rest, "/")
    ensures slash == |uuid| && rest[..slash] == uuid && rest[slash + 1..] == tail
  {
    FindChar(rest, '/');
    assert rest[|uuid|] == '/';
    assert forall i | 0 <= i < |uuid| :: rest[i] == uuid[i];
    assert slash != -1 && slash >= |uuid|;
    InPrefix(rest, |uuid|, slash);
  }

  function BinlogTail(logName: string): string { "db1-" + logName + ".age" }

  lemma BinlogTailIff(tail: string, logName: string)
    requires logName != ""
    ensures (|tail| > 8 && StartsWith(tail, "db1-") && EndsWith(tail, ".age") && tail[4..|tail| - 4] == logName)
      <==> tail == BinlogTail(logName)
  {
    var own := BinlogTail(logName);
    assert own[4..|own| - 4] == logName && own[|own| - 4..] == ".age" && own[..4] == "db1-";
    if |tail| > 8 {
      assert tail == tail[..4] + tail[4..|tail| - 4] + tail[|tail| - 4..];
    }
  }

  /** The pruner reads a binlog key back as exactly what the shipper put in it, and reads nothing else. */
  lemma BinlogKeyIff(key: string, uuid: string, logName: string)
    ensures ParseBinlogKey(key) == Some(KeyParts(uuid, logName))
      <==> PathSegment(uuid) && logName != "" && key == BinlogKey(uuid, logName)
  {
    var tail := BinlogTail(logName);
    SplitKeyIff(key, "binlogs/", uuid, tail);
    assert "binlogs/" + (uuid + ("/" + tail)) == BinlogKey(uuid, logName);
    var split := SplitKey(key, "binlogs/");
    if split.Some? && logName != "" {
      BinlogTailIff(split.value.name, logName);
    }
  }

  function DumpTail(stamp: string): string { "db1-" + stamp + ".sql.age" }

  lemma DumpTailIff(tail: string, stamp: string)
    requires stamp != ""
    ensures (|tail| > 12 && StartsWith(tail, "db1-") && EndsWith(tail, ".sql.age") && tail[4..|tail| - 8] == stamp)
      <==> tail == DumpTail(stamp)
  {
    var own := DumpTail(stamp);
    assert own[4..|own| - 8] == stamp && own[|own| - 8..] == ".sql.age" && own[..4] == "db1-";
    if |tail| > 12 {
      assert tail == tail[..4] + tail[4..|tail| - 8] + tail[|tail| - 8..];
    }
  }

  /** The pruner reads a dump key back as exactly what the nightly run put in it, and reads nothing else. */
  lemma DumpKeyIff(key: string, uuid: string, stamp: string)
    ensures ParseDumpKey(key) == Some(KeyParts(uuid, stamp))
      <==> PathSegment(uuid) && StampText(stamp) && key == DumpKey(uuid, stamp)
  {
    var tail := DumpTail(stamp);
    SplitKeyIff(key, "dumps/", uuid, tail);
    assert "dumps/" + (uuid + ("/" + tail)) == DumpKey(uuid, stamp);
    var split := SplitKey(key, "dumps/");
    if split.Some? && stamp != "" {
      DumpTailIff(split.value.name, stamp);
    }
  }

  /** No key is both a dump's and a binlog's. */
  lemma KeyKindsDiffer(key: string)
    ensures ParseDumpKey(key).None? || ParseBinlogKey(key).None?
  {
    if ParseDumpKey(key).Some? {
      assert key[0] == "dumps/"[0];
      assert "binlogs/"[0] != key[0];
    }
  }
}
