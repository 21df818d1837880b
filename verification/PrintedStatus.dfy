/** The cutover gate on the text the client prints: `parse_replica_status` and `evaluate` of
    db/provision/promotion_gate.py together. */
module PrintedStatus {
  import opened BinlogNames
  import opened Options
  import opened PromotionGate
  import opened ReplicaStatus
  import opened Strings

  /** The row prints that value for that field, over one line or several. */
  ghost predicate Shows(fields: seq<Printed>, key: string, value: string) {
    exists i | 0 <= i < |fields| :: fields[i].key == key && Joined(fields[i].first, fields[i].more) == value
  }

  ghost predicate ShowsAny(fields: seq<Printed>, key: string) { exists value :: Shows(fields, key, value) }

  lemma {:induction false} RowShows(fields: seq<Printed>, key: string)
    requires PrintableRow(fields)
    ensures key in RowOf(fields) <==> ShowsAny(fields, key)
    ensures key in RowOf(fields) ==> forall value :: Shows(fields, key, value) <==> RowOf(fields)[key] == value
  {
    if fields != [] {
      var front, last := fields[..|fields| - 1], fields[|fields| - 1];
      RowShows(front, key);
      forall value ensures Shows(fields, key, value)
        <==> Shows(front, key, value) || (last.key == key && Joined(last.first, last.more) == value)
      {
        assert forall i | 0 <= i < |front| :: front[i] == fields[i];
      }
      assert Shows(fields, last.key, Joined(last.first, last.more));
    }
  }

  /** The printed row is about the frozen source, and says that its applier is well. */
  ghost predicate PrintsFollowing(f: Frozen, fields: seq<Printed>) {
    && (exists uuid :: Shows(fields, "Source_UUID", uuid) && LowerAll(uuid) == LowerAll(f.uuid))
    && Shows(fields, "Replica_SQL_Running", "Yes")
    && exists errno :: Shows(fields, "Last_SQL_Errno", errno) && NumeralOf(errno, 0)
  }

  ghost predicate PrintsReceiving(fields: seq<Printed>) {
    && Shows(fields, "Replica_IO_Running", "Yes")
    && exists errno :: Shows(fields, "Last_IO_Errno", errno) && NumeralOf(errno, 0)
  }

  ghost predicate PrintsApplied(fields: seq<Printed>, base: string, n: nat, position: nat) {
    && (exists file :: Shows(fields, "Relay_Source_Log_File", file) && LogFileOf(file, base, n))
    && exists place :: Shows(fields, "Exec_Source_Log_Pos", place) && NumeralOf(place, position)
  }

  lemma RowPrints(f: Frozen, fields: seq<Printed>, c: Coordinates)
    requires PrintableRow(fields) && AllNamed(RowOf(fields), REQUIRED_FIELDS) && c.sequence >= 0 && c.position >= 0
    ensures FollowsIn(f, RowOf(fields)) <==> PrintsFollowing(f, fields)
    ensures ReceivesIn(RowOf(fields)) <==> PrintsReceiving(fields)
    ensures AppliedIn(RowOf(fields), c.base, c.sequence, c.position)
      <==> PrintsApplied(fields, c.base, c.sequence, c.position)
  {
    FieldsIff(RowOf(fields));
    RowShows(fields, "Source_UUID");
    RowShows(fields, "Replica_SQL_Running");
    RowShows(fields, "Last_SQL_Errno");
    RowShows(fields, "Replica_IO_Running");
    RowShows(fields, "Last_IO_Errno");
    RowShows(fields, "Relay_Source_Log_File");
    RowShows(fields, "Exec_Source_Log_Pos");
  }

  lemma RowNames(fields: seq<Printed>)
    requires PrintableRow(fields)
    ensures AllNamed(RowOf(fields), REQUIRED_FIELDS) <==> forall k | k in REQUIRED_FIELDS :: ShowsAny(fields, k)
  {
    forall k | k in REQUIRED_FIELDS ensures k in RowOf(fields) <==> ShowsAny(fields, k) {
      RowShows(fields, k);
    }
  }

  /** Of any answer the server prints, the gate promotes exactly when it is one row, with every required field,
      about the frozen source, saying that both threads are well and that the frozen place is what is applied. */
  lemma PromotesPrintedIff(f: Frozen, c: Coordinates, stars: string, table: seq<seq<Printed>>)
    requires ValidateFrozen(f) == Some(c)
    requires stars != "" && forall d | d in stars :: d == '*'
    requires forall i | 0 <= i < |table| :: PrintableRow(table[i])
    ensures var rows := RowsFrom(Classified(Lines(TextOf(TableTexts(stars, table)))));
      && rows.Some?
      && (Evaluate(f, rows.value).decision == Promote <==>
            && |table| == 1 && (forall k | k in REQUIRED_FIELDS :: ShowsAny(table[0], k))
            && PrintsFollowing(f, table[0]) && PrintsReceiving(table[0])
            && c.sequence >= 0 && c.position >= 0 && PrintsApplied(table[0], c.base, c.sequence, c.position))
  {
    StatusRoundTrip(stars, table);
    FrozenUsableIff(f, c);
    PromotesIff(f, RowsOf(table), c);
    if |table| == 1 {
      RowNames(table[0]);
      if AllNamed(RowOf(table[0]), REQUIRED_FIELDS) {
        RowPrints(f, table[0], c);
      }
    }
  }
}
