/** The dead-man's switch: deadmans-switch/src/heartbeat.ts. */
module Heartbeat {

  /** One completed cycle: whose, which targets are expected at that moment, and whether pings are let through. */
  datatype Call = Call(target: string, expected: seq<string>, letThrough: bool)

  datatype Outcome = Withheld | Suppressed | Pinged

  /** The targets known to have completed, once this call is counted in. */
  predicate Decides(completed: set<string>, c: Call) {
    c.expected != [] && forall id | id in c.expected :: id in completed + {c.target}
  }

  function Next(completed: set<string>, c: Call): set<string> {
    if Decides(completed, c) then {} else completed + {c.target}
  }

  class DeadMansSwitch {
    var completedSinceLastPing: set<string>

    constructor ()
      ensures completedSinceLastPing == {}
    {
      completedSinceLastPing := {};
    }

    /** `expected.every(...)`. */
    method AllCompleted(expected: seq<string>) returns (all: bool)
      ensures all <==> forall id | id in expected :: id in completedSinceLastPing
    {
      for i := 0 to |expected|
        invariant forall j | 0 <= j < i :: expected[j] in completedSinceLastPing
      {
        if expected[i] !in completedSinceLastPing {
          assert expected[i] in expected;
          return false;
        }
      }
      return true;
    }

    method OnCycleComplete(c: Call) returns (r: Outcome)
      modifies this
      ensures completedSinceLastPing == Next(old(completedSinceLastPing), c)
      ensures r == if !Decides(old(completedSinceLastPing), c) then Withheld
                   else if c.letThrough then Pinged else Suppressed
    {
      completedSinceLastPing := completedSinceLastPing + {c.target};
      if c.expected == [] {
        return Withheld;
      }
      var all := AllCompleted(c.expected);
      if !all {
        return Withheld;
      }
      completedSinceLastPing := {};
      return if c.letThrough then Pinged else Suppressed;
    }
  }

  // ---- over any sequence of calls ------------------------------------------

  function After(calls: seq<Call>): set<string> {
    if calls == [] then {} else Next(After(calls[..|calls| - 1]), calls[|calls| - 1])
  }

  /** Call `i` decides to ping. */
  predicate DecidesAt(calls: seq<Call>, i: nat)
    requires i < |calls|
  {
    Decides(After(calls[..i]), calls[i])
  }

  /** Reported at some call from `from` up to, not including, `to`. */
  predicate Reported(calls: seq<Call>, from: nat, to: nat, id: string)
    requires to <= |calls|
  {
    exists j | from <= j < to :: calls[j].target == id
  }

  /** The last decision before call `i` was just before call `from`, or there was none and `from` is 0. */
  predicate Since(calls: seq<Call>, from: nat, i: nat)
    requires i <= |calls|
  {
    && from <= i && (from > 0 ==> DecidesAt(calls, from - 1))
    && forall j | from <= j < i :: !DecidesAt(calls, j)
  }

  lemma {:induction false} CompletedIsReported(calls: seq<Call>, from: nat, i: nat, id: string)
    requires i <= |calls| && Since(calls, from, i)
    ensures id in After(calls[..i]) <==> Reported(calls, from, i, id)
    decreases i
  {
    if from < i {
      CompletedIsReported(calls, from, i - 1, id);
      assert calls[..i][..i - 1] == calls[..i - 1];
      assert !DecidesAt(calls, i - 1);
    } else if i > 0 {
      assert calls[..i][..i - 1] == calls[..i - 1];
    }
  }

  /** A ping is decided exactly when some target is expected and every target then expected has
      reported since the previous decision, this call's own included. */
  lemma DecisionIff(calls: seq<Call>, from: nat, i: nat)
    requires i < |calls| && Since(calls, from, i)
    ensures DecidesAt(calls, i)
      <==> calls[i].expected != [] && forall id | id in calls[i].expected :: Reported(calls, from, i + 1, id)
  {
    forall id ensures id in After(calls[..i]) + {calls[i].target} <==> Reported(calls, from, i + 1, id) {
      CompletedIsReported(calls, from, i, id);
      if Reported(calls, from, i, id) {
        var j :| from <= j < i && calls[j].target == id;
        assert from <= j < i + 1;
      }
    }
  }

  /** Where the stretch without a decision before call `i` begins. */
  lemma StretchExists(calls: seq<Call>, i: nat) returns (from: nat)
    requires i <= |calls|
    ensures Since(calls, from, i)
  {
    from := i;
    while from > 0 && !DecidesAt(calls, from - 1)
      invariant from <= i && forall j | from <= j < i :: !DecidesAt(calls, j)
    {
      from := from - 1;
    }
  }

  lemma AfterDecision(calls: seq<Call>, j: nat, k: nat, from: nat)
    requires j < k < |calls| && DecidesAt(calls, j) && Since(calls, from, k)
    ensures j < from
  {
  }

  /** A target that stops reporting while it stays expected lets at most one more ping through. */
  lemma SilenceAllowsOnePing(calls: seq<Call>, target: string, quiet: nat, j: nat, k: nat)
    requires quiet <= j < k < |calls|
    requires forall i | quiet <= i < |calls| :: calls[i].target != target && target in calls[i].expected
    ensures !(DecidesAt(calls, j) && DecidesAt(calls, k))
  {
    if DecidesAt(calls, j) && DecidesAt(calls, k) {
      var from := StretchExists(calls, k);
      AfterDecision(calls, j, k, from);
      DecisionIff(calls, from, k);
    }
  }

  /** And nothing at all once the switch has already decided after it fell silent. */
  lemma SilentFromADecisionNeverPings(calls: seq<Call>, target: string, quiet: nat, k: nat)
    requires quiet <= k < |calls| && (quiet == 0 || DecidesAt(calls, quiet - 1))
    requires forall i | quiet <= i < |calls| :: calls[i].target != target && target in calls[i].expected
    ensures !DecidesAt(calls, k)
  {
    var from := StretchExists(calls, k);
    if quiet > 0 {
      AfterDecision(calls, quiet - 1, k, from);
    }
    DecisionIff(calls, from, k);
  }
}
