/** Streaming a checked image into `docker load`: demo-host/provision/branchleft_slot.py. */
module ImageLoad {

  type Byte = bv8

  /** What one `pread` gives. */
  datatype ReadResult = Data(bytes: seq<Byte>) | ReadFailed

  /** What one `write` to docker's pipe gives: how much it took, or that docker had closed it. */
  datatype WriteResult = Took(n: nat) | Broken

  datatype Copied = All | PipeBroke | EndedEarly(offset: nat) | CouldNotRead

  datatype Outcome = Loaded | Truncated(offset: nat) | ReadError | NotAllRead | TimedOut | Exited(status: int)

  const CHUNK := 1048576
  const TIMEOUT_STATUSES := {124, 137, -9}

  /** The image file as it is at each read: it may grow, shrink or change in between. Read `k` at an
      offset gives some non-empty part of what is there then, or nothing when nothing is. */
  class ImageFile {
    const content: nat -> seq<Byte>
    const part: nat -> nat
    const fails: nat -> bool
    var calls: nat

    constructor (content: nat -> seq<Byte>, part: nat -> nat, fails: nat -> bool) {
      this.content, this.part, this.fails, calls := content, part, fails, 0;
    }

    method Pread(length: nat, offset: nat) returns (r: ReadResult)
      requires length > 0
      modifies this
      ensures calls == old(calls) + 1
      ensures r.ReadFailed? <==> fails(old(calls))
      ensures r.Data? ==> |r.bytes| <= length
      ensures r.Data? ==> offset + |r.bytes| <= |content(old(calls))| || r.bytes == []
      ensures r.Data? ==> forall i | 0 <= i < |r.bytes| :: r.bytes[i] == content(old(calls))[offset + i]
      ensures r.Data? ==> (r.bytes == [] <==> |content(old(calls))| <= offset)
    {
      var now, k := content(calls), calls;
      calls := calls + 1;
      if fails(k) {
        return ReadFailed;
      }
      if |now| <= offset {
        return Data([]);
      }
      var most := if |now| - offset < length then |now| - offset else length;
      var n := if part(k) == 0 then 1 else if part(k) < most then part(k) else most;
      return Data(now[offset..offset + n]);
    }
  }

  predicate Held(content: nat -> seq<Byte>, k: nat, i: nat, b: Byte) { i < |content(k)| && content(k)[i] == b }

  predicate HeldOnce(content: nat -> seq<Byte>, before: nat, i: nat, b: Byte) {
    exists k | 0 <= k < before :: Held(content, k, i, b)
  }

  /** Every byte was in the file at its own offset when it was read. */
  predicate FromFile(content: nat -> seq<Byte>, before: nat, data: seq<Byte>) {
    forall i | 0 <= i < |data| :: HeldOnce(content, before, i, data[i])
  }

  /** `docker load` under `timeout`: what has reached its stdin, and whether it is still running and
      has seen the end of it. */
  class Docker {
    const takes: nat -> WriteResult
    var writes: nat
    var received: seq<Byte>
    var killed: bool
    var sawEnd: bool

    constructor (takes: nat -> WriteResult)
      ensures received == [] && !killed && !sawEnd && this.takes == takes && writes == 0
    {
      this.takes, writes, received, killed, sawEnd := takes, 0, [], false, false;
    }

    method Write(view: seq<Byte>) returns (r: WriteResult)
      requires view != []
      modifies this
      ensures killed == old(killed) && sawEnd == old(sawEnd) && writes == old(writes) + 1
      ensures r.Broken? <==> takes(old(writes)).Broken?
      ensures r.Took? ==> 0 < r.n <= |view| && received == old(received) + view[..r.n]
      ensures r.Broken? ==> received == old(received)
    {
      var answer := takes(writes);
      writes := writes + 1;
      if answer.Broken? {
        return Broken;
      }
      var n := if answer.n == 0 then 1 else if answer.n < |view| then answer.n else |view|;
      received := received + view[..n];
      return Took(n);
    }

    /** `_kill_process_group_and_reap`. */
    method Kill()
      modifies this
      ensures killed && received == old(received) && sawEnd == old(sawEnd) && writes == old(writes)
    {
      killed := true;
    }

    /** Closing stdin: a docker still running now sees a clean end of file. */
    method CloseStdin()
      modifies this
      ensures sawEnd == (old(sawEnd) || !old(killed)) && killed == old(killed) && received == old(received)
      ensures writes == old(writes)
    {
      sawEnd := sawEnd || !killed;
    }

    /** `_write_all`: true unless docker had closed the pipe. */
    method WriteAll(data: seq<Byte>) returns (ok: bool)
      modifies this
      ensures killed == old(killed) && sawEnd == old(sawEnd)
      ensures old(received) <= received <= old(received) + data
      ensures ok ==> received == old(received) + data
      ensures writes >= old(writes)
      ensures ok <==> forall w | old(writes) <= w < writes :: !takes(w).Broken?
    {
      var view := data;
      while view != []
        invariant killed == old(killed) && sawEnd == old(sawEnd) && writes >= old(writes)
        invariant forall w | old(writes) <= w < writes :: !takes(w).Broken?
        invariant old(received) <= received && received + view == old(received) + data
        decreases |view|
      {
        var r := Write(view);
        if r.Broken? {
          assert (received + view)[..|received|] == received;
          return false;
        }
        assert view == view[..r.n] + view[r.n..];
        view := view[r.n..];
      }
      return true;
    }
  }

  lemma FromFileExtends(content: nat -> seq<Byte>, k: nat, data: seq<Byte>, chunk: seq<Byte>)
    requires FromFile(content, k, data)
    requires |data| + |chunk| <= |content(k)| && forall i | 0 <= i < |chunk| :: chunk[i] == content(k)[|data| + i]
    ensures FromFile(content, k + 1, data + chunk)
  {
    var all := data + chunk;
    forall i | 0 <= i < |all| ensures HeldOnce(content, k + 1, i, all[i]) {
      if i < |data| {
        HeldLonger(content, k, k + 1, i, all[i]);
      } else {
        assert Held(content, k, i, all[i]);
      }
    }
  }

  lemma HeldLonger(content: nat -> seq<Byte>, before: nat, more: nat, i: nat, b: Byte)
    requires HeldOnce(content, before, i, b) && before <= more
    ensures HeldOnce(content, more, i, b)
  {
    var k :| 0 <= k < before && Held(content, k, i, b);
    assert 0 <= k < more;
  }

  lemma FromFilePrefix(content: nat -> seq<Byte>, k: nat, more: nat, data: seq<Byte>, part: seq<Byte>)
    requires FromFile(content, k, data) && part <= data && k <= more
    ensures FromFile(content, more, part)
  {
    forall i | 0 <= i < |part| ensures HeldOnce(content, more, i, part[i]) {
      HeldLonger(content, k, more, i, data[i]);
    }
  }

  /** `_write_checked_bytes`. */
  method WriteCheckedBytes(docker: Docker, file: ImageFile, expected: nat) returns (r: Copied)
    requires docker.received == [] && !docker.killed && !docker.sawEnd && file.calls == 0 && docker.writes == 0
    modifies docker, file
    ensures !docker.sawEnd && |docker.received| <= expected && FromFile(file.content, file.calls, docker.received)
    ensures r.All? ==> |docker.received| == expected && !docker.killed
    ensures r.PipeBroke? || r.CouldNotRead? ==> !docker.killed
    ensures r.EndedEarly? ==> docker.killed && r.offset == |docker.received| < expected
    // it stops short only when it must: a read failed, docker had closed the pipe, or the file was too short
    ensures r.CouldNotRead? <==> exists k | 0 <= k < file.calls :: file.fails(k)
    ensures r.PipeBroke? <==> exists w | 0 <= w < docker.writes :: docker.takes(w).Broken?
    ensures r.EndedEarly? ==> file.calls > 0 && |file.content(file.calls - 1)| <= r.offset
  {
    var offset := 0;
    while offset < expected
      invariant offset == |docker.received| <= expected && !docker.killed && !docker.sawEnd
      invariant FromFile(file.content, file.calls, docker.received)
      invariant forall k | 0 <= k < file.calls :: !file.fails(k)
      invariant forall w | 0 <= w < docker.writes :: !docker.takes(w).Broken?
      decreases expected - offset
    {
      ghost var k, before := file.calls, docker.received;
      var chunk := file.Pread(if CHUNK < expected - offset then CHUNK else expected - offset, offset);
      if chunk.ReadFailed? {
        FromFilePrefix(file.content, k, file.calls, before, before);
        return CouldNotRead;
      }
      if chunk.bytes == [] {
        docker.Kill();
        FromFilePrefix(file.content, k, file.calls, before, before);
        return EndedEarly(offset);
      }
      FromFileExtends(file.content, k, before, chunk.bytes);
      var ok := docker.WriteAll(chunk.bytes);
      FromFilePrefix(file.content, k + 1, file.calls, before + chunk.bytes, docker.received);
      if !ok {
        return PipeBroke;
      }
      offset := offset + |chunk.bytes|;
    }
    return All;
  }

  /** `_raise_for_docker_exit`. */
  function ForExit(status: int, elapsed: int, timeout: int): Outcome {
    if status == 0 then Loaded
    else if status in TIMEOUT_STATUSES && elapsed >= timeout - 1 then TimedOut
    else Exited(status)
  }

  /** `_stream_checked_bytes_into_docker_load`; `status` is how docker ends if it is left to end by itself. */
  method Stream(docker: Docker, file: ImageFile, expected: nat, status: int, elapsed: int, timeout: int)
    returns (r: Outcome)
    requires docker.received == [] && !docker.killed && !docker.sawEnd && file.calls == 0 && docker.writes == 0
    modifies docker, file
    // however the file changes, a running docker sees the end of its input only after the whole of it
    ensures docker.sawEnd ==> |docker.received| == expected
    ensures FromFile(file.content, file.calls, docker.received) && |docker.received| <= expected
    ensures r.Loaded? ==> status == 0 && docker.sawEnd && !docker.killed && |docker.received| == expected
    ensures r.Truncated? || r.ReadError? ==> docker.killed && !docker.sawEnd
    ensures r.Truncated? ==> r.offset == |docker.received| < expected
    ensures r.NotAllRead? ==> status == 0 && !docker.sawEnd
    ensures r.TimedOut? ==> status in {124, 137, -9} && elapsed >= timeout - 1
    ensures r.Exited? ==> r.status == status != 0 && (status !in {124, 137, -9} || elapsed < timeout - 1)
    ensures r.Loaded? <==> docker.sawEnd && status == 0
    // left alone, a file that never falls short reaches docker whole
    ensures (&& (forall k | 0 <= k < file.calls :: !file.fails(k) && |file.content(k)| >= expected)
             && (forall w | 0 <= w < docker.writes :: !docker.takes(w).Broken?)) ==> docker.sawEnd
  {
    var copied := WriteCheckedBytes(docker, file, expected);
    match copied {
      case EndedEarly(offset) =>
        return Truncated(offset);
      case CouldNotRead =>
        docker.Kill();
        return ReadError;
      case PipeBroke =>
        return if status == 0 then NotAllRead else ForExit(status, elapsed, timeout);
      case All =>
        docker.CloseStdin();
        return ForExit(status, elapsed, timeout);
    }
  }
}
