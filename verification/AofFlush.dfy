/**
 Flushing the append only buffer to its file under short writes, failed writes
 and failed truncations.
 */
module AofFlush {
  import opened Bytes

  datatype Policy = Always | EverySec | Never

  /** The file, the bytes not yet written, and what the server believes the length of the file to be. */
  datatype Writer = Writer(file: seq<Byte>, buf: seq<Byte>, currentSize: nat, postponedStart: int, writeOk: bool, exited: bool)

  /** What the world looks like during one flush. */
  datatype FlushEnv = FlushEnv(policy: Policy, force: bool, fsyncRunning: bool, now: int, script: seq<WriteResult>, truncateOk: bool)

  /** How many bytes the write loop gets onto the disk: it retries interrupted and short writes until one fails. */
  function Taken(script: seq<WriteResult>, i: nat, len: nat): (n: nat)
    requires i <= |script|
    ensures n <= len
    decreases |script| - i
  {
    if len == 0 || i == |script| then 0
    else match Outcome(script, i, len)
      case Interrupted => Taken(script, i + 1, len)
      case Failed => 0
      case Wrote(n) => n + Taken(script, i + 1, len - n)
  }

  /** A flush may wait up to two seconds for a background fsync. */
  function Postpones(w: Writer, env: FlushEnv): bool {
    env.policy == EverySec && !env.force && env.fsyncRunning && (w.postponedStart == 0 || env.now - w.postponedStart < 2)
  }

  /** Truncating a file to `n` bytes; a shorter file is padded with zero bytes. */
  function Truncated(f: seq<Byte>, n: nat): seq<Byte> { if n <= |f| then f[..n] else f + seq(n - |f|, _ => 0) }

  /** What a flush does after its write loop got `n` bytes of the buffer onto the disk. */
  function AfterWrite(w: Writer, n: nat, policy: Policy, truncateOk: bool): Writer
    requires n <= |w.buf|
  {
    var v := w.(file := w.file + w.buf[..n], postponedStart := 0);
    if n == |w.buf| then v.(buf := [], currentSize := w.currentSize + n, writeOk := true)
    else
      var undone := n > 0 && truncateOk;
      var u := if undone then v.(file := Truncated(v.file, w.currentSize)) else v;
      if policy == Always then u.(exited := true)
      else if n > 0 && !undone then u.(writeOk := false, currentSize := w.currentSize + n, buf := w.buf[n..])
      else u.(writeOk := false)
  }

  function Flushed(w: Writer, env: FlushEnv): Writer {
    if w.buf == [] then w
    else if Postpones(w, env) then w.(postponedStart := if w.postponedStart == 0 then env.now else w.postponedStart)
    else AfterWrite(w, Taken(env.script, 0, |w.buf|), env.policy, env.truncateOk)
  }

  /** The file, the buffer and the counters of the server, updated in place. */
  class AppendOnlyFile {
    var file: seq<Byte>
    var buf: seq<Byte>
    var currentSize: nat
    var postponedStart: int
    var writeOk: bool
    var exited: bool

    ghost function Value(): Writer
      reads this
    {
      Writer(file, buf, currentSize, postponedStart, writeOk, exited)
    }

    constructor (w: Writer)
      ensures Value() == w
    {
      file, buf, currentSize := w.file, w.buf, w.currentSize;
      postponedStart, writeOk, exited := w.postponedStart, w.writeOk, w.exited;
    }

    /** The write loop: the file grows by a prefix of the data, and -1 means that nothing was written. */
    method Write(script: seq<WriteResult>, data: seq<Byte>) returns (n: int)
      modifies `file
      ensures -1 <= n <= |data| && file == old(file) + data[..if n < 0 then 0 else n]
      ensures n == if Taken(script, 0, |data|) == 0 && data != [] then -1 else Taken(script, 0, |data|)
    {
      var len, total := |data|, 0;
      var i := 0;
      while len > 0 && i < |script|
        invariant 0 <= i <= |script| && 0 <= total && len == |data| - total && 0 <= len
        invariant file == old(file) + data[..total]
        invariant Taken(script, 0, |data|) == total + Taken(script, i, len)
        decreases |script| - i
      {
        var r := Outcome(script, i, len);
        if r.Failed? { return if total > 0 then total else -1; }
        i := i + 1;
        if r.Wrote? {
          file := file + data[total..total + r.n];
          total := total + r.n;
          len := len - r.n;
        }
      }
      if len > 0 { return if total > 0 then total else -1; }
      return total;
    }

    method FlushAppendOnlyFile(env: FlushEnv)
      modifies this
      ensures Value() == Flushed(old(Value()), env)
    {
      if |buf| == 0 { return; }
      if env.policy == EverySec && !env.force && env.fsyncRunning {
        if postponedStart == 0 {
          postponedStart := env.now;
          return;
        } else if env.now - postponedStart < 2 {
          return;
        }
      }
      var nwritten := Write(env.script, buf);
      postponedStart := 0;
      if nwritten != |buf| {
        if nwritten != -1 && env.truncateOk {
          file := Truncated(file, currentSize);
          nwritten := -1;
        }
        if env.policy == Always {
          exited := true;
          return;
        }
        writeOk := false;
        if nwritten > 0 {
          currentSize := currentSize + nwritten;
          buf := buf[nwritten..];
        }
        return;
      }
      writeOk := true;
      currentSize := currentSize + nwritten;
      buf := [];
    }
  }

  /** The believed length is the length. */
  ghost predicate Exact(w: Writer) { w.currentSize == |w.file| }

  ghost predicate Keeps(w: Writer, v: Writer) {
    && w.file <= v.file <= w.file + w.buf
    && (!v.exited ==> Exact(v) && v.file + v.buf == w.file + w.buf)
    && (v.exited ==> v.buf == w.buf)
  }

  lemma AfterWriteKeeps(w: Writer, n: nat, policy: Policy, truncateOk: bool)
    requires Exact(w) && !w.exited && n <= |w.buf|
    ensures Keeps(w, AfterWrite(w, n, policy, truncateOk))
  {
    var written := w.file + w.buf[..n];
    assert written + w.buf[n..] == w.file + w.buf;
    assert Truncated(written, w.currentSize) == w.file;
    assert n == |w.buf| ==> written == w.file + w.buf;
  }

  /**
   Flush accounting: unless the server exits, no byte is lost, repeated or
   reordered by a flush, and the believed length of the file stays exact.
   When it exits (policy `always`), the file still holds a prefix.
   */
  lemma FlushKeepsBytes(w: Writer, env: FlushEnv)
    requires Exact(w) && !w.exited
    ensures Keeps(w, Flushed(w, env))
    ensures Flushed(w, env).exited ==> env.policy == Always
  {
    AfterWriteKeeps(w, Taken(env.script, 0, |w.buf|), env.policy, env.truncateOk);
  }

  /** What the disk takes before the first call that fails, for any number of bytes offered. */
  function Room(script: seq<WriteResult>, i: nat): nat
    decreases |script| - i
  {
    if i >= |script| || script[i].Failed? then 0 else (if script[i].Wrote? then script[i].n else 0) + Room(script, i + 1)
  }

  /** The loop resumes after short and interrupted writes: it stops at the end of the data or at a failure. */
  lemma {:induction false} WritesWhileThereIsRoom(script: seq<WriteResult>, i: nat, len: nat)
    requires i <= |script|
    ensures Taken(script, i, len) == if len <= Room(script, i) then len else Room(script, i)
    decreases |script| - i
  {
    if len > 0 && i < |script| {
      match Outcome(script, i, len)
      case Interrupted => WritesWhileThereIsRoom(script, i + 1, len);
      case Failed =>
      case Wrote(n) => WritesWhileThereIsRoom(script, i + 1, len - n);
    }
  }

  /** The only reason to wait: an fsync is running, nobody insists, and less than two seconds have passed. */
  ghost predicate MayWait(w: Writer, env: FlushEnv) {
    env.policy == EverySec && !env.force && env.fsyncRunning && (w.postponedStart == 0 || env.now < w.postponedStart + 2)
  }

  /** A flush that may not wait writes everything there is room for; a shortage is reported or ends the server. */
  lemma FlushWrites(w: Writer, env: FlushEnv)
    requires Exact(w) && !w.exited && w.buf != [] && !MayWait(w, env)
    ensures var v, all := Flushed(w, env), |w.buf| <= Room(env.script, 0);
            && (all ==> v == Writer(w.file + w.buf, [], w.currentSize + |w.buf|, 0, true, false))
            && (!all ==> v.postponedStart == 0 && (v.exited <==> env.policy == Always) && (!v.exited ==> !v.writeOk && v.buf != []))
            && (!all && env.truncateOk ==> v.file == w.file && v.buf == w.buf)
            && (!all && !env.truncateOk ==> v.file == w.file + w.buf[..Room(env.script, 0)])
  {
    WritesWhileThereIsRoom(env.script, 0, |w.buf|);
    FlushKeepsBytes(w, env);
    assert w.buf[..|w.buf|] == w.buf;
  }

  /** A flush that waits remembers since when, and changes nothing else; an empty buffer needs no flush. */
  lemma FlushWaits(w: Writer, env: FlushEnv)
    requires w.buf == [] || MayWait(w, env)
    ensures var v := Flushed(w, env);
            && v == w.(postponedStart := v.postponedStart)
            && v.postponedStart == if w.buf != [] && w.postponedStart == 0 then env.now else w.postponedStart
  {
  }

  datatype Event = Feed(bytes: seq<Byte>) | Flush(env: FlushEnv)

  function Step(w: Writer, e: Event): Writer {
    match e
    case Feed(b) => w.(buf := w.buf + b)
    case Flush(env) => Flushed(w, env)
  }

  function Run(w: Writer, events: seq<Event>): Writer
    decreases |events|
  {
    if events == [] then w else Step(Run(w, events[..|events| - 1]), events[|events| - 1])
  }

  function Fed(events: seq<Event>): seq<Byte>
    decreases |events|
  {
    if events == [] then []
    else Fed(events[..|events| - 1]) + match events[|events| - 1] case Feed(b) => b case Flush(_) => []
  }

  /**
   Over any run of feeds and flushes under the policies `everysec` and `no`,
   the file followed by the buffer is everything fed, in order, and the
   believed length is exact.
   */
  lemma {:induction false} FlushAccounting(w: Writer, events: seq<Event>)
    requires Exact(w) && !w.exited && forall i :: 0 <= i < |events| && events[i].Flush? ==> events[i].env.policy != Always
    ensures var v := Run(w, events);
            Exact(v) && !v.exited && v.file + v.buf == w.file + w.buf + Fed(events) && w.file <= v.file
    decreases |events|
  {
    if events != [] {
      var init, e := events[..|events| - 1], events[|events| - 1];
      FlushAccounting(w, init);
      var u := Run(w, init);
      if e.Flush? {
        FlushKeepsBytes(u, e.env);
      } else {
        assert u.file + (u.buf + e.bytes) == (u.file + u.buf) + e.bytes;
      }
    }
  }
}
