/**
 The append only file across background rewrites.

 A server feeds commands to its log, flushes the log to a file, and from time to
 time forks a child that writes a snapshot.  Commands fed meanwhile reach the
 child through a pipe, in pieces, until the child asks the parent to stop; the
 rest is appended by the parent when the child is done, and the new file
 replaces the old one.  `log` is every write ever executed; while the append
 only file is off, writes are not fed.
 */
module AofRewrite {
  import opened Options
  import opened AofMode
  import opened Bytes
  import AofFlush
  import opened AofBuffer

  /** Snapshotting and reading; waiting for the parent to stop; reading the rest; exited well; exited badly. */
  datatype Phase = Collecting | Asked | Acked | Finished | Broken

  /**
   A rewrite child.  `base` is the log at the time of the fork, which its
   snapshot `snap` stands for; `diff` are the bytes it read from the parent.
   */
  datatype Child = Child(phase: Phase, base: seq<Byte>, snap: seq<Byte>, diff: seq<Byte>)

  /**
   `writer` is the current file with its unflushed buffer; the file starts with
   the snapshot `snap`, which stands for the prefix `base` of the log.
   */
  datatype Server = Server(
    log: seq<Byte>,
    mode: Mode,
    writer: AofFlush.Writer,
    base: seq<Byte>,
    snap: seq<Byte>,
    child: Option<Child>,
    rewriteBuf: seq<Byte>,
    pipe: seq<Byte>,
    stopSending: bool,
    asked: bool,
    acked: bool)

  datatype Step =
    | Feed(bytes: seq<Byte>)
    | Flush(env: AofFlush.FlushEnv)
    | Fork(snapshot: seq<Byte>)
    | WriteDiff(n: nat)             // the pipe takes n bytes from the rewrite buffer
    | ReadDiff(n: nat)              // the child reads n bytes
    | ChildAsks
    | ParentAcks(sent: bool)
    | ChildSeesAck
    | ChildFinishes                 // the child reads until the pipe has no data, then exits
    | ChildBreaks
    | RewriteDone(ok: bool)         // the parent handles the exit; ok when its own writes and the rename succeed
    | KillChild
    | Start(found: seq<Byte>)       // appendonly yes: an existing file is opened
    | Stop(env: AofFlush.FlushEnv)  // appendonly no

  predicate Enabled(s: Server, step: Step) {
    && !s.writer.exited
    && match step
       case Feed(_) => true
       case Flush(_) => s.mode != Off
       case Fork(_) => s.child.None?
       case WriteDiff(n) => s.child.Some? && !s.stopSending && 0 < n <= |s.rewriteBuf|
       case ReadDiff(n) => s.child.Some? && (s.child.value.phase == Collecting || s.child.value.phase == Acked) && 0 < n <= |s.pipe|
       case ChildAsks => s.child.Some? && s.child.value.phase == Collecting
       case ParentAcks(_) => s.child.Some? && s.asked
       case ChildSeesAck => s.child.Some? && s.child.value.phase == Asked && s.acked
       case ChildFinishes => s.child.Some? && s.child.value.phase == Acked && s.pipe == []
       case ChildBreaks => s.child.Some? && s.child.value.phase != Finished && s.child.value.phase != Broken
       case RewriteDone(_) => s.child.Some? && (s.child.value.phase == Finished || s.child.value.phase == Broken)
       case KillChild => s.child.Some?
       case Start(_) => s.mode == Off
       case Stop(_) => s.mode != Off
  }

  function NoChild(s: Server): Server {
    s.(child := None, rewriteBuf := [], pipe := [], stopSending := false, asked := false, acked := false)
  }

  /** The file the parent would switch to now. */
  function NewFile(s: Server): seq<Byte>
    requires s.child.Some?
  {
    s.child.value.snap + s.child.value.diff + s.rewriteBuf
  }

  function SetPhase(s: Server, p: Phase): Server
    requires s.child.Some?
  {
    s.(child := Some(s.child.value.(phase := p)))
  }

  function Switched(s: Server): Server
    requires s.child.Some?
  {
    if s.mode == Off then NoChild(s)
    else
      var f := NewFile(s);
      NoChild(s).(writer := s.writer.(file := f, buf := [], currentSize := |f|), base := s.child.value.base, snap := s.child.value.snap, mode := On)
  }

  function Apply(s: Server, step: Step): Server
    requires Enabled(s, step)
  {
    match step
    case Feed(b) =>
      s.(log := s.log + b,
         writer := if s.mode == On then s.writer.(buf := s.writer.buf + b) else s.writer,
         rewriteBuf := if s.child.Some? && s.mode != Off then s.rewriteBuf + b else s.rewriteBuf)
    case Flush(env) => s.(writer := AofFlush.Flushed(s.writer, env))
    case Fork(snapshot) =>
      s.(child := Some(Child(Collecting, s.log, snapshot, [])), pipe := [], stopSending := false, asked := false, acked := false)
    case WriteDiff(n) => s.(pipe := s.pipe + s.rewriteBuf[..n], rewriteBuf := s.rewriteBuf[n..])
    case ReadDiff(n) =>
      s.(child := Some(s.child.value.(diff := s.child.value.diff + s.pipe[..n])), pipe := s.pipe[n..])
    case ChildAsks => SetPhase(s, Asked).(asked := true)
    case ParentAcks(sent) => s.(asked := false, stopSending := true, acked := s.acked || sent)
    case ChildSeesAck => SetPhase(s, Acked).(acked := false)
    case ChildFinishes => SetPhase(s, Finished)
    case ChildBreaks => SetPhase(s, Broken)
    case RewriteDone(ok) => if ok && s.child.value.phase == Finished then Switched(s) else NoChild(s)
    case KillChild => NoChild(s)
    case Start(found) => NoChild(s).(mode := WaitRewrite, writer := s.writer.(file := found, buf := []))
    case Stop(env) =>
      var w := AofFlush.Flushed(s.writer, env.(force := true));
      NoChild(s).(mode := Off, writer := w.(buf := if w.exited then w.buf else []))
  }

  predicate Legal(s: Server, steps: seq<Step>)
    decreases |steps|
  {
    steps == [] || (Enabled(s, steps[0]) && Legal(Apply(s, steps[0]), steps[1..]))
  }

  function Run(s: Server, steps: seq<Step>): Server
    requires Legal(s, steps)
    decreases |steps|
  {
    if steps == [] then s else Run(Apply(s, steps[0]), steps[1..])
  }

  /** A server that has just started with an append only file that stands for its whole log. */
  ghost predicate Init(s: Server) {
    && s == NoChild(s) && !s.writer.exited && s.writer.buf == []
    && (s.mode == On ==> Recoverable(s)) && (s.mode == WaitRewrite ==> s.writer.buf == [])
  }

  // ------------------------------------------------------------ what is kept

  /**
   Replaying the file and then the buffer yields the log: the file is the
   snapshot, standing for `base`, followed by the rest of the log up to the
   buffer; and the believed length of the file is its length.
   */
  ghost predicate Recoverable(s: Server) {
    && s.snap <= s.writer.file && AofFlush.Exact(s.writer)
    && s.base + s.writer.file[|s.snap|..] + s.writer.buf == s.log
  }

  /** Every byte fed since the fork is in exactly one place: with the child, in the pipe, or in the rewrite buffer. */
  ghost predicate Conserved(s: Server) {
    s.child.Some? && s.mode != Off ==> s.child.value.base + s.child.value.diff + s.pipe + s.rewriteBuf == s.log
  }

  /** The handshake: once the child knows that the parent stopped, the parent has stopped. */
  ghost predicate HandshakeOk(s: Server) {
    && (s.acked ==> s.stopSending)
    && (s.child.Some? && (s.child.value.phase == Acked || s.child.value.phase == Finished) ==> s.stopSending)
    && (s.child.None? ==> s.rewriteBuf == [] && s.pipe == [])
  }

  ghost predicate Inv(s: Server) {
    && Conserved(s) && HandshakeOk(s)
    && (s.mode == On && !s.writer.exited ==> Recoverable(s))
    && (s.mode == WaitRewrite ==> s.writer.buf == [])
  }

  lemma FeedKept(s: Server, b: seq<Byte>)
    requires Inv(s) && Enabled(s, Feed(b))
    ensures Inv(Apply(s, Feed(b)))
  {
    if s.child.Some? && s.mode != Off {
      var c := s.child.value;
      assert c.base + c.diff + s.pipe + (s.rewriteBuf + b) == (c.base + c.diff + s.pipe + s.rewriteBuf) + b;
    }
    if s.mode == On {
      var t := s.base + s.writer.file[|s.snap|..];
      assert t + (s.writer.buf + b) == (t + s.writer.buf) + b;
    }
  }

  lemma SameTail(file: seq<Byte>, buf: seq<Byte>, file': seq<Byte>, buf': seq<Byte>, base: seq<Byte>, k: nat)
    requires k <= |file| && file <= file' && file + buf == file' + buf'
    ensures base + file[k..] + buf == base + file'[k..] + buf'
  {
    assert file[k..] + buf == (file + buf)[k..];
    assert file'[k..] + buf' == (file' + buf')[k..];
    assert base + file[k..] + buf == base + (file[k..] + buf);
    assert base + file'[k..] + buf' == base + (file'[k..] + buf');
  }

  lemma FlushRecoverable(s: Server, env: AofFlush.FlushEnv)
    requires Recoverable(s) && !s.writer.exited
    ensures var w := AofFlush.Flushed(s.writer, env);
            !w.exited ==> Recoverable(s.(writer := w))
  {
    AofFlush.FlushKeepsBytes(s.writer, env);
    var w := AofFlush.Flushed(s.writer, env);
    if !w.exited { SameTail(s.writer.file, s.writer.buf, w.file, w.buf, s.base, |s.snap|); }
  }

  lemma IntoPipe(a: seq<Byte>, pipe: seq<Byte>, rest: seq<Byte>, n: nat)
    requires n <= |rest|
    ensures a + (pipe + rest[..n]) + rest[n..] == a + pipe + rest
  {
    assert rest == rest[..n] + rest[n..];
  }

  lemma OutOfPipe(a: seq<Byte>, diff: seq<Byte>, pipe: seq<Byte>, n: nat)
    requires n <= |pipe|
    ensures a + (diff + pipe[..n]) + pipe[n..] == a + diff + pipe
  {
    assert pipe == pipe[..n] + pipe[n..];
  }

  lemma PipeKept(s: Server, step: Step)
    requires Inv(s) && Enabled(s, step) && (step.WriteDiff? || step.ReadDiff?)
    ensures Inv(Apply(s, step))
  {
    var c := s.child.value;
    if step.WriteDiff? {
      IntoPipe(c.base + c.diff, s.pipe, s.rewriteBuf, step.n);
    } else {
      OutOfPipe(c.base, c.diff, s.pipe, step.n);
    }
  }

  /**
   The switch, exactly: the new file stands for the whole log if and only if no
   byte was left in the pipe when the child stopped reading.
   */
  lemma SwitchIsCompleteIffPipeDrained(s: Server)
    requires Inv(s) && Enabled(s, RewriteDone(true)) && s.child.value.phase == Finished && s.mode != Off
    ensures Recoverable(Apply(s, RewriteDone(true))) <==> s.pipe == []
    ensures Apply(s, RewriteDone(true)).writer.file == s.child.value.snap + s.child.value.diff + s.rewriteBuf
  {
    var c, t := s.child.value, Apply(s, RewriteDone(true));
    assert t.writer.file == c.snap + (c.diff + s.rewriteBuf);
    assert t.writer.file[|c.snap|..] == c.diff + s.rewriteBuf;
    assert t.base + t.writer.file[|t.snap|..] + t.writer.buf == c.base + c.diff + s.rewriteBuf;
    if s.pipe == [] {
      assert c.base + c.diff + s.pipe == c.base + c.diff;
    } else {
      assert |t.base + t.writer.file[|t.snap|..] + t.writer.buf| < |s.log|;
    }
  }

  /** A finished child left nothing in the pipe. */
  ghost predicate InvDrained(s: Server) {
    Inv(s) && (s.child.Some? && s.child.value.phase == Finished ==> s.pipe == [])
  }

  lemma StepKeepsInv(s: Server, step: Step)
    requires InvDrained(s) && Enabled(s, step)
    ensures InvDrained(Apply(s, step))
  {
    match step
    case Feed(b) => FeedKept(s, b);
    case Flush(env) =>
      if s.mode == On { FlushRecoverable(s, env); }
    case Fork(snapshot) => assert s.log + [] + [] + s.rewriteBuf == s.log;
    case WriteDiff(_) => PipeKept(s, step);
    case ReadDiff(_) => PipeKept(s, step);
    case RewriteDone(ok) =>
      if ok && s.child.value.phase == Finished && s.mode != Off { SwitchIsCompleteIffPipeDrained(s); }
    case _ =>
  }

  lemma {:induction false} RunKeepsInv(s: Server, steps: seq<Step>)
    requires InvDrained(s) && Legal(s, steps)
    ensures InvDrained(Run(s, steps))
    decreases |steps|
  {
    if steps != [] {
      StepKeepsInv(s, steps[0]);
      RunKeepsInv(Apply(s, steps[0]), steps[1..]);
    }
  }

  /**
   Nothing is lost or duplicated: in every interleaving of feeds, flushes,
   partial pipe writes, child reads, handshakes, failures and switches, while
   the append only file is on, the file followed by the buffer replays to
   everything ever fed.
   */
  lemma NothingLostAcrossRewrites(s: Server, steps: seq<Step>)
    requires Init(s) && Legal(s, steps)
    ensures var t := Run(s, steps);
            t.mode == On && !t.writer.exited ==> Recoverable(t)
  {
    RunKeepsInv(s, steps);
  }

  /**
   The bytes fed since the fork reach the new file each once and in order: when
   the switch happens, the new file is the snapshot followed by exactly what was
   fed after the fork, so dropping the unflushed buffer is safe.
   */
  lemma SwitchedFileIsSnapshotPlusDiff(s: Server, steps: seq<Step>)
    requires Init(s) && Legal(s, steps)
    requires var t := Run(s, steps);
             t.mode != Off && Enabled(t, RewriteDone(true)) && t.child.value.phase == Finished
    ensures var t := Run(s, steps); var c := t.child.value;
            && c.base <= t.log
            && Apply(t, RewriteDone(true)).writer.file == c.snap + t.log[|c.base|..]
            && Apply(t, RewriteDone(true)).writer.buf == []
  {
    RunKeepsInv(s, steps);
    var t := Run(s, steps);
    var c := t.child.value;
    SwitchIsCompleteIffPipeDrained(t);
    DiffIsTail(c.base, c.diff, t.rewriteBuf, t.log, c.snap);
  }

  /** What turns the append only file on and off. */
  lemma ModeAfter(s: Server, step: Step)
    requires Enabled(s, step)
    ensures Apply(s, step).mode == On <==>
              (s.mode == On && !step.Stop?) || (step == RewriteDone(true) && s.child.value.phase == Finished && s.mode != Off)
    ensures Apply(s, step).mode == Off <==> (s.mode == Off && !step.Start?) || step.Stop?
    ensures step.Start? ==> Apply(s, step).writer.file == step.found && Apply(s, step).writer.buf == []
  {
  }

  lemma {:induction false} OnUntilStopped(s: Server, steps: seq<Step>)
    requires s.mode == On && Legal(s, steps) && forall i :: 0 <= i < |steps| ==> !steps[i].Stop?
    ensures Run(s, steps).mode == On
    decreases |steps|
  {
    if steps != [] {
      ModeAfter(s, steps[0]);
      OnUntilStopped(Apply(s, steps[0]), steps[1..]);
    }
  }

  /**
   A successful switch puts the log into force: from then on, until it is
   turned off, file and buffer replay to everything ever fed.
   */
  lemma SwitchPutsLogInForce(s: Server, before: seq<Step>, after: seq<Step>)
    requires Init(s) && Legal(s, before)
    requires var t := Run(s, before);
             && t.mode != Off && Enabled(t, RewriteDone(true)) && t.child.value.phase == Finished
             && Legal(Apply(t, RewriteDone(true)), after) && forall i :: 0 <= i < |after| ==> !after[i].Stop?
    ensures var t := Apply(Run(s, before), RewriteDone(true));
            t.mode == On && t.child.None? && t.log == Run(s, before).log && Recoverable(t)
    ensures var u := Run(Apply(Run(s, before), RewriteDone(true)), after);
            u.mode == On && (!u.writer.exited ==> Recoverable(u))
  {
    RunKeepsInv(s, before);
    var t := Run(s, before);
    SwitchIsCompleteIffPipeDrained(t);
    StepKeepsInv(t, RewriteDone(true));
    RunKeepsInv(Apply(t, RewriteDone(true)), after);
    OnUntilStopped(Apply(t, RewriteDone(true)), after);
  }

  /** While the log is on, a write makes file and buffer longer by exactly its bytes. */
  lemma FeedIsLogged(s: Server, b: seq<Byte>)
    requires Enabled(s, Feed(b))
    ensures var t := Apply(s, Feed(b));
            && t.log == s.log + b
            && t.writer.file + t.writer.buf == s.writer.file + s.writer.buf + (if s.mode == On then b else [])
            && t.rewriteBuf == s.rewriteBuf + (if s.child.Some? && s.mode != Off then b else [])
  {
    if s.mode == On { assert s.writer.file + (s.writer.buf + b) == s.writer.file + s.writer.buf + b; }
  }

  lemma DiffIsTail(base: seq<Byte>, diff: seq<Byte>, rest: seq<Byte>, log: seq<Byte>, snap: seq<Byte>)
    requires base + diff + [] + rest == log
    ensures base <= log && snap + diff + rest == snap + log[|base|..]
  {
    assert log == base + (diff + rest);
    assert log[|base|..] == diff + rest;
    assert snap + diff + rest == snap + (diff + rest);
  }

  /** Turning the file off writes what is in the buffer, without waiting, before it is closed. */
  lemma StopWritesAll(s: Server, env: AofFlush.FlushEnv)
    requires s.mode == On && !s.writer.exited && AofFlush.Exact(s.writer) && |s.writer.buf| <= AofFlush.Room(env.script, 0)
    ensures var t := Apply(s, Stop(env));
            t.mode == Off && t.writer.file == s.writer.file + s.writer.buf && t.writer.buf == [] && t.child.None?
  {
    if s.writer.buf != [] { AofFlush.FlushWrites(s.writer, env.(force := true)); }
  }

  /** A flush with room that may not wait brings the file up to the buffer, and leaves the rewrite alone. */
  lemma FlushReachesFile(s: Server, env: AofFlush.FlushEnv)
    requires s.mode != Off && !s.writer.exited && AofFlush.Exact(s.writer) && s.writer.buf != []
    requires !AofFlush.MayWait(s.writer, env) && |s.writer.buf| <= AofFlush.Room(env.script, 0)
    ensures var t := Apply(s, Flush(env));
            t.writer.file == s.writer.file + s.writer.buf && t.writer.buf == [] && t == s.(writer := t.writer)
  {
    AofFlush.FlushWrites(s.writer, env);
  }

  // ------------------------------------------------------- the handshake, exactly

  /** The parent is asked only by a child that waits for the answer, and answers once. */
  ghost predicate Talking(s: Server) {
    && (s.asked || s.acked ==> s.child.Some? && (s.child.value.phase == Asked || s.child.value.phase == Broken))
    && !(s.asked && s.acked)
    && (s.stopSending ==> s.child.Some? && s.child.value.phase != Collecting && !s.asked)
  }

  lemma StepKeepsTalking(s: Server, step: Step)
    requires Talking(s) && Enabled(s, step)
    ensures Talking(Apply(s, step))
  {
  }

  /** In every run the parent stops sending exactly from its answer on, and a child asks and is answered once. */
  lemma {:induction false} RunKeepsTalking(s: Server, steps: seq<Step>)
    requires Talking(s) && Legal(s, steps)
    ensures Talking(Run(s, steps))
    decreases |steps|
  {
    if steps != [] {
      StepKeepsTalking(s, steps[0]);
      RunKeepsTalking(Apply(s, steps[0]), steps[1..]);
    }
  }

  // ----------------------------------------------------- a rewrite can be completed

  ghost predicate Reaches(s: Server, steps: seq<Step>, t: Server) { Legal(s, steps) && Run(s, steps) == t }

  lemma ReachesOne(s: Server, step: Step)
    requires Enabled(s, step)
    ensures Reaches(s, [step], Apply(s, step))
  {
    assert [step][1..] == [];
  }

  lemma {:induction false} ReachesJoin(s: Server, a: seq<Step>, t: Server, b: seq<Step>, u: Server)
    requires Reaches(s, a, t) && Reaches(t, b, u)
    ensures Reaches(s, a + b, u)
    decreases |a|
  {
    if a == [] {
      assert a + b == b;
    } else {
      ReachesJoin(Apply(s, a[0]), a[1..], t, b, u);
      assert (a + b)[1..] == a[1..] + b;
    }
  }

  lemma ReachesTwo(s: Server, a: Step, b: Step)
    requires Enabled(s, a) && Enabled(Apply(s, a), b)
    ensures Reaches(s, [a, b], Apply(Apply(s, a), b))
  {
    ReachesOne(s, a);
    ReachesOne(Apply(s, a), b);
    ReachesJoin(s, [a], Apply(s, a), [b], Apply(Apply(s, a), b));
    assert [a] + [b] == [a, b];
  }

  /** A child since the fork `s`: its phase, what it read, what is in the pipe and what is still here. */
  ghost function During(s: Server, snap: seq<Byte>, phase: Phase, fed: seq<Byte>, diff: seq<Byte>, pipe: seq<Byte>, rest: seq<Byte>,
                        stopped: bool): Server {
    s.(log := s.log + fed, child := Some(Child(phase, s.log, snap, diff)), pipe := pipe, rewriteBuf := rest,
       writer := if s.mode == On then s.writer.(buf := s.writer.buf + fed) else s.writer,
       stopSending := stopped, asked := false, acked := false)
  }

  lemma ForkAndFeed(s: Server, snap: seq<Byte>, b: seq<Byte>)
    requires s.child.None? && s.rewriteBuf == [] && s.mode != Off && !s.writer.exited
    ensures Reaches(s, [Fork(snap), Feed(b)], During(s, snap, Collecting, b, [], [], b, false))
  {
    ReachesTwo(s, Fork(snap), Feed(b));
    assert [] + b == b;
  }

  lemma SendAndRead(s: Server, snap: seq<Byte>, b: seq<Byte>, k: nat, j: nat)
    requires s.mode != Off && !s.writer.exited && 0 < j <= k <= |b|
    ensures Reaches(During(s, snap, Collecting, b, [], [], b, false), [WriteDiff(k), ReadDiff(j)],
                    During(s, snap, Collecting, b, b[..j], b[j..k], b[k..], false))
  {
    ReachesTwo(During(s, snap, Collecting, b, [], [], b, false), WriteDiff(k), ReadDiff(j));
    assert [] + b[..k] == b[..k] && b[..k][..j] == b[..j] && b[..k][j..] == b[j..k] && [] + b[..j] == b[..j];
  }

  lemma Handshake(s: Server, snap: seq<Byte>, fed: seq<Byte>, diff: seq<Byte>, pipe: seq<Byte>, rest: seq<Byte>)
    requires !s.writer.exited
    ensures Reaches(During(s, snap, Collecting, fed, diff, pipe, rest, false), [ChildAsks, ParentAcks(true), ChildSeesAck],
                    During(s, snap, Acked, fed, diff, pipe, rest, true))
  {
    var a := During(s, snap, Collecting, fed, diff, pipe, rest, false);
    ReachesTwo(a, ChildAsks, ParentAcks(true));
    var b := Apply(Apply(a, ChildAsks), ParentAcks(true));
    ReachesOne(b, ChildSeesAck);
    ReachesJoin(a, [ChildAsks, ParentAcks(true)], b, [ChildSeesAck], During(s, snap, Acked, fed, diff, pipe, rest, true));
    assert [ChildAsks, ParentAcks(true)] + [ChildSeesAck] == [ChildAsks, ParentAcks(true), ChildSeesAck];
  }

  lemma ReadAndFinish(s: Server, snap: seq<Byte>, fed: seq<Byte>, diff: seq<Byte>, pipe: seq<Byte>, rest: seq<Byte>)
    requires !s.writer.exited && pipe != []
    ensures Reaches(During(s, snap, Acked, fed, diff, pipe, rest, true), [ReadDiff(|pipe|), ChildFinishes],
                    During(s, snap, Finished, fed, diff + pipe, [], rest, true))
  {
    assert pipe[..|pipe|] == pipe && pipe[|pipe|..] == [];
    ReachesTwo(During(s, snap, Acked, fed, diff, pipe, rest, true), ReadDiff(|pipe|), ChildFinishes);
  }

  lemma FeedAndSwitch(s: Server, snap: seq<Byte>, fed: seq<Byte>, diff: seq<Byte>, rest: seq<Byte>, more: seq<Byte>)
    requires !s.writer.exited && s.mode != Off && diff + rest == fed
    ensures exists t :: && Reaches(During(s, snap, Finished, fed, diff, [], rest, true), [Feed(more), RewriteDone(true)], t)
                        && t.mode == On && t.child.None? && t.writer.file == snap + fed + more && t.writer.buf == [] && t.log == s.log + fed + more
  {
    var a := During(s, snap, Finished, fed, diff, [], rest, true);
    ReachesTwo(a, Feed(more), RewriteDone(true));
    var t := Apply(Apply(a, Feed(more)), RewriteDone(true));
    assert t.writer.file == snap + diff + (rest + more);
    assert snap + diff + (rest + more) == snap + (diff + rest) + more;
  }

  /**
   From every state without a child a rewrite can be carried through: `b` is fed
   while the child snapshots, `k` of its bytes go through the pipe, `j` of them
   read before the handshake, and `more` is fed when the child is done.
   */
  lemma RewriteCanComplete(s: Server, snap: seq<Byte>, b: seq<Byte>, k: nat, j: nat, more: seq<Byte>)
    requires s.child.None? && s.rewriteBuf == [] && s.mode != Off && !s.writer.exited && 0 < j < k <= |b|
    ensures exists t :: && Reaches(s, [Fork(snap), Feed(b)] + ([WriteDiff(k), ReadDiff(j)] + ([ChildAsks, ParentAcks(true), ChildSeesAck]
                                      + ([ReadDiff(k - j), ChildFinishes] + [Feed(more), RewriteDone(true)]))), t)
                        && t.mode == On && t.child.None? && t.writer.file == snap + b + more && t.writer.buf == [] && t.log == s.log + b + more
  {
    var s2 := During(s, snap, Collecting, b, [], [], b, false);
    var s4 := During(s, snap, Collecting, b, b[..j], b[j..k], b[k..], false);
    var s7 := During(s, snap, Acked, b, b[..j], b[j..k], b[k..], true);
    var s9 := During(s, snap, Finished, b, b[..j] + b[j..k], [], b[k..], true);
    ForkAndFeed(s, snap, b);
    SendAndRead(s, snap, b, k, j);
    Handshake(s, snap, b, b[..j], b[j..k], b[k..]);
    ReadAndFinish(s, snap, b, b[..j], b[j..k], b[k..]);
    assert b[..j] + b[j..k] + b[k..] == b;
    FeedAndSwitch(s, snap, b, b[..j] + b[j..k], b[k..], more);
    var r9 := [Feed(more), RewriteDone(true)];
    var t :| && Reaches(s9, r9, t) && t.mode == On && t.child.None?
             && t.writer.file == snap + b + more && t.writer.buf == [] && t.log == s.log + b + more;
    var r7 := [ReadDiff(k - j), ChildFinishes] + r9;
    ReachesJoin(s7, [ReadDiff(k - j), ChildFinishes], s9, r9, t);
    var r4 := [ChildAsks, ParentAcks(true), ChildSeesAck] + r7;
    ReachesJoin(s4, [ChildAsks, ParentAcks(true), ChildSeesAck], s7, r7, t);
    var r2 := [WriteDiff(k), ReadDiff(j)] + r4;
    ReachesJoin(s2, [WriteDiff(k), ReadDiff(j)], s4, r4, t);
    ReachesJoin(s, [Fork(snap), Feed(b)], s2, r2, t);
  }

  // --------------------------------------- the block list carries out these steps

  /** The block list holds the rewrite buffer of the state. */
  ghost predicate Holds(b: RewriteBuffer, s: Server)
    reads b
  {
    b.Valid() && b.Contents() == s.rewriteBuf && b.stopSending == s.stopSending
  }

  /** A call of the write handler is a step that writes what it sent, or no step. */
  method SendDiff(b: RewriteBuffer, ghost s: Server, script: seq<WriteResult>) returns (sent: seq<Byte>, idle: bool)
    requires Holds(b, s) && s.child.Some? && !s.writer.exited
    modifies b`blocks
    ensures sent == [] ==> Holds(b, s)
    ensures sent != [] ==> Enabled(s, WriteDiff(|sent|)) && Holds(b, Apply(s, WriteDiff(|sent|)))
                           && Apply(s, WriteDiff(|sent|)).pipe == s.pipe + sent
  {
    sent, idle := b.ChildWriteDiffData(script);
    assert s.rewriteBuf[..|sent|] == sent && s.rewriteBuf[|sent|..] == b.Contents();
  }

  /** The bytes that read `i` returns when `left` are in the pipe: at least one, at most the child's buffer. */
  function ReadSize(sizes: seq<nat>, i: nat, left: nat): (n: nat)
    requires left > 0
    ensures 0 < n <= left
  {
    var most := if left < 65536 then left else 65536;
    if i < |sizes| && 0 < sizes[i] < most then sizes[i] else most
  }

  /**
   The child reads until a read finds no data, however small the reads.  Then
   it has all that was in the pipe, and may finish.
   */
  method ReadDiffFromParent(ghost s: Server, pipe: seq<Byte>, diff: seq<Byte>, sizes: seq<nat>) returns (all: seq<Byte>, total: nat)
    requires s.child.Some? && s.child.value.phase == Acked && !s.writer.exited
    requires pipe == s.pipe && diff == s.child.value.diff
    ensures all == diff + pipe && total == |pipe|
    ensures pipe != [] ==> Enabled(s, ReadDiff(total)) && Apply(s, ReadDiff(total)).child.value.diff == all
    ensures Enabled(if pipe == [] then s else Apply(s, ReadDiff(total)), ChildFinishes)
  {
    var left, i := pipe, 0;
    all, total := diff, 0;
    while left != []
      invariant all + left == diff + pipe && total + |left| == |pipe|
      decreases |left|
    {
      var n := ReadSize(sizes, i, |left|);
      assert (all + left[..n]) + left[n..] == all + left;
      all, left, total, i := all + left[..n], left[n..], total + n, i + 1;
    }
    assert all + left == all;
    assert pipe[..|pipe|] == pipe;
  }

  /** Appending the rest of the buffer to the child's file gives the file the server switches to. */
  method AppendRest(b: RewriteBuffer, ghost s: Server, childFile: seq<Byte>, script: seq<WriteResult>) returns (ok: bool, file: seq<Byte>)
    requires Holds(b, s) && s.child.Some? && childFile == s.child.value.snap + s.child.value.diff
    ensures ok == TakesAll(script, 0, b.blocks) && (ok ==> file == NewFile(s))
  {
    var count, written := b.WriteTo(script);
    return count != -1, childFile + written;
  }
}
