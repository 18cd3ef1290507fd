/**
 Which database a replayed command runs in.

 Commands are fed with the database they target.  Both streams, the append only
 file and the difference kept for a rewrite child, carry SELECT commands, and
 share one variable for the database selected last.
 */
module AofReplay {
  import opened Options
  import opened AofMode
  import opened Bytes
  import opened AofLog

  /** A command together with the database it was fed for. */
  datatype Fed = Fed(db: nat, cmd: Command)

  const SELECT: Arg := [83, 69, 76, 69, 67, 84]

  function SelectDb(db: nat): Command { [SELECT, Digits(db)] }

  predicate IsSelect(c: Command) { |c| == 2 && c[0] == SELECT }

  /** What a fed command adds to a stream when `selected` is the database selected last, -1 for none. */
  function Output(selected: int, f: Fed): seq<Command> {
    if f.db != selected then [SelectDb(f.db), f.cmd] else [f.cmd]
  }

  /** Replay a stream, starting in database `db`: the commands it runs, each with its database. */
  function Replay(stream: seq<Command>, db: int): seq<Fed>
    decreases |stream|
  {
    if stream == [] then []
    else
      var init, c := stream[..|stream| - 1], stream[|stream| - 1];
      if IsSelect(c) then Replay(init, db) else Replay(init, db) + [Fed(Natural(Selected(init, db)), c)]
  }

  /** The database that is selected behind a stream. */
  function Selected(stream: seq<Command>, db: int): int
    decreases |stream|
  {
    if stream == [] then db
    else if IsSelect(stream[|stream| - 1]) then ToNumber(stream[|stream| - 1][1])
    else Selected(stream[..|stream| - 1], db)
  }

  function Natural(n: int): nat { if n < 0 then 0 else n }

  // --------------------------------------------------------------- the feeder

  /** The server's side of feeding: one selected database, two buffers of bytes. */
  class Feeder {
    var selected: int
    var mode: Mode
    var childRunning: bool
    var aofBuf: seq<Byte>
    var rewriteBuf: seq<Byte>

    constructor ()
      ensures selected == -1 && mode == On && !childRunning && aofBuf == [] && rewriteBuf == []
    {
      selected, mode, childRunning, aofBuf, rewriteBuf := -1, On, false, [], [];
    }

    method FeedAppendOnlyFile(f: Fed)
      modifies this
      ensures selected == f.db && mode == old(mode) && childRunning == old(childRunning)
      ensures var bytes := EncodeAll(Output(old(selected), f));
              && aofBuf == (if mode == On then old(aofBuf) + bytes else old(aofBuf))
              && rewriteBuf == (if childRunning then old(rewriteBuf) + bytes else old(rewriteBuf))
    {
      var buf := WriteOutput(selected, f);
      selected := f.db;
      if mode == On { aofBuf := aofBuf + buf; }
      if childRunning { rewriteBuf := rewriteBuf + buf; }
    }

    /** The state holds what the streams say: their bytes, the database and the mode. */
    ghost predicate Holds(s: Streams)
      reads this
    {
      && selected == s.selected && mode == s.mode && childRunning == s.diff.Some?
      && aofBuf == EncodeAll(s.main.commands)
      && (s.diff.Some? ==> rewriteBuf == EncodeAll(s.diff.value.commands))
    }

    /** An executed write is fed unless the append only file is off; either way it is a step of the streams. */
    method Propagate(f: Fed, ghost s: Streams)
      requires Holds(s) && !IsSelect(f.cmd)
      modifies this
      ensures Holds(Apply(s, Feed(f)))
    {
      if mode == Off { return; }
      ConcatBoth(Encode, s.main.commands, Output(selected, f));
      if s.diff.Some? { ConcatBoth(Encode, s.diff.value.commands, Output(selected, f)); }
      FeedAppendOnlyFile(f);
    }
  }

  /** The bytes of one fed command, with the SELECT it may need. */
  method WriteOutput(selected: int, f: Fed) returns (buf: seq<Byte>)
    ensures buf == EncodeAll(Output(selected, f))
  {
    buf := [];
    if f.db != selected {
      ConcatTwo(Encode, SelectDb(f.db), f.cmd);
      buf := CatAppendOnlyGenericCommand([], SelectDb(f.db));
      assert buf == Encode(SelectDb(f.db));
    } else {
      ConcatOne(Encode, f.cmd);
    }
    buf := CatAppendOnlyGenericCommand(buf, f.cmd);
  }

  lemma ConcatOne<T>(f: T -> seq<Byte>, a: T)
    ensures Concat(f, [a]) == f(a)
  {
    ConcatAppend(f, [], a);
    assert [] + [a] == [a];
  }

  lemma ConcatTwo<T>(f: T -> seq<Byte>, a: T, b: T)
    ensures Concat(f, [a, b]) == f(a) + f(b)
  {
    ConcatOne(f, a);
    ConcatAppend(f, [a], b);
    assert [a] + [b] == [a, b];
  }

  // -------------------------------------------------------------- the streams

  /** A stream and, as history, what was fed into it. */
  datatype Stream = Stream(commands: seq<Command>, fed: seq<Fed>)

  /** `main` is the append only file with its buffer; `diff` is what was kept for the child since the fork. */
  datatype Streams = Streams(selected: int, mode: Mode, main: Stream, diff: Option<Stream>)

  datatype Step =
    | Feed(f: Fed)
    | Fork
    | Switch(snapshot: Stream)   // the rewrite succeeded: snapshot, then difference, replace the file
    | OneTimeDone                // a rewrite with the append only file off
    | Abort                      // the rewrite failed or its child was killed
    | Start                      // appendonly yes: a running child is killed
    | Stop                       // appendonly no

  /** A snapshot replays to its commands; clients never feed SELECT. */
  ghost predicate Enabled(s: Streams, step: Step) {
    match step
    case Feed(f) => !IsSelect(f.cmd)
    case Fork => s.diff.None?
    case Switch(snapshot) => s.diff.Some? && s.mode != Off && Replay(snapshot.commands, 0) == snapshot.fed
    case OneTimeDone => s.diff.Some? && s.mode == Off
    case Abort => s.diff.Some?
    case Start => s.mode == Off
    case Stop => s.mode != Off
  }

  function Extend(t: Stream, selected: int, f: Fed): Stream {
    Stream(t.commands + Output(selected, f), t.fed + [f])
  }

  ghost function Apply(s: Streams, step: Step): Streams
    requires Enabled(s, step)
  {
    match step
    case Feed(f) =>
      if s.mode == Off then s
      else
        Streams(f.db, s.mode,
                if s.mode == On then Extend(s.main, s.selected, f) else s.main,
                if s.diff.Some? then Some(Extend(s.diff.value, s.selected, f)) else None)
    case Fork => s.(selected := -1, diff := Some(Stream([], [])))
    case Switch(snapshot) =>
      Streams(-1, On, Stream(snapshot.commands + s.diff.value.commands, snapshot.fed + s.diff.value.fed), None)
    case OneTimeDone => s.(diff := None)
    case Abort => s.(diff := None)
    case Start => s.(mode := WaitRewrite, diff := None)
    case Stop => Streams(-1, Off, s.main, None)
  }

  ghost predicate Legal(s: Streams, steps: seq<Step>)
    decreases |steps|
  {
    steps == [] || (Enabled(s, steps[0]) && Legal(Apply(s, steps[0]), steps[1..]))
  }

  ghost function Run(s: Streams, steps: seq<Step>): Streams
    requires Legal(s, steps)
    decreases |steps|
  {
    if steps == [] then s else Run(Apply(s, steps[0]), steps[1..])
  }

  lemma SelectReadsBack(db: nat)
    ensures IsSelect(SelectDb(db)) && ToNumber(SelectDb(db)[1]) == db
  {
    DigitsAreDigits(db);
    DigitsValue(db);
  }

  /** Feeding one command extends the replay by that command in its database. */
  lemma OutputReplays(stream: seq<Command>, db: int, selected: int, f: Fed)
    requires !IsSelect(f.cmd) && (selected == f.db ==> Selected(stream, db) == selected)
    ensures Replay(stream + Output(selected, f), db) == Replay(stream, db) + [f]
    ensures Selected(stream + Output(selected, f), db) == f.db
  {
    SelectReadsBack(f.db);
    var mid := if f.db != selected then stream + [SelectDb(f.db)] else stream;
    assert stream + Output(selected, f) == mid + [f.cmd];
    assert (mid + [f.cmd])[..|mid|] == mid;
    if f.db != selected {
      assert mid[..|mid| - 1] == stream;
    }
  }

  lemma {:induction false} ReplayConcat(a: seq<Command>, b: seq<Command>, db: int)
    ensures Replay(a + b, db) == Replay(a, db) + Replay(b, Selected(a, db))
    ensures Selected(a + b, db) == Selected(b, Selected(a, db))
    decreases |b|
  {
    if b == [] {
      assert a + b == a;
    } else {
      var init, c := b[..|b| - 1], b[|b| - 1];
      ReplayConcat(a, init, db);
      assert (a + b)[..|a + b| - 1] == a + init;
      assert (a + b)[|a + b| - 1] == c;
    }
  }

  /** `t` replays to what was fed into it, from database `db`, and ends in the database selected last. */
  ghost predicate StreamOk(t: Stream, selected: int, db: int) {
    Replay(t.commands, db) == t.fed && (selected != -1 ==> Selected(t.commands, db) == selected)
  }

  ghost predicate Inv(s: Streams) {
    && (s.mode == On ==> StreamOk(s.main, s.selected, 0))
    && (s.diff.Some? ==> forall db: int {:trigger StreamOk(s.diff.value, s.selected, db)} :: StreamOk(s.diff.value, s.selected, db))
  }

  lemma StepKeepsInv(s: Streams, step: Step)
    requires Inv(s) && Enabled(s, step)
    ensures Inv(Apply(s, step))
  {
    var t := Apply(s, step);
    match step
    case Feed(f) =>
      if s.mode == On { OutputReplays(s.main.commands, 0, s.selected, f); }
      if s.diff.Some? && s.mode != Off {
        forall db: int ensures StreamOk(t.diff.value, t.selected, db) {
          assert StreamOk(s.diff.value, s.selected, db);
          OutputReplays(s.diff.value.commands, db, s.selected, f);
        }
      }
    case Switch(snapshot) =>
      ReplayConcat(snapshot.commands, s.diff.value.commands, 0);
      assert StreamOk(s.diff.value, s.selected, Selected(snapshot.commands, 0));
    case _ =>
  }

  lemma {:induction false} RunKeepsInv(s: Streams, steps: seq<Step>)
    requires Inv(s) && Legal(s, steps)
    ensures Inv(Run(s, steps))
    decreases |steps|
  {
    if steps != [] {
      StepKeepsInv(s, steps[0]);
      RunKeepsInv(Apply(s, steps[0]), steps[1..]);
    }
  }

  /** A server that has fed nothing yet. */
  const EMPTY: Streams := Streams(-1, On, Stream([], []), None)

  /**
   Replay selects the right database: in every run of feeds, forks, switches
   and failures, replaying the append only file from database 0 runs each
   command in the database it was fed for, and so does replaying the
   difference behind any snapshot, whatever database the snapshot ends in.
   */
  lemma ReplayRunsInRightDb(steps: seq<Step>)
    requires Legal(EMPTY, steps)
    ensures var s := Run(EMPTY, steps);
            && (s.mode == On ==> Replay(s.main.commands, 0) == s.main.fed)
            && (s.diff.Some? ==> forall db: int :: Replay(s.diff.value.commands, db) == s.diff.value.fed)
  {
    RunKeepsInv(EMPTY, steps);
    var s := Run(EMPTY, steps);
    if s.diff.Some? {
      forall db: int ensures Replay(s.diff.value.commands, db) == s.diff.value.fed {
        assert StreamOk(s.diff.value, s.selected, db);
      }
    }
  }

  /** What every step does to the commands the two streams stand for, and to the mode. */
  lemma StepFeeds(s: Streams, step: Step)
    requires Enabled(s, step)
    ensures var t := Apply(s, step);
            && (t.mode == On <==> step.Switch? || (s.mode == On && !step.Stop?)) && (t.mode == Off <==> step.Stop? || (s.mode == Off && !step.Start?))
            && (t.diff.Some? <==> step.Fork? || (s.diff.Some? && step.Feed?))
            && (step.Fork? ==> t.diff.value.fed == [])
            && (step.Feed? ==> t.main.fed == s.main.fed + (if s.mode == On then [step.f] else []))
            && (step.Feed? && s.diff.Some? ==> t.diff.value.fed == s.diff.value.fed + (if s.mode != Off then [step.f] else []))
            && (step.Switch? ==> t.main.fed == step.snapshot.fed + s.diff.value.fed)
            && (!step.Feed? && !step.Switch? ==> t.main == s.main)
  {
  }

  function Feeds(fs: seq<Fed>): seq<Step> { seq(|fs|, i requires 0 <= i < |fs| => Feed(fs[i])) }

  lemma {:induction false} FeedsReach(s: Streams, fs: seq<Fed>)
    requires s.mode != Off && s.diff.Some? && forall i :: 0 <= i < |fs| ==> !IsSelect(fs[i].cmd)
    ensures Legal(s, Feeds(fs)) && var t := Run(s, Feeds(fs));
            t.mode == s.mode && t.diff.Some? && t.diff.value.fed == s.diff.value.fed + fs
    decreases |fs|
  {
    if fs != [] {
      var t := Apply(s, Feed(fs[0]));
      FeedsReach(t, fs[1..]);
      assert Feeds(fs)[1..] == Feeds(fs[1..]);
      assert s.diff.value.fed + [fs[0]] + fs[1..] == s.diff.value.fed + fs;
    }
  }

  /** A rewrite in any run: the new file replays to its snapshot and then to every command fed since the fork, in its database. */
  lemma RewriteReplaysAll(steps: seq<Step>, fs: seq<Fed>, snapshot: Stream)
    requires Legal(EMPTY, steps) && Run(EMPTY, steps).mode != Off && Run(EMPTY, steps).diff.None?
    requires Replay(snapshot.commands, 0) == snapshot.fed && forall i :: 0 <= i < |fs| ==> !IsSelect(fs[i].cmd)
    ensures var s := Apply(Run(EMPTY, steps), Fork);
            && Legal(s, Feeds(fs)) && Enabled(Run(s, Feeds(fs)), Switch(snapshot))
            && var t := Apply(Run(s, Feeds(fs)), Switch(snapshot));
            t.mode == On && Replay(t.main.commands, 0) == snapshot.fed + fs
  {
    RunKeepsInv(EMPTY, steps);
    var r := Run(EMPTY, steps);
    StepKeepsInv(r, Fork);
    var s := Apply(r, Fork);
    FeedsReach(s, fs);
    RunKeepsInv(s, Feeds(fs));
    StepKeepsInv(Run(s, Feeds(fs)), Switch(snapshot));
    assert [] + fs == fs;
  }

  lemma ReplayPrefix(a: seq<Command>, b: seq<Command>)
    ensures Replay(a, 0) <= Replay(a + b, 0)
  {
    ReplayConcat(a, b, 0);
  }

  /** What the loader runs of a file of whole commands replays to what was fed, or to a part of it. */
  lemma LoadOfReplays(kinds: Command -> Kind, cs: seq<Command>)
    ensures if OpenMulti(kinds, cs) then LoadOf(kinds, cs).Truncate? && Replay(LoadOf(kinds, cs).cmds, 0) <= Replay(cs, 0)
            else LoadOf(kinds, cs) == Loaded(cs)
  {
    var k := OpenedAt(kinds, cs);
    ReplayPrefix(cs[..k], cs[k..]);
    assert cs[..k] + cs[k..] == cs;
  }

  /**
   From bytes to databases: loading the bytes of the append only file after any
   such run, and running what the loader runs from database 0, runs every fed
   command in its own database, up to an unfinished transaction if there is one.
   */
  lemma LoadedLogRunsInRightDb(kinds: Command -> Kind, steps: seq<Step>)
    requires Legal(EMPTY, steps) && Run(EMPTY, steps).mode == On
    requires Loadable(kinds, Run(EMPTY, steps).main.commands)
    ensures var s := Run(EMPTY, steps);
            var r := Load(kinds, EncodeAll(s.main.commands));
            if OpenMulti(kinds, s.main.commands) then r.Truncate? && Replay(r.cmds, 0) <= s.main.fed
            else r.Loaded? && Replay(r.cmds, 0) == s.main.fed
  {
    ReplayRunsInRightDb(steps);
    LogRoundTrip(kinds, Run(EMPTY, steps).main.commands);
    LoadOfReplays(kinds, Run(EMPTY, steps).main.commands);
  }
}
