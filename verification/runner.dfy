/**
 * The server runner of run.ts: it starts the game server once the git working tree
 * passes a preflight check, latches "server ready" when the server prints its start-up
 * banner, forwards console lines to the server, and backs the world up into git
 * (`add -A`, `commit`, `push`) on a timer or on the console command `backup`.
 *
 * The module-level flags of the source are the fields of `BackupRunner`. What the
 * runner does to the outside world is recorded in an effect log: lines written to the
 * server's stdin, git commands run, and the process exit. Git's outcomes, the commit
 * timestamp and the start-up banner pattern are inputs.
 */
module Runner {
  import opened JsStrings

  // ---------------------------------------------------------------------------
  // Effects

  datatype GitCommand = AddAll | Commit(message: string) | Push

  /** The lines the runner writes to the server's stdin. */
  datatype ServerLine =
    | StartingNotice        // backup started, to every player
    | SaveAllFlush          // make the server write the world to disk
    | DoneNotice            // backup finished, to every player
    | FailedNotice          // backup failed, to every player
    | Console(text: string) // a console line passed through

  /** The exact text each line puts on the server's stdin. */
  function LineText(l: ServerLine): string
  {
    match l
    case StartingNotice => "tellraw @a {\"text\":\"サーバーをバックアップしています...\",\"color\":\"green\"}\n"
    case SaveAllFlush => "save-all flush\n"
    case DoneNotice => "tellraw @a {\"text\":\"サーバーのバックアップが完了しました！\",\"color\":\"green\"}\n"
    case FailedNotice => "tellraw @a {\"text\":\"バックアップで問題が発生しました（ログ参照）\",\"color\":\"red\"}\n"
    case Console(text) => text
  }

  datatype Effect =
    | ServerInput(line: ServerLine) // a line written to the server's stdin
    | Git(command: GitCommand)      // a git invocation, successful or not
    | ProcessExit(code: int)        // process.exit

  const BackupCommand := "backup"

  /** The git commands of a log, in order. */
  function GitCalls(log: seq<Effect>): seq<GitCommand>
  {
    if log == [] then []
    else (if log[0].Git? then [log[0].command] else []) + GitCalls(log[1..])
  }

  /** The lines written to the server in a log, in order. */
  function ServerInputs(log: seq<Effect>): seq<ServerLine>
  {
    if log == [] then []
    else (if log[0].ServerInput? then [log[0].line] else []) + ServerInputs(log[1..])
  }

  /** The text the server reads from its stdin, given the lines written to it. */
  function Transmitted(lines: seq<ServerLine>): string
  {
    if lines == [] then [] else LineText(lines[0]) + Transmitted(lines[1..])
  }

  lemma {:induction false} TransmittedAppend(a: seq<ServerLine>, b: seq<ServerLine>)
    ensures Transmitted(a + b) == Transmitted(a) + Transmitted(b)
  {
    if a == [] {
      assert a + b == b;
    } else {
      assert (a + b)[0] == a[0] && (a + b)[1..] == a[1..] + b;
      TransmittedAppend(a[1..], b);
    }
  }

  /**
   * A forwarded console line adds exactly its trimmed text and a newline to what the
   * server reads, whatever was written before.
   */
  lemma ForwardedText(log: seq<Effect>, line: string)
    requires Dispatch(line).Forward?
    ensures Transmitted(ServerInputs(log + [ServerInput(Console(Dispatch(line).text))]))
         == Transmitted(ServerInputs(log)) + Trim(line) + "\n"
  {
    SentText(log, Dispatch(line).text);
  }

  lemma SentText(log: seq<Effect>, text: string)
    ensures Transmitted(ServerInputs(log + [ServerInput(Console(text))])) == Transmitted(ServerInputs(log)) + text
  {
    LogAppend(log, [ServerInput(Console(text))]);
    OneEffect(ServerInput(Console(text)));
    TransmittedAppend(ServerInputs(log), [Console(text)]);
    TransmittedOne(Console(text));
  }

  lemma TransmittedOne(l: ServerLine)
    ensures Transmitted([l]) == LineText(l)
  {
    assert [l][1..] == [];
    assert LineText(l) + [] == LineText(l);
  }

  lemma {:induction false} LogAppend(a: seq<Effect>, b: seq<Effect>)
    ensures GitCalls(a + b) == GitCalls(a) + GitCalls(b)
    ensures ServerInputs(a + b) == ServerInputs(a) + ServerInputs(b)
  {
    if a != [] {
      assert (a + b)[0] == a[0] && (a + b)[1..] == a[1..] + b;
      LogAppend(a[1..], b);
    } else {
      assert a + b == b;
    }
  }

  // ---------------------------------------------------------------------------
  // Preflight (run.ts:71-82)

  datatype PreflightCheck =
    | InsideWorkTree       // git rev-parse --is-inside-work-tree
    | OriginConfigured     // git remote get-url origin
    | UpstreamConfigured   // git rev-parse --abbrev-ref --symbolic-full-name "@{u}"

  /** The three checks run in order; the first that fails ends the preflight. */
  function CheckGitInitialized(passes: PreflightCheck -> bool): (ok: bool)
    ensures ok <==> forall c: PreflightCheck :: passes(c)
  {
    var ok := passes(InsideWorkTree) && passes(OriginConfigured) && passes(UpstreamConfigured);
    if ok then ChecksExhaustive(passes); ok else ok
  }

  lemma ChecksExhaustive(passes: PreflightCheck -> bool)
    requires passes(InsideWorkTree) && passes(OriginConfigured) && passes(UpstreamConfigured)
    ensures forall c: PreflightCheck :: passes(c)
  {
    forall c: PreflightCheck ensures passes(c) {
      if c.InsideWorkTree? {
      } else if c.OriginConfigured? {
      } else {
      }
    }
  }

  // ---------------------------------------------------------------------------
  // The backup transaction, as a specification

  /** The git steps of one backup, in the order the source runs them. */
  function GitPlan(stamp: string): (plan: seq<GitCommand>)
    ensures |plan| == 3 && plan[0] == AddAll && plan[2] == Push
    ensures plan[1].Commit? && plan[1].message == stamp
  {
    [AddAll, Commit(stamp), Push]
  }

  predicate AllSucceed(cmds: seq<GitCommand>, succeeds: GitCommand -> bool)
  {
    forall i :: 0 <= i < |cmds| ==> succeeds(cmds[i])
  }

  /**
   * The commands that actually run when `runGit` throws on failure: the plan up to and
   * including its first failing command, or the whole plan when none fails.
   */
  function GitRun(plan: seq<GitCommand>, succeeds: GitCommand -> bool): (run: seq<GitCommand>)
    ensures |run| <= |plan| && run == plan[..|run|]
    ensures forall i :: 0 <= i < |run| - 1 ==> succeeds(run[i])
    ensures AllSucceed(plan, succeeds) ==> run == plan
    ensures !AllSucceed(plan, succeeds) ==> run != [] && !succeeds(run[|run| - 1])
  {
    if plan == [] then []
    else if succeeds(plan[0]) then
      var rest := GitRun(plan[1..], succeeds);
      assert AllSucceed(plan, succeeds) ==> AllSucceed(plan[1..], succeeds);
      assert !AllSucceed(plan, succeeds) ==> !AllSucceed(plan[1..], succeeds) by {
        if !AllSucceed(plan, succeeds) {
          var i :| 0 <= i < |plan| && !succeeds(plan[i]);
          assert i > 0 && plan[1..][i - 1] == plan[i];
        }
      }
      [plan[0]] + rest
    else [plan[0]]
  }

  /** The three-step plan: what runs, and when it counts as a success. */
  lemma PlanRun(succeeds: GitCommand -> bool, stamp: string)
    ensures GitRun(GitPlan(stamp), succeeds) ==
      if !succeeds(AddAll) then [AddAll]
      else if !succeeds(Commit(stamp)) then [AddAll, Commit(stamp)]
      else [AddAll, Commit(stamp), Push]
    ensures AllSucceed(GitPlan(stamp), succeeds) <==> succeeds(AddAll) && succeeds(Commit(stamp)) && succeeds(Push)
  {
    var plan := GitPlan(stamp);
    assert plan[0] == AddAll && plan[1] == Commit(stamp) && plan[2] == Push;
    assert plan[1..] == [Commit(stamp), Push] && plan[1..][1..] == [Push] && plan[1..][1..][1..] == [];
  }

  /** The log entries of the three-step plan, one per command that runs. */
  lemma PlanEffects(succeeds: GitCommand -> bool, stamp: string)
    ensures GitEffects(GitRun(GitPlan(stamp), succeeds)) ==
      if !succeeds(AddAll) then [Git(AddAll)]
      else if !succeeds(Commit(stamp)) then [Git(AddAll), Git(Commit(stamp))]
      else [Git(AddAll), Git(Commit(stamp)), Git(Push)]
  {
    PlanRun(succeeds, stamp);
  }

  /** `backup()` proceeds only when the server is ready, git is ready and no backup runs. */
  function Admitted(serverReady: bool, gitReady: bool, inProgress: bool): (go: bool)
    ensures !serverReady ==> !go
    ensures !gitReady ==> !go
    ensures inProgress ==> !go
    ensures serverReady && gitReady && !inProgress ==> go
  {
    serverReady && gitReady && !inProgress
  }

  function GitEffects(cmds: seq<GitCommand>): (r: seq<Effect>)
    ensures |r| == |cmds| && GitCalls(r) == cmds && ServerInputs(r) == []
    ensures forall i :: 0 <= i < |r| ==> r[i] == Git(cmds[i])
  {
    if cmds == [] then []
    else
      var rest := GitEffects(cmds[1..]);
      var r := [Git(cmds[0])] + rest;
      LogAppend([Git(cmds[0])], rest);
      r
  }

  /**
   * What one call of `backup()` does to the world (run.ts:87-127): nothing when it is
   * not admitted; otherwise the two notices to the server, the git steps up to the
   * first failure, and the completion or the error notice.
   */
  function BackupEffects(serverReady: bool, gitReady: bool, inProgress: bool,
                         succeeds: GitCommand -> bool, stamp: string): (r: seq<Effect>)
    ensures r == [] <==> !Admitted(serverReady, gitReady, inProgress)
  {
    if !Admitted(serverReady, gitReady, inProgress) then []
    else
      [ServerInput(StartingNotice), ServerInput(SaveAllFlush)]
      + GitEffects(GitRun(GitPlan(stamp), succeeds))
      + [ServerInput(if AllSucceed(GitPlan(stamp), succeeds) then DoneNotice else FailedNotice)]
  }

  /**
   * An admitted backup flushes the world before any git step, runs exactly the git
   * steps up to the first failure, never exits the process, and tells the players the
   * outcome last.
   */
  lemma BackupTranscript(succeeds: GitCommand -> bool, stamp: string)
    ensures var r := BackupEffects(true, true, false, succeeds, stamp);
      && GitCalls(r) == GitRun(GitPlan(stamp), succeeds)
      && ServerInputs(r) == [StartingNotice, SaveAllFlush,
                             if AllSucceed(GitPlan(stamp), succeeds) then DoneNotice else FailedNotice]
      && 1 < |r| && r[1] == ServerInput(SaveAllFlush)
      && r[|r| - 1] == ServerInput(if AllSucceed(GitPlan(stamp), succeeds) then DoneNotice else FailedNotice)
      && (forall i :: 0 <= i < |r| && r[i].Git? ==> 1 < i < |r| - 1)
      && (forall i :: 0 <= i < |r| ==> !r[i].ProcessExit?)
  {
    var outcome := if AllSucceed(GitPlan(stamp), succeeds) then DoneNotice else FailedNotice;
    var git := GitEffects(GitRun(GitPlan(stamp), succeeds));
    BackupLogShape([ServerInput(StartingNotice), ServerInput(SaveAllFlush)], git, outcome,
                   BackupEffects(true, true, false, succeeds, stamp));
  }

  lemma BackupLogShape(head: seq<Effect>, git: seq<Effect>, outcome: ServerLine, r: seq<Effect>)
    requires head == [ServerInput(StartingNotice), ServerInput(SaveAllFlush)]
    requires forall i :: 0 <= i < |git| ==> git[i].Git?
    requires r == head + git + [ServerInput(outcome)]
    ensures |r| > 1 && r[1] == ServerInput(SaveAllFlush) && r[|r| - 1] == ServerInput(outcome)
    ensures forall i :: 0 <= i < |r| ==> !r[i].ProcessExit?
    ensures forall i :: 0 <= i < |r| && r[i].Git? ==> 1 < i < |r| - 1
    ensures GitCalls(r) == GitCalls(git)
    ensures ServerInputs(r) == [StartingNotice, SaveAllFlush] + ServerInputs(git) + [outcome]
  {
    BackupLogPositions(head, git, outcome, r);
    HeadProjections(head);
    BackupLogProjections(head, git, outcome, r);
  }

  lemma BackupLogPositions(head: seq<Effect>, git: seq<Effect>, outcome: ServerLine, r: seq<Effect>)
    requires head == [ServerInput(StartingNotice), ServerInput(SaveAllFlush)]
    requires forall i :: 0 <= i < |git| ==> git[i].Git?
    requires r == head + git + [ServerInput(outcome)]
    ensures |r| > 1 && r[1] == ServerInput(SaveAllFlush) && r[|r| - 1] == ServerInput(outcome)
    ensures forall i :: 0 <= i < |r| ==> !r[i].ProcessExit?
    ensures forall i :: 0 <= i < |r| && r[i].Git? ==> 1 < i < |r| - 1
  {
    assert forall i :: 2 <= i < |r| - 1 ==> r[i] == git[i - 2];
  }

  lemma BackupLogProjections(head: seq<Effect>, git: seq<Effect>, outcome: ServerLine, r: seq<Effect>)
    requires head == [ServerInput(StartingNotice), ServerInput(SaveAllFlush)]
    requires GitCalls(head) == [] && ServerInputs(head) == [StartingNotice, SaveAllFlush]
    requires r == head + git + [ServerInput(outcome)]
    ensures GitCalls(r) == GitCalls(git)
    ensures ServerInputs(r) == [StartingNotice, SaveAllFlush] + ServerInputs(git) + [outcome]
  {
    var hg := head + git;
    OneEffect(ServerInput(outcome));
    LogAppend(head, git);
    LogAppend(hg, [ServerInput(outcome)]);
    assert GitCalls(r) == GitCalls(hg) + [];
  }

  lemma HeadProjections(head: seq<Effect>)
    requires head == [ServerInput(StartingNotice), ServerInput(SaveAllFlush)]
    ensures GitCalls(head) == [] && ServerInputs(head) == [StartingNotice, SaveAllFlush]
  {
    var e0, e1 := ServerInput(StartingNotice), ServerInput(SaveAllFlush);
    OneEffect(e0);
    OneEffect(e1);
    assert head == [e0] + [e1];
    LogAppend([e0], [e1]);
  }

  lemma OneEffect(e: Effect)
    ensures GitCalls([e]) == if e.Git? then [e.command] else []
    ensures ServerInputs([e]) == if e.ServerInput? then [e.line] else []
  {
    assert [e][1..] == [];
  }

  /**
   * The outcome notice is the completion notice exactly when every git step succeeded;
   * when a step fails, none after it runs and the error notice is sent instead.
   */
  lemma BackupOutcome(succeeds: GitCommand -> bool, stamp: string)
    ensures var r := BackupEffects(true, true, false, succeeds, stamp);
      && (DoneNotice in ServerInputs(r) <==> succeeds(AddAll) && succeeds(Commit(stamp)) && succeeds(Push))
      && (!succeeds(AddAll) ==> GitCalls(r) == [AddAll])
      && (succeeds(AddAll) && !succeeds(Commit(stamp)) ==> GitCalls(r) == [AddAll, Commit(stamp)])
  {
    BackupTranscript(succeeds, stamp);
    PlanRun(succeeds, stamp);
  }

  // ---------------------------------------------------------------------------
  // Console dispatch (run.ts:174-181)

  datatype ConsoleAction = RunBackup | Forward(text: string)

  /** A console line: `backup` after trimming runs a backup, anything else goes to the server trimmed. */
  function Dispatch(line: string): (a: ConsoleAction)
    ensures a.RunBackup? <==> Trim(line) == BackupCommand
    ensures a.Forward? ==> a.text == Trim(line) + "\n" && a.text != BackupCommand + "\n"
  {
    var cmd := Trim(line);
    assert cmd + "\n" == BackupCommand + "\n" ==> cmd == BackupCommand by {
      if cmd + "\n" == BackupCommand + "\n" {
        assert cmd == (cmd + "\n")[..|cmd|];
      }
    }
    if cmd == BackupCommand then RunBackup else Forward(cmd + "\n")
  }

  /** Surrounding whitespace does not hide the `backup` command. */
  lemma PaddedBackupRuns(pre: string, post: string)
    requires AllWhitespace(pre) && AllWhitespace(post)
    ensures Dispatch(pre + BackupCommand + post) == RunBackup
  {
    TrimOfPadded(pre, BackupCommand, post);
  }

  // ---------------------------------------------------------------------------
  // The runner

  class BackupRunner {
    var isServerReady: bool
    var backupInProgress: bool
    var gitReady: bool
    /** `server !== null`: the child process has been spawned. */
    var serverStarted: bool
    var effects: seq<Effect>

    /** Only a spawned server can have printed its ready banner. */
    ghost predicate Consistent()
      reads this
    {
      isServerReady ==> serverStarted
    }

    /**
     * The state between two events. `backup()` never yields, so no event handler ever
     * runs while a backup holds the flag.
     */
    ghost predicate Valid()
      reads this
    {
      Consistent() && !backupInProgress
    }

    /** The state before `main` runs (run.ts:23-26). */
    constructor ()
      ensures Valid()
      ensures !isServerReady && !backupInProgress && !gitReady && !serverStarted && effects == []
    {
      isServerReady, backupInProgress, gitReady, serverStarted := false, false, false, false;
      effects := [];
    }

    /** `server?.stdin.write(line)`: nothing happens while there is no server. */
    method WriteToServer(line: ServerLine)
      modifies this`effects
      ensures effects == old(effects) + if serverStarted then [ServerInput(line)] else []
    {
      if serverStarted {
        effects := effects + [ServerInput(line)];
      }
    }

    /** One git step; it may only run while this runner holds the backup flag. */
    method RunGit(command: GitCommand, succeeds: GitCommand -> bool) returns (ok: bool)
      requires backupInProgress
      modifies this`effects
      ensures effects == old(effects) + [Git(command)]
      ensures ok == succeeds(command)
    {
      effects := effects + [Git(command)];
      ok := succeeds(command);
    }

    /**
     * `backup()`. The gate leaves everything as it was; an admitted backup takes the
     * flag, writes the notice and `save-all flush`, runs the git steps until one fails,
     * writes the outcome notice and releases the flag on either path.
     */
    method Backup(succeeds: GitCommand -> bool, stamp: string)
      requires Consistent()
      modifies this
      ensures Consistent()
      ensures effects == old(effects) + BackupEffects(old(isServerReady), old(gitReady), old(backupInProgress), succeeds, stamp)
      ensures backupInProgress == old(backupInProgress)
      ensures isServerReady == old(isServerReady) && gitReady == old(gitReady) && serverStarted == old(serverStarted)
    {
      if !isServerReady {
        return;
      }
      if !gitReady {
        return;
      }
      if backupInProgress {
        return;
      }
      // the server is running here, since it has printed its ready banner
      backupInProgress := true;
      effects := effects + [ServerInput(StartingNotice), ServerInput(SaveAllFlush)];
      var ok := RunGitSteps(succeeds, stamp);
      effects := effects + [ServerInput(if ok then DoneNotice else FailedNotice)];
      backupInProgress := false;
      ghost var git := GitEffects(GitRun(GitPlan(stamp), succeeds));
      assert effects == old(effects) + ([ServerInput(StartingNotice), ServerInput(SaveAllFlush)] + git + [ServerInput(if ok then DoneNotice else FailedNotice)]);
    }

    /**
     * The body of the `try` (run.ts:108-113): `add -A`, `commit -m <stamp>`, `push`, where
     * a failing step throws and so skips the ones after it.
     */
    method RunGitSteps(succeeds: GitCommand -> bool, stamp: string) returns (ok: bool)
      requires backupInProgress
      modifies this`effects
      ensures ok == AllSucceed(GitPlan(stamp), succeeds)
      ensures effects == old(effects) + GitEffects(GitRun(GitPlan(stamp), succeeds))
    {
      PlanRun(succeeds, stamp);
      PlanEffects(succeeds, stamp);
      ok := RunGit(AddAll, succeeds);
      if ok {
        ok := RunGit(Commit(stamp), succeeds);
        if ok {
          ok := RunGit(Push, succeeds);
          assert effects == old(effects) + [Git(AddAll), Git(Commit(stamp)), Git(Push)];
        } else {
          assert effects == old(effects) + [Git(AddAll), Git(Commit(stamp))];
        }
      }
    }

    /**
     * The server's stdout handler (run.ts:139-146): a chunk that matches the ready
     * banner latches `isServerReady`; nothing ever clears it.
     */
    method OnServerOutput(chunk: string, isReadyBanner: string -> bool)
      requires Valid() && serverStarted
      modifies this`isServerReady
      ensures Valid()
      ensures isServerReady == (old(isServerReady) || isReadyBanner(chunk))
    {
      if isReadyBanner(chunk) {
        isServerReady := true;
      }
    }

    /** The console `line` handler (run.ts:174-181). */
    method OnConsoleLine(line: string, succeeds: GitCommand -> bool, stamp: string)
      requires Valid()
      modifies this
      ensures Valid()
      ensures isServerReady == old(isServerReady) && gitReady == old(gitReady)
      ensures serverStarted == old(serverStarted) && backupInProgress == old(backupInProgress)
      ensures Dispatch(line).RunBackup? ==>
        effects == old(effects) + BackupEffects(isServerReady, gitReady, false, succeeds, stamp)
      ensures Dispatch(line).Forward? ==>
        effects == old(effects) + if serverStarted then [ServerInput(Console(Dispatch(line).text))] else []
    {
      match Dispatch(line)
      case RunBackup =>
        Backup(succeeds, stamp);
      case Forward(text) =>
        WriteToServer(Console(text));
    }

    /** The `setInterval` callback (run.ts:202): one `backup()` per tick. */
    method OnTimer(succeeds: GitCommand -> bool, stamp: string)
      requires Valid()
      modifies this
      ensures Valid()
      ensures isServerReady == old(isServerReady) && gitReady == old(gitReady) && serverStarted == old(serverStarted)
      ensures effects == old(effects) + BackupEffects(isServerReady, gitReady, false, succeeds, stamp)
    {
      Backup(succeeds, stamp);
    }

    /**
     * `main` (run.ts:189-204): the preflight decides `gitReady`; on failure the process
     * exits with code 1 before anything else happens. Otherwise the server is spawned
     * and the first backup is triggered at once, which the gate always turns away
     * because no ready banner can have arrived yet.
     */
    method Start(passes: PreflightCheck -> bool, succeeds: GitCommand -> bool, stamp: string)
      requires Valid() && !serverStarted && !isServerReady && !backupInProgress
      modifies this
      ensures Valid()
      ensures gitReady == CheckGitInitialized(passes)
      ensures !gitReady ==> effects == old(effects) + [ProcessExit(1)] && !serverStarted
      ensures gitReady ==> effects == old(effects) && serverStarted
      ensures !isServerReady && !backupInProgress
    {
      gitReady := CheckGitInitialized(passes);
      if !gitReady {
        effects := effects + [ProcessExit(1)];
        return;
      }
      serverStarted := true;
      Backup(succeeds, stamp);
    }
  }
}
