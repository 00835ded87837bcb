/** main.py: the earlier, single-file version of the bot. Its handlers are fixed in the code
    (start, help, type, key, screen, run/rawrun, shell, the `!SHUTDOWN` phrase and a
    catch-all), and every command runs through `run_command_and_notify`, whose background
    job sends the notice, the formatted reply and the cleanup itself. The action name and
    the rest of the command are those of Rimokon/util.py. */
module Legacy {
  import opened Core
  import opened Effects
  import opened TextNormalizer
  import opened Escaping
  import opened ImportConfig
  import opened PluginHelpers
  import opened RunRawrunShell

  const HelloText :=
    "Hello! I am リモコン (pronounced \"rimokon\", japanese for \"remote control\") "
    + "and I let my admins control the device I am running on. Click /help to "
    + "learn more"
  const HelpText :=
    "Hello\\. I currently have the following commands:\n\n"
    + "*\\(\\*\\)* /type _STRING_ \\- Type _STRING_ on keyboard\n\n"
    + "*\\(\\*\\)* /key \\[_ARGS_\\] _KEYS_ \\[_KEYS_\\.\\.\\.\\] \\- Generate keypress event for "
    + "key \\(e\\.g\\. `space`\\), shortcut \\(e\\.g\\. `ctrl+w`\\), or a sequence of them "
    + "\\(separated with spaces, e\\.g\\. `ctrl+w space`\\)\\. Additional arguments are forwarded "
    + "to `xdotool key`\n\n"
    + "*\\(\\*\\*\\)* /screen \\- Capture screen and send the screenshot as a photo\n\n"
    + "*\\(\\*\\*\\)* /screenf \\- Capture screen and send the screenshot as a document\n\n"
    + "/run _COMMAND ARGS_ \\- execute _COMMAND_ with command\\-line whitespace\\-sparated "
    + "arguments _ARGS_\\. Arguments can be quoted and escaped with backslashes\n\n"
    + "/rawrun _COMMAND ARGS_ \\- similar to /run, but escaping and quoting are not supported, "
    + "the string is interpreted as raw\n\n"
    + "/shell _STRING_ \\- execute _STRING_ in a shell\n\n"
    + "`!SHUTDOWN` \\- Stop this bot\\. Already running child processes won't be killed\\. "
    + "WARNING: for security reasons, by default, this command can be executed by ANY USER, "
    + "not just the admins\\. Uncomment a line in the source code to prevent this behavior\n\n"
    + "*\\(\\*\\)* These commands only work with `xdotool` \n\n"
    + "*\\(\\*\\*\\)* These commands are guaranteed to work on Windows, macOS or Linux with X11\n\n"
    + "Note: leading slashes can be omitted in all of the above commands, case does not matter\\. "
    + "The `!SHUTDOWN` command is an exception: it must be typed exactly like that"
  const NotAdminText := "You are not my admin. Ignored"
  const UnknownText := "Unknown command"
  const ShutdownPhrase := "!SHUTDOWN"
  const StoppingNote := "Stopping due to '!SHUTDOWN' received"
  const NoScreenPrefix := "Error: your machine does not support this feature:\n"
  const ParseErrorPrefix := "Failed to parse arguments:\n"

  /** The admin chat ids and the quick-access rows (none when the configuration has none). */
  datatype Setup = Setup(admins: set<int>, quickAccess: seq<seq<string>>)

  /** What grabbing the screen gives: an image, or the `OSError` of a machine without a
      screen to capture. */
  datatype Grab = Grabbed | NoScreen(desc: string)

  /** A command for `run_command_and_notify`: what to run, and whether it is expected to
      finish quickly (then no notice is sent). `shell=True` is a `ShellLine` command. */
  datatype Job = Job(command: Command, expectQuick: bool)

  /** The handlers in the order they are registered. */
  datatype Handler = Start | Help | Type | Key | Screen | RunRawRun | Shell | Shutdown | Unknown

  /** What a handler decides to do with a message. */
  datatype Outcome =
    | Answer(text: string, mode: ParseMode, markup: Markup)  // one `reply_to`
    | SendScreen(asDocument: bool)                          // the screenshot, as a document or a photo
    | Launch(job: Job)                                      // a background thread running the job
    | Stop                                                  // `!SHUTDOWN`
    | Raise(fault: Fault)                                   // the handler raises
    | Ignore                                                // no handler takes the message

  // ---------------------------------------------------------------------------------
  // `str.replace`

  /** The pattern occurs in `s` at position `i`. */
  predicate OccursAt(s: string, pat: string, i: nat)
  {
    i + |pat| <= |s| && s[i..i + |pat|] == pat
  }

  /** `s.replace(pat, sub)` for a non-empty pattern: every occurrence, left to right, without
      overlaps. */
  function ReplaceAll(s: string, pat: string, sub: string): string
    requires pat != []
    decreases |s|
  {
    if |s| < |pat| then s
    else if s[..|pat|] == pat then sub + ReplaceAll(s[|pat|..], pat, sub)
    else [s[0]] + ReplaceAll(s[1..], pat, sub)
  }

  /** Text in which the pattern does not occur comes back unchanged. */
  lemma {:induction false} ReplaceAbsent(s: string, pat: string, sub: string)
    requires pat != [] && forall i: nat :: !OccursAt(s, pat, i)
    ensures ReplaceAll(s, pat, sub) == s
    decreases |s|
  {
    if |s| >= |pat| {
      assert !OccursAt(s, pat, 0);
      forall i: nat ensures !OccursAt(s[1..], pat, i) {
        if OccursAt(s[1..], pat, i) {
          assert s[1..][i..i + |pat|] == s[i + 1..i + 1 + |pat|];
          assert OccursAt(s, pat, i + 1);
        }
      }
      ReplaceAbsent(s[1..], pat, sub);
      assert [s[0]] + s[1..] == s;
    }
  }

  /** Text that does not start with the pattern's first character keeps that character. */
  lemma ReplaceStep(s: string, pat: string, sub: string)
    requires pat != [] && s != [] && s[0] != pat[0]
    ensures ReplaceAll(s, pat, sub) == [s[0]] + ReplaceAll(s[1..], pat, sub)
  {
    if |s| >= |pat| {
      assert s[..|pat|][0] != pat[0];
    }
  }

  /** A prefix none of whose characters starts the pattern is copied unchanged. */
  lemma {:induction false} ReplaceKeepsPrefix(p: string, rest: string, pat: string, sub: string)
    requires pat != [] && forall i :: 0 <= i < |p| ==> p[i] != pat[0]
    ensures ReplaceAll(p + rest, pat, sub) == p + ReplaceAll(rest, pat, sub)
    decreases |p|
  {
    if p == [] {
      assert p + rest == rest;
    } else {
      var s := p + rest;
      assert s[0] == p[0] && s[1..] == p[1..] + rest;
      ReplaceStep(s, pat, sub);
      ReplaceKeepsPrefix(p[1..], rest, pat, sub);
      assert [p[0]] + (p[1..] + ReplaceAll(rest, pat, sub)) == p + ReplaceAll(rest, pat, sub);
    }
  }

  /** `exec` is read as `run` and `rawexec` as `rawrun`. */
  lemma ExecNames()
    ensures ReplaceAll("exec", "exec", "run") == "run"
    ensures ReplaceAll("rawexec", "exec", "run") == "rawrun"
  {
    assert "exec"[..4] == "exec" && "exec"[4..] == [];
    assert "rawexec" == "raw" + "exec" && "rawrun" == "raw" + "run";
    ReplaceKeepsPrefix("raw", "exec", "exec", "run");
  }

  /** `run` and `rawrun` are kept as they are. */
  lemma RunNames()
    ensures ReplaceAll("run", "exec", "run") == "run"
    ensures ReplaceAll("rawrun", "exec", "run") == "rawrun"
  {
    assert "rawrun" == "raw" + "run";
    ReplaceKeepsPrefix("raw", "run", "exec", "run");
  }

  // ---------------------------------------------------------------------------------
  // The reply and the background job

  /** The reply for a finished process: as in the plugin version, but the last line is
      always "Exit code: " and the return code as Python prints it, negative for a
      signal. */
  function ReplyText(c: Completed): string
  {
    DoneHeader + Block(StdoutOpen, c.out) + Block(StderrOpen, c.err) + ExitPrefix + IntText(c.code)
  }

  /** `escape(s, ['\\', '`'])` of util.py succeeds and escapes each code character. */
  lemma EscapeCode(s: string)
    ensures EscapeAll(s, ["\\", "`"]) == Ok(EscapeEach(s, CodeChars))
  {
    var what := ["\\", "`"];
    assert SingleChars(what) && DistinctEntries(what);
    BackslashFirstEscapesEach(s, what);
    assert CharSet(what) == CodeChars by {
      assert what[0][0] == '\\' && what[1][0] == '`';
    }
  }

  /** `reply_text` built by successive `+=` in the job. */
  method BuildReply(c: Completed) returns (text: string)
    ensures text == ReplyText(c)
  {
    text := DoneHeader;
    if c.out != [] {
      var e := Escape(c.out, ["\\", "`"]);
      EscapeCode(c.out);
      text := text + (StdoutOpen + e.value + Close);
    }
    assert text == DoneHeader + Block(StdoutOpen, c.out);
    if c.err != [] {
      var e := Escape(c.err, ["\\", "`"]);
      EscapeCode(c.err);
      text := text + (StderrOpen + e.value + Close);
    }
    assert text == DoneHeader + Block(StdoutOpen, c.out) + Block(StderrOpen, c.err);
    text := text + (ExitPrefix + IntText(c.code));
  }

  /** For a process that exited normally both versions send the same reply; for one killed
      by a signal this one shows the negative code where the plugin names the signal. */
  lemma SameReplyAsPlugin(c: Completed)
    ensures c.code >= 0 ==> ReplyText(c) == RunRawrunShell.ReplyText(c)
    ensures c.code < 0 ==>
              var p := DoneHeader + Block(StdoutOpen, c.out) + Block(StderrOpen, c.err);
              && ReplyText(c) == p + ExitPrefix + "-" + Decimal(-c.code)
              && RunRawrunShell.ReplyText(c) == p + SignalPrefix + Decimal(-c.code)
  {
    var p := DoneHeader + Block(StdoutOpen, c.out) + Block(StderrOpen, c.err);
    assert ReplyText(c) == p + (ExitPrefix + IntText(c.code));
    assert RunRawrunShell.ReplyText(c) == p + Ending(c.code);
  }

  /** Nothing. */
  const Done: Trace<()> := Trace([], Ok(()))

  /** The `try` block of the job: start the process, send the notice unless the command is
      expected to be quick, reply with the formatted text (in plain text naming the API's
      error when that is refused), and delete the notice. The first call that raises ends
      the block. */
  function JobBody(tr: Transport, sys: System, sentId: int, m: Message, job: Job): Trace<()>
  {
    match sys(job.command)
    case Fail(e) => Trace([Spawn(job.command)], Fail(e))
    case Ok(c) =>
      var notice := if job.expectQuick then Done else ReplyTo(tr, m, ExecutingNotice, PlainText, NoMarkup);
      var reply := ReplyTo(tr, m, ReplyText(c), MarkdownV2, NoMarkup);
      var answered :=
        if reply.result.Ok? then reply
        else Then(Trace(reply.events, Ok(())),
                  ReplyTo(tr, m, FallbackText(c.code, FaultText(reply.result.fault)), PlainText, NoMarkup));
      var cleanup := if job.expectQuick then Done else DeleteMessage(tr, m.chat, sentId);
      Then(Trace([Spawn(job.command)], Ok(())), Then(notice, Then(answered, cleanup)))
  }

  /** The job `f` of `run_command_and_notify`: whatever the block raises is reported in one
      more reply; only that reply can still raise out of the thread. */
  function RunJob(tr: Transport, sys: System, sentId: int, m: Message, job: Job): (t: Trace<()>)
    ensures var body := JobBody(tr, sys, sentId, m, job);
      && |body.events| <= |t.events| && t.events[..|body.events|] == body.events
      && (body.result.Ok? ==> t == body)
      && (body.result.Fail? ==>
            t.events == body.events + [Reply(m.chat, m.id, SorryPrefix + FaultText(body.result.fault), PlainText, NoMarkup)]
            && (t.result.Ok? <==> (SorryPrefix + FaultText(body.result.fault), PlainText) !in tr.refused))
  {
    var body := JobBody(tr, sys, sentId, m, job);
    if body.result.Ok? then body
    else
      var sorry := ReplyTo(tr, m, SorryPrefix + FaultText(body.result.fault), PlainText, NoMarkup);
      assert (body.events + sorry.events)[..|body.events|] == body.events;
      Trace(body.events + sorry.events, sorry.result)
  }

  // ---------------------------------------------------------------------------------
  // Handlers

  /** The handler a command name selects, for the handlers whose filter compares the name. */
  function NamedHandler(name: string): (h: Option<Handler>)
    ensures h.Some? ==> name != [] && 'a' <= name[0] <= 'z' && h.value !in {Shutdown, Unknown}
  {
    if name == "start" then Some(Start)
    else if name == "help" then Some(Help)
    else if name == "type" then Some(Type)
    else if name == "key" then Some(Key)
    else if name in {"screen", "screenf"} then Some(Screen)
    else if name in {"run", "rawrun", "exec", "rawexec"} then Some(RunRawRun)
    else if name == "shell" then Some(Shell)
    else None
  }

  /** The handler chosen for a text message: the filters in registration order. The
      filters that compute the action name raise on text made only of whitespace, in the
      first of them; the shutdown filter compares the whole text. */
  function Route(text: Option<string>): (r: Try<Option<Handler>>)
    ensures r.Fail? <==> text.Some? && text.value != [] && !HasToken(text.value)
    ensures r.Fail? ==> r.fault == IndexError
    ensures r.Ok? ==> (r.value.None? <==> text.None?)
    ensures r == Ok(Some(Shutdown)) ==> text == Some(ShutdownPhrase)
  {
    if text.None? then Ok(None)
    else
      match TryActionName(text)
      case Fail(e) => Fail(e)
      case Ok(name) =>
        if name.Some? && NamedHandler(name.value).Some? then Ok(NamedHandler(name.value))
        else if text == Some(ShutdownPhrase) then Ok(Some(Shutdown))
        else Ok(Some(Unknown))
  }

  /** `admins_only_handler`. */
  function AdminsOnly(setup: Setup, m: Message, o: Outcome): (r: Outcome)
    ensures m.chat in setup.admins ==> r == o
    ensures m.chat !in setup.admins ==> r == Answer(NotAdminText, PlainText, NoMarkup)
  {
    if m.chat in setup.admins then o else Answer(NotAdminText, PlainText, NoMarkup)
  }

  /** `str.endswith('f')`. */
  predicate EndsWithF(s: string)
  {
    s != [] && s[|s| - 1] == 'f'
  }

  /** `screen`: a machine without a screen is reported; otherwise the capture is sent as a
      document when the action name ends with `f`, as a photo otherwise. */
  function ScreenBody(grab: Grab, m: Message): (o: Outcome)
    ensures grab.NoScreen? ==> o == Answer(NoScreenPrefix + grab.desc, PlainText, NoMarkup)
  {
    match grab
    case NoScreen(d) => Answer(NoScreenPrefix + d, PlainText, NoMarkup)
    case Grabbed =>
      match TryActionName(m.text)
      case Fail(e) => Raise(e)
      case Ok(name) =>
        if name.None? then Raise(AttributeError) else SendScreen(EndsWithF(name.value))
  }

  /** `run_raw_run`: `exec` is mapped to `run` in the name, then `run` splits the rest as a
      shell would (a parse error is reported and nothing runs) and `rawrun` splits it at
      whitespace. */
  function RunRawRunBody(shlex: string -> Shlexed, m: Message): Outcome
  {
    match TryActionName(m.text)
    case Fail(e) => Raise(e)
    case Ok(name) =>
      if name.None? then Raise(AttributeError)
      else
        var action := ReplaceAll(name.value, "exec", "run");
        match TryRest(m.text, true)
        case Fail(e) => Raise(e)
        case Ok(rest) =>
          if action == "run" then
            match shlex(rest)
            case ParseError(e) => Answer(ParseErrorPrefix + e, PlainText, NoMarkup)
            case Tokens(args) => Launch(Job(Argv(args), false))
          else if action == "rawrun" then Launch(Job(Argv(Words(rest)), false))
          else Raise(AssertionError)
  }

  /** The body of a gated command handler. */
  function CommandBody(h: Handler, grab: Grab, shlex: string -> Shlexed, m: Message): (o: Outcome)
    ensures o.Answer? || o.SendScreen? || o.Launch? || o.Raise?
  {
    match h
    case Help => Answer(HelpText, MarkdownV2, NoMarkup)
    case Screen => ScreenBody(grab, m)
    case RunRawRun => RunRawRunBody(shlex, m)
    case _ =>
      match TryRest(m.text, true)
      case Fail(e) => Raise(e)
      case Ok(rest) =>
        if h == Type then Launch(Job(Argv(["xdotool", "type", rest]), true))
        else if h == Key then Launch(Job(Argv(["xdotool", "key"] + Words(rest)), true))
        else Launch(Job(ShellLine(rest), false))
  }

  /** Handlers behind the admin gate. */
  predicate Gated(h: Handler)
  {
    h in {Help, Type, Key, Screen, RunRawRun, Shell}
  }

  /** What the chosen handler decides. `start`, `!SHUTDOWN` and the catch-all are open to
      everyone. */
  function Decide(setup: Setup, grab: Grab, shlex: string -> Shlexed, m: Message): Outcome
  {
    match Route(m.text)
    case Fail(e) => Raise(e)
    case Ok(None) => Ignore
    case Ok(Some(h)) =>
      if h == Start then Answer(HelloText, PlainText, Keyboard(setup.quickAccess))
      else if h == Shutdown then Stop
      else if h == Unknown then Answer(UnknownText, PlainText, NoMarkup)
      else AdminsOnly(setup, m, CommandBody(h, grab, shlex, m))
  }

  /** The calls the handler itself makes; a launched job runs on its own thread. */
  function Respond(tr: Transport, m: Message, o: Outcome): (t: Trace<()>)
    ensures o.Answer? ==> t == ReplyTo(tr, m, o.text, o.mode, o.markup)
    ensures o.SendScreen? ==> t == Trace([if o.asDocument then Document(m.chat, m.id) else Photo(m.chat, m.id)], Ok(()))
    ensures o.Stop? ==> t == Trace([Log(Info, StoppingNote), StopPolling], Ok(()))
    ensures o.Launch? || o.Ignore? ==> t == Done
    ensures o.Raise? ==> t == Trace([], Fail(o.fault))
  {
    match o
    case Answer(text, mode, markup) => ReplyTo(tr, m, text, mode, markup)
    case SendScreen(doc) => Trace([if doc then Document(m.chat, m.id) else Photo(m.chat, m.id)], Ok(()))
    case Launch(_) => Done
    case Stop => Trace([Log(Info, StoppingNote), StopPolling], Ok(()))
    case Raise(e) => Trace([], Fail(e))
    case Ignore => Done
  }

  /** Handling one message: the handler's calls, then those of the job it launched. */
  function Handle(setup: Setup, tr: Transport, sys: System, grab: Grab, shlex: string -> Shlexed,
                  sentId: int, m: Message): Trace<()>
  {
    var o := Decide(setup, grab, shlex, m);
    var here := Respond(tr, m, o);
    if o.Launch? then Trace(here.events + RunJob(tr, sys, sentId, m, o.job).events, here.result)
    else here
  }

  // ---------------------------------------------------------------------------------
  // Properties

  /** A non-admin sender of a gated command gets exactly one reply, the refusal: nothing is
      run, captured or sent otherwise. */
  lemma NonAdminOnlyRefused(setup: Setup, tr: Transport, sys: System, grab: Grab, shlex: string -> Shlexed,
                            sentId: int, m: Message)
    requires m.chat !in setup.admins
    requires Route(m.text).Ok? && Route(m.text).value.Some? && Gated(Route(m.text).value.value)
    ensures Handle(setup, tr, sys, grab, shlex, sentId, m).events
              == [Reply(m.chat, m.id, NotAdminText, PlainText, NoMarkup)]
  {
  }

  /** The run handler takes exactly the four names, and `exec` and `rawexec` behave as `run`
      and `rawrun`: the first pair through the shell-style parser, the second split at
      whitespace. */
  lemma RunRawRunChoice(shlex: string -> Shlexed, m: Message)
    requires m.text.Some? && HasToken(m.text.value)
    requires ActionName(m.text) in {Some("run"), Some("exec"), Some("rawrun"), Some("rawexec")}
    ensures var rest := Rest(m.text.value, true);
      if ActionName(m.text) in {Some("run"), Some("exec")} then
        RunRawRunBody(shlex, m)
          == (match shlex(rest)
              case ParseError(e) => Answer(ParseErrorPrefix + e, PlainText, NoMarkup)
              case Tokens(args) => Launch(Job(Argv(args), false)))
      else RunRawRunBody(shlex, m) == Launch(Job(Argv(Words(rest)), false))
  {
    ExecNames();
    RunNames();
  }

  /** Every message the run handler takes gets to a decision: the `assert False` branch is
      never reached. */
  lemma RunRawRunNeverAsserts(setup: Setup, grab: Grab, shlex: string -> Shlexed, m: Message)
    requires Route(m.text) == Ok(Some(RunRawRun))
    ensures RunRawRunBody(shlex, m) != Raise(AssertionError)
    ensures RunRawRunBody(shlex, m).Answer? || RunRawRunBody(shlex, m).Launch?
  {
    RunRawRunChoice(shlex, m);
  }

  /** For an admin, a gated handler's decision is its body's. */
  lemma GatedDecides(setup: Setup, grab: Grab, shlex: string -> Shlexed, m: Message, h: Handler)
    requires m.chat in setup.admins && Route(m.text) == Ok(Some(h)) && Gated(h)
    ensures Decide(setup, grab, shlex, m) == CommandBody(h, grab, shlex, m)
  {
    assert h != Start && h != Shutdown && h != Unknown;
    assert Decide(setup, grab, shlex, m) == AdminsOnly(setup, m, CommandBody(h, grab, shlex, m));
  }

  /** `type` types the rest as one argument and `key` passes the words of the rest, both as
      quick jobs; `shell` hands the rest to the shell and sends the notice. */
  lemma CommandJobs(grab: Grab, shlex: string -> Shlexed, m: Message, h: Handler)
    requires h in {Type, Key, Shell} && m.text.Some? && HasToken(m.text.value)
    ensures var rest := Rest(m.text.value, true);
      CommandBody(h, grab, shlex, m)
        == if h == Type then Launch(Job(Argv(["xdotool", "type", rest]), true))
           else if h == Key then Launch(Job(Argv(["xdotool", "key"] + Words(rest)), true))
           else Launch(Job(ShellLine(rest), false))
  {
  }

  /** Text no other handler takes gets "Unknown command", from anyone. */
  lemma UnknownAnswered(setup: Setup, tr: Transport, sys: System, grab: Grab, shlex: string -> Shlexed,
                        sentId: int, m: Message)
    requires Route(m.text) == Ok(Some(Unknown))
    ensures Handle(setup, tr, sys, grab, shlex, sentId, m).events
              == [Reply(m.chat, m.id, UnknownText, PlainText, NoMarkup)]
  {
  }

  /** A screenshot goes out as a document exactly for `screenf`, as a photo for `screen`. */
  lemma ScreenChoice(m: Message)
    requires m.text.Some? && HasToken(m.text.value)
    requires ActionName(m.text) in {Some("screen"), Some("screenf")}
    ensures ScreenBody(Grabbed, m) == SendScreen(ActionName(m.text) == Some("screenf"))
  {
    assert "screenf"[6] == 'f' && "screen"[5] == 'n';
  }

  /** A word starting with `!` keeps it as the first character of its action name. */
  lemma BangName(w: string)
    requires w != [] && w[0] == '!' && NoSpace(w)
    ensures HasToken(w) && ActionName(Some(w)).Some? && ActionName(Some(w)).value != []
    ensures ActionName(Some(w)).value[0] == '!'
  {
    FirstWordOfWord(w);
    assert LStripSlash(w) == w;
  }

  /** `!SHUTDOWN` is no command name, so it reaches the shutdown filter. */
  lemma ShutdownPhraseRoutes()
    ensures Route(Some(ShutdownPhrase)) == Ok(Some(Shutdown))
  {
    var w := ShutdownPhrase;
    VisibleWord(w);
    BangName(w);
  }

  /** Only the shutdown handler stops the bot. */
  lemma StopOnlyOnShutdown(setup: Setup, grab: Grab, shlex: string -> Shlexed, m: Message)
    ensures Decide(setup, grab, shlex, m) == Stop <==> Route(m.text) == Ok(Some(Shutdown))
  {
  }

  /** `!SHUTDOWN` typed exactly stops the bot whoever sends it; any other text (other case,
      surrounding whitespace) does not. */
  lemma ShutdownExact(setup: Setup, grab: Grab, shlex: string -> Shlexed, m: Message)
    ensures Decide(setup, grab, shlex, m) == Stop <==> m.text == Some(ShutdownPhrase)
  {
    StopOnlyOnShutdown(setup, grab, shlex, m);
    if m.text == Some(ShutdownPhrase) {
      ShutdownPhraseRoutes();
    }
  }

  /** `start` is open to everyone and always attaches the quick-access keyboard. */
  lemma StartForEveryone(setup: Setup, tr: Transport, sys: System, grab: Grab, shlex: string -> Shlexed,
                         sentId: int, m: Message)
    requires Route(m.text) == Ok(Some(Start))
    ensures Handle(setup, tr, sys, grab, shlex, sentId, m).events
              == [Reply(m.chat, m.id, HelloText, PlainText, Keyboard(setup.quickAccess))]
  {
  }

  /** A command not expected to be quick: the notice comes before the reply and is deleted
      after it, and nothing else is sent. */
  lemma NoticeBeforeAndDeletedAfter(tr: Transport, sys: System, sentId: int, m: Message, command: Command)
    requires sys(command).Ok?
    requires (ExecutingNotice, PlainText) !in tr.refused && !tr.deleteRefused
    requires (ReplyText(sys(command).value), MarkdownV2) !in tr.refused
    ensures RunJob(tr, sys, sentId, m, Job(command, false))
              == Trace([Spawn(command), Reply(m.chat, m.id, ExecutingNotice, PlainText, NoMarkup),
                        Reply(m.chat, m.id, ReplyText(sys(command).value), MarkdownV2, NoMarkup),
                        Delete(m.chat, sentId)], Ok(()))
  {
  }

  /** A quick command sends no notice and deletes nothing: only the reply. */
  lemma QuickJobRepliesOnly(tr: Transport, sys: System, sentId: int, m: Message, command: Command)
    requires sys(command).Ok? && (ReplyText(sys(command).value), MarkdownV2) !in tr.refused
    ensures RunJob(tr, sys, sentId, m, Job(command, true))
              == Trace([Spawn(command), Reply(m.chat, m.id, ReplyText(sys(command).value), MarkdownV2, NoMarkup)], Ok(()))
  {
  }

  /** Unlike the plugin version, the notice is deleted only on success: when both the
      formatted reply and its plain fallback are refused, the apology is the last call and
      the "Executing..." notice stays. */
  lemma NoticeLeftWhenReplyFails(tr: Transport, sys: System, sentId: int, m: Message, command: Command)
    requires sys(command).Ok?
    requires (ExecutingNotice, PlainText) !in tr.refused
    requires var c := sys(command).value;
      (ReplyText(c), MarkdownV2) in tr.refused && (FallbackText(c.code, tr.errorText), PlainText) in tr.refused
    ensures var c, t := sys(command).value, RunJob(tr, sys, sentId, m, Job(command, false));
      && t.events == [Spawn(command), Reply(m.chat, m.id, ExecutingNotice, PlainText, NoMarkup),
                      Reply(m.chat, m.id, ReplyText(c), MarkdownV2, NoMarkup),
                      Reply(m.chat, m.id, FallbackText(c.code, tr.errorText), PlainText, NoMarkup),
                      Reply(m.chat, m.id, SorryPrefix + tr.errorText, PlainText, NoMarkup)]
      && forall i :: 0 <= i < |t.events| ==> !t.events[i].Delete?
  {
    var c := sys(command).value;
    var body := JobBody(tr, sys, sentId, m, Job(command, false));
    assert body.result == Fail(ApiError(tr.errorText));
    assert body.events == [Spawn(command), Reply(m.chat, m.id, ExecutingNotice, PlainText, NoMarkup),
                           Reply(m.chat, m.id, ReplyText(c), MarkdownV2, NoMarkup),
                           Reply(m.chat, m.id, FallbackText(c.code, tr.errorText), PlainText, NoMarkup)];
  }

  /** A process that cannot be started is reported in one apology, before any notice. */
  lemma SpawnFailureReported(tr: Transport, sys: System, sentId: int, m: Message, job: Job)
    requires sys(job.command).Fail?
    ensures RunJob(tr, sys, sentId, m, job).events
              == [Spawn(job.command), Reply(m.chat, m.id, SorryPrefix + FaultText(sys(job.command).fault), PlainText, NoMarkup)]
  {
  }
}
