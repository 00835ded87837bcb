/** The actions of Rimokon/plugins/run_rawrun_shell.py: run a command, wait for it, and reply
    with its output in MarkdownV2 code blocks and its exit status. The child process is the
    `System` oracle; `shlex.split` is a parameter. */
module RunRawrunShell {
  import opened Core
  import opened Effects
  import opened TextNormalizer
  import opened Escaping
  import opened PluginHelpers

  // ---------------------------------------------------------------------------------
  // `_escape`: the backslash is moved to the front before escaping

  /** `what[1:]`, which is empty for an empty list. */
  function Tail(what: seq<string>): seq<string>
  {
    if what == [] then [] else what[1..]
  }

  /** `[c for c in what if c != '\\']`. */
  function WithoutBackslash(what: seq<string>): (r: seq<string>)
    ensures forall x :: x in r <==> x in what && x != "\\"
    ensures "\\" !in what ==> r == what
  {
    if what == [] then []
    else (if what[0] == "\\" then [] else [what[0]]) + WithoutBackslash(what[1..])
  }

  /** The comprehension keeps order: filtering a concatenation filters each part in turn. */
  lemma {:induction false} WithoutBackslashConcat(a: seq<string>, b: seq<string>)
    ensures WithoutBackslash(a + b) == WithoutBackslash(a) + WithoutBackslash(b)
  {
    if a != [] {
      assert (a + b)[1..] == a[1..] + b;
      WithoutBackslashConcat(a[1..], b);
    } else {
      assert a + b == b;
    }
  }

  /** The list `_escape` works through: when a backslash occurs after the first entry, one
      backslash followed by the other entries in their order; otherwise the list as given. */
  function Reordered(what: seq<string>): (r: seq<string>)
    ensures "\\" in what ==> r != [] && r[0] == "\\"
    ensures forall x :: x in r <==> x in what
    ensures "\\" !in Tail(what) ==> r == what
    ensures "\\" in Tail(what) ==> r == ["\\"] + WithoutBackslash(what)
  {
    if "\\" in Tail(what) then ["\\"] + WithoutBackslash(what) else what
  }

  /** Filtering keeps the entries distinct. */
  lemma {:induction false} WithoutBackslashDistinct(what: seq<string>)
    requires DistinctEntries(what)
    ensures DistinctEntries(WithoutBackslash(what))
  {
    if what != [] {
      var rest := what[1..];
      assert DistinctEntries(rest) by {
        forall i, j | 0 <= i < j < |rest| ensures rest[i] != rest[j] {
          assert rest[i] == what[i + 1] && rest[j] == what[j + 1];
        }
      }
      WithoutBackslashDistinct(rest);
      var tail := WithoutBackslash(rest);
      if what[0] != "\\" {
        var r := [what[0]] + tail;
        assert what[0] !in rest by {
          forall j | 0 <= j < |rest| ensures rest[j] != what[0] {
            assert rest[j] == what[j + 1];
          }
        }
        forall i, j | 0 <= i < j < |r| ensures r[i] != r[j] {
          assert r[j] == tail[j - 1];
          if i > 0 { assert r[i] == tail[i - 1]; }
        }
      }
    }
  }

  /** The reordered list of distinct single characters is distinct, single characters, and
      names the same characters. */
  lemma ReorderedWellFormed(what: seq<string>)
    requires SingleChars(what) && DistinctEntries(what)
    ensures SingleChars(Reordered(what)) && DistinctEntries(Reordered(what))
    ensures CharSet(Reordered(what)) == CharSet(what)
  {
    var r := Reordered(what);
    forall i | 0 <= i < |r| ensures |r[i]| == 1 {
      assert r[i] in what;
    }
    if "\\" in Tail(what) {
      WithoutBackslashDistinct(what);
      var tail := WithoutBackslash(what);
      assert "\\" !in tail;
      forall i, j | 0 <= i < j < |r| ensures r[i] != r[j] {
        assert r[j] == tail[j - 1];
        if i > 0 { assert r[i] == tail[i - 1]; }
      }
    }
    forall x | x in CharSet(r) ensures x in CharSet(what) {
      var i :| 0 <= i < |r| && |r[i]| == 1 && r[i][0] == x;
      assert r[i] in what;
    }
    forall x | x in CharSet(what) ensures x in CharSet(r) {
      var i :| 0 <= i < |what| && |what[i]| == 1 && what[i][0] == x;
      assert what[i] in r;
    }
  }

  /** `_escape(where, what)`. */
  method EscapeListed(where: string, what: seq<string>) returns (r: Try<string>)
    ensures r == EscapeAll(where, Reordered(what))
  {
    var list := what;
    if "\\" in Tail(what) {
      list := ["\\"] + WithoutBackslash(what);
    }
    r := Escape(where, list);
  }

  /** Whatever the order of a list of distinct characters that contains the backslash,
      `_escape` escapes every listed character exactly once and the text can be read back. */
  lemma EscapeListedEscapesEach(s: string, what: seq<string>)
    requires SingleChars(what) && DistinctEntries(what) && "\\" in what
    ensures EscapeAll(s, Reordered(what)) == Ok(EscapeEach(s, CharSet(what)))
    ensures Unescape(EscapeAll(s, Reordered(what)).value) == s
  {
    ReorderedWellFormed(what);
    BackslashFirstEscapesEach(s, Reordered(what));
    assert '\\' in CharSet(what) by {
      var i :| 0 <= i < |what| && what[i] == "\\";
    }
    UnescapeEscapeEach(s, CharSet(what));
  }

  /** The order that goes wrong for `escape` in util.py is put right here. */
  lemma BacktickFirstIsFixed()
    ensures Reordered(["`", "\\"]) == ["\\", "`"]
    ensures EscapeAll("`", Reordered(["`", "\\"])) == Ok("\\`")
  {
    assert Tail(["`", "\\"]) == ["\\"];
    assert WithoutBackslash(["`", "\\"]) == ["`"] by {
      assert ["`", "\\"][1..] == ["\\"];
      assert WithoutBackslash(["\\"]) == [] by { assert ["\\"][1..] == []; }
    }
    OrderMatters();
  }

  // ---------------------------------------------------------------------------------
  // The reply text

  const DoneHeader := "Done\\. Output:\n"
  const StdoutOpen := "stdout:\n```\n"
  const StderrOpen := "stderr:\n```\n"
  const Close := "\n```\n"
  const ExitPrefix := "Exit code: "
  const SignalPrefix := "Exited due to signal "

  /** The characters MarkdownV2 requires escaped inside a code block. */
  const CodeChars: set<char> := {'\\', '`'}

  /** A fenced block for one output stream, absent when the stream is empty. */
  function Block(open: string, s: string): string
  {
    if s == [] then [] else open + EscapeEach(s, CodeChars) + Close
  }

  /** The last line: the exit code, or the signal that killed the process. */
  function Ending(code: int): string
  {
    if code >= 0 then ExitPrefix + IntText(code) else SignalPrefix + IntText(-code)
  }

  /** The reply for a finished process: the header, the stdout block, the stderr block, and
      the exit status. */
  function ReplyText(c: Completed): string
  {
    DoneHeader + Block(StdoutOpen, c.out) + Block(StderrOpen, c.err) + Ending(c.code)
  }

  /** `_escape(s, ['\\', '`'])` succeeds and is the escaping of the code characters. */
  lemma CodeEscaping(s: string)
    ensures EscapeAll(s, Reordered(["\\", "`"])) == Ok(EscapeEach(s, CodeChars))
  {
    var what := ["\\", "`"];
    assert Tail(what) == ["`"];
    assert SingleChars(what) && DistinctEntries(what);
    assert what[1..] == ["`"];
    BackslashFirstEscapesEach(s, what);
    assert CharSet(what) == CodeChars by {
      assert what[0][0] == '\\' && what[1][0] == '`';
    }
  }

  /** `reply_text` built by successive `+=` in `run_parsed_command`. */
  method BuildReply(c: Completed) returns (text: string)
    ensures text == ReplyText(c)
  {
    text := DoneHeader;
    if c.out != [] {
      var e := EscapeListed(c.out, ["\\", "`"]);
      CodeEscaping(c.out);
      text := text + (StdoutOpen + e.value + Close);
    }
    assert text == DoneHeader + Block(StdoutOpen, c.out);
    if c.err != [] {
      var e := EscapeListed(c.err, ["\\", "`"]);
      CodeEscaping(c.err);
      text := text + (StderrOpen + e.value + Close);
    }
    assert text == DoneHeader + Block(StdoutOpen, c.out) + Block(StderrOpen, c.err);
    if c.code >= 0 {
      text := text + (ExitPrefix + IntText(c.code));
    } else {
      text := text + (SignalPrefix + IntText(-c.code));
    }
  }

  /** `a + b` starts with `a` and continues with `b`. */
  lemma Split(a: string, b: string)
    ensures (a + b)[..|a|] == a && (a + b)[|a|..] == b
  {
  }

  predicate StartsWith(x: string, p: string)
  {
    |p| <= |x| && x[..|p|] == p
  }

  lemma StartsWithConcat(a: string, b: string, p: string)
    requires StartsWith(a, p)
    ensures StartsWith(a + b, p)
  {
    assert (a + b)[..|p|] == a[..|p|];
  }

  /** Text that differs from `p` at some position within both does not start with `p`. */
  lemma DiffersAt(x: string, p: string, i: nat)
    requires i < |x| && i < |p| && x[i] != p[i]
    ensures !StartsWith(x, p)
  {
    if |p| <= |x| { assert x[..|p|][i] == x[i]; }
  }

  /** What can follow the header or the stdout block: each starts differently. */
  lemma Openings(c: Completed)
    ensures |StdoutOpen| == |StderrOpen| == 12 && StdoutOpen[0] == 's' && StdoutOpen[3] == 'o'
    ensures StderrOpen[3] == 'e' && StderrOpen[0] == 's'
    ensures |Ending(c.code)| >= 12 && Ending(c.code)[0] == 'E'
    ensures c.out != [] ==> StartsWith(Block(StdoutOpen, c.out), StdoutOpen)
    ensures c.err != [] ==> StartsWith(Block(StderrOpen, c.err), StderrOpen)
  {
    Split(if c.code >= 0 then ExitPrefix else SignalPrefix, IntText(if c.code >= 0 then c.code else -c.code));
    if c.out != [] {
      StartsWithConcat(StdoutOpen, EscapeEach(c.out, CodeChars) + Close, StdoutOpen);
      assert Block(StdoutOpen, c.out) == StdoutOpen + (EscapeEach(c.out, CodeChars) + Close);
    }
    if c.err != [] {
      StartsWithConcat(StderrOpen, EscapeEach(c.err, CodeChars) + Close, StderrOpen);
      assert Block(StderrOpen, c.err) == StderrOpen + (EscapeEach(c.err, CodeChars) + Close);
    }
  }

  /** The layout of four consecutive parts, stated on plain strings so that the reply's
      literals stay out of the sequence reasoning. */
  lemma Parts(h: string, b1: string, b2: string, e: string)
    ensures StartsWith(h + b1 + b2 + e, h)
    ensures (h + b1 + b2 + e)[|h|..] == b1 + (b2 + e)
    ensures (h + b1 + b2 + e)[|h| + |b1|..] == b2 + e
  {
    assert (h + b1 + b2 + e)[..|h|] == h;
  }

  /** The reply always starts with the header. */
  lemma ReplyStartsWithHeader(c: Completed)
    ensures StartsWith(ReplyText(c), DoneHeader)
  {
    Parts(DoneHeader, Block(StdoutOpen, c.out), Block(StderrOpen, c.err), Ending(c.code));
  }

  /** Right after the header comes the stdout opening exactly when the process wrote to
      stdout. */
  lemma StdoutBlockIff(c: Completed)
    ensures |DoneHeader| <= |ReplyText(c)|
    ensures c.out != [] <==> StartsWith(ReplyText(c)[|DoneHeader|..], StdoutOpen)
  {
    var b1, b2, e := Block(StdoutOpen, c.out), Block(StderrOpen, c.err), Ending(c.code);
    Parts(DoneHeader, b1, b2, e);
    Openings(c);
    if c.out != [] {
      StartsWithConcat(b1, b2 + e, StdoutOpen);
    } else if c.err != [] {
      assert b2[..12][3] == 'e';
      assert (b2 + e)[3] == 'e';
      DiffersAt(b2 + e, StdoutOpen, 3);
    } else {
      DiffersAt(e, StdoutOpen, 0);
    }
  }

  /** After the stdout block (if any) comes the stderr opening exactly when the process
      wrote to stderr: the stderr block follows the stdout block. */
  lemma StderrBlockIff(c: Completed)
    ensures var k := |DoneHeader| + |Block(StdoutOpen, c.out)|;
      k <= |ReplyText(c)| && (c.err != [] <==> StartsWith(ReplyText(c)[k..], StderrOpen))
  {
    var b1, b2, e := Block(StdoutOpen, c.out), Block(StderrOpen, c.err), Ending(c.code);
    Parts(DoneHeader, b1, b2, e);
    Openings(c);
    if c.err != [] {
      StartsWithConcat(b2, e, StderrOpen);
    } else {
      DiffersAt(e, StderrOpen, 0);
    }
  }

  /** The reply ends with the exit code, or with the number of the killing signal; either
      way the number reads back as the code. */
  lemma ReplyEndsWithStatus(c: Completed)
    ensures var t := ReplyText(c);
      var tail := if c.code >= 0 then ExitPrefix + Decimal(c.code) else SignalPrefix + Decimal(-c.code);
      |tail| <= |t| && t[|t| - |tail|..] == tail
    ensures c.code >= 0 ==> DigitsValue(Decimal(c.code)) == c.code
    ensures c.code < 0 ==> DigitsValue(Decimal(-c.code)) == -c.code
  {
    var t := ReplyText(c);
    var pre := DoneHeader + Block(StdoutOpen, c.out) + Block(StderrOpen, c.err);
    assert t == pre + Ending(c.code);
    Split(pre, Ending(c.code));
    if c.code >= 0 { DecimalRoundTrip(c.code); } else { DecimalRoundTrip(-c.code); }
  }

  /** Inside a block, every backslash and backtick is escaped as MarkdownV2 requires (so the
      output cannot close the fence), and unescaping gives the output back. */
  lemma BlockPayloadSafe(s: string)
    ensures WellEscaped(EscapeEach(s, CodeChars), CodeChars)
    ensures Unescape(EscapeEach(s, CodeChars)) == s
  {
    EscapeEachWellEscaped(s, CodeChars);
    UnescapeEscapeEach(s, CodeChars);
  }

  // ---------------------------------------------------------------------------------
  // Running a command and replying

  /** The text sent when the formatted reply is refused. */
  function FallbackText(code: int, e: string): string
  {
    "The command has completed with code " + IntText(code) + ", but I failed to send the response:\n" + e
  }

  /** The body of `run_parsed_command`: start the process, wait for it, reply with the
      formatted text, and when the API refuses that, reply once more in plain text. */
  function ParsedCommand(tr: Transport, sys: System, command: Command): Action<()>
  {
    m =>
      match sys(command)
      case Fail(e) => Trace([Spawn(command)], Fail(e))
      case Ok(c) =>
        var reply := ReplyTo(tr, m, ReplyText(c), MarkdownV2, NoMarkup);
        if reply.result.Ok? then Trace([Spawn(command)] + reply.events, Ok(()))
        else
          var fallback := ReplyTo(tr, m, FallbackText(c.code, FaultText(reply.result.fault)), PlainText, NoMarkup);
          Trace([Spawn(command)] + reply.events + fallback.events, fallback.result)
  }

  /** `run_parsed_command` with its decorator: `notify` is true unless the caller says
      otherwise. */
  function RunParsedCommand(tr: Transport, sys: System, sentId: int, command: Command, m: Message,
                            notify: bool := true): Trace<()>
  {
    NotifyConditionally(tr, sentId, ParsedCommand(tr, sys, command))(m, notify)
  }

  /** A finished command gets the formatted reply; if the API refuses it, exactly one
      fallback reply follows, naming the exit code and the API's error. */
  lemma CommandReplies(tr: Transport, sys: System, command: Command, m: Message)
    requires sys(command).Ok?
    ensures var c, t := sys(command).value, ParsedCommand(tr, sys, command)(m);
      var formatted := Reply(m.chat, m.id, ReplyText(c), MarkdownV2, NoMarkup);
      && ((ReplyText(c), MarkdownV2) !in tr.refused ==>
            t == Trace([Spawn(command), formatted], Ok(())))
      && ((ReplyText(c), MarkdownV2) in tr.refused ==>
            t.events == [Spawn(command), formatted,
                         Reply(m.chat, m.id, FallbackText(c.code, tr.errorText), PlainText, NoMarkup)])
  {
  }

  /** A process that cannot be started raises out of the action after nothing but the
      attempt. */
  lemma SpawnFailurePropagates(tr: Transport, sys: System, command: Command, m: Message)
    requires sys(command).Fail?
    ensures ParsedCommand(tr, sys, command)(m) == Trace([Spawn(command)], Fail(sys(command).fault))
  {
  }

  /** `shell`: the rest of the message as a shell command line. */
  function Shell(tr: Transport, sys: System, sentId: int, m: Message, rest: string, notify: bool := true): Trace<()>
  {
    RunParsedCommand(tr, sys, sentId, ShellLine(rest), m, notify)
  }

  /** `rawrun`: the rest split at whitespace, no quoting. */
  function RawRun(tr: Transport, sys: System, sentId: int, m: Message, rest: string, notify: bool := true): Trace<()>
  {
    RunParsedCommand(tr, sys, sentId, Argv(Words(rest)), m, notify)
  }

  /** `run`: the rest split by `shlex.split`; a parse error is reported and nothing runs. */
  function Run(tr: Transport, sys: System, shlex: string -> Shlexed, sentId: int, m: Message, rest: string,
               notify: bool := true): Trace<()>
  {
    match shlex(rest)
    case ParseError(e) => ReplyTo(tr, m, "Failed to parse arguments:\n" + e, PlainText, NoMarkup)
    case Tokens(args) => RunParsedCommand(tr, sys, sentId, Argv(args), m, notify)
  }

  /** Whether the command ran at all: not when the "Executing..." notice was refused. */
  predicate Started(tr: Transport, notify: bool)
  {
    !notify || (ExecutingNotice, PlainText) !in tr.refused
  }

  /** The body spawns its command once, as its first call. */
  lemma BodySpawnsOnce(tr: Transport, sys: System, command: Command, m: Message)
    ensures var b := ParsedCommand(tr, sys, command)(m);
      b.events != [] && b.events[0] == Spawn(command) && Spawned(b.events) == [command]
  {
    var body := ParsedCommand(tr, sys, command)(m);
    var rest := body.events[1..];
    forall i | 0 <= i < |rest| ensures !rest[i].Spawn? { }
    NoSpawn(rest);
    assert body.events == [body.events[0]] + rest;
    SpawnedConcat([body.events[0]], rest);
  }

  /** The one process a started action spawns is its command; with `notify` the notice comes
      first and its deletion last, without it neither is sent. */
  lemma RunsCommandOnce(tr: Transport, sys: System, sentId: int, command: Command, m: Message, notify: bool)
    ensures var t := RunParsedCommand(tr, sys, sentId, command, m, notify);
      Spawned(t.events) == if Started(tr, notify) then [command] else []
    ensures !notify ==> RunParsedCommand(tr, sys, sentId, command, m, notify) == ParsedCommand(tr, sys, command)(m)
    ensures notify && Started(tr, notify) ==>
              var t := RunParsedCommand(tr, sys, sentId, command, m, notify);
              t.events == [Reply(m.chat, m.id, ExecutingNotice, PlainText, NoMarkup)]
                          + ParsedCommand(tr, sys, command)(m).events + [Delete(m.chat, sentId)]
  {
    var body := ParsedCommand(tr, sys, command)(m);
    BodySpawnsOnce(tr, sys, command, m);
    var t := RunParsedCommand(tr, sys, sentId, command, m, notify);
    if notify {
      assert t == RunNotified(tr, m, sentId, ParsedCommand(tr, sys, command));
      if Started(tr, notify) {
        NoticeAlwaysDeleted(tr, m, sentId, ParsedCommand(tr, sys, command));
        var notice := [Reply(m.chat, m.id, ExecutingNotice, PlainText, NoMarkup)];
        SpawnedConcat(notice, body.events);
        SpawnedConcat(notice + body.events, [Delete(m.chat, sentId)]);
        assert Spawned(notice) == [] && Spawned([Delete(m.chat, sentId)]) == [];
      } else {
        assert t.events == [t.events[0]] && !t.events[0].Spawn?;
        NoSpawn(t.events);
      }
    }
  }

  lemma {:induction false} NoSpawn(events: seq<Event>)
    requires forall i :: 0 <= i < |events| ==> !events[i].Spawn?
    ensures Spawned(events) == []
  {
    if events != [] {
      NoSpawn(events[1..]);
    }
  }

  /** `shell` runs the rest unchanged through the shell. */
  lemma ShellRunsRest(tr: Transport, sys: System, sentId: int, m: Message, rest: string, notify: bool)
    requires Started(tr, notify)
    ensures Spawned(Shell(tr, sys, sentId, m, rest, notify).events) == [ShellLine(rest)]
  {
    RunsCommandOnce(tr, sys, sentId, ShellLine(rest), m, notify);
  }

  /** `rawrun` runs the words of the rest: non-empty, without whitespace, in order. */
  lemma RawRunRunsWords(tr: Transport, sys: System, sentId: int, m: Message, rest: string, notify: bool)
    requires Started(tr, notify)
    ensures Spawned(RawRun(tr, sys, sentId, m, rest, notify).events) == [Argv(Words(rest))]
    ensures forall i :: 0 <= i < |Words(rest)| ==> Words(rest)[i] != [] && NoSpace(Words(rest)[i])
  {
    RunsCommandOnce(tr, sys, sentId, Argv(Words(rest)), m, notify);
    WordsAreWords(rest);
  }

  /** `run` reports a parse error in one reply and runs nothing; otherwise it runs the
      tokens. */
  lemma RunParses(tr: Transport, sys: System, shlex: string -> Shlexed, sentId: int, m: Message, rest: string,
                  notify: bool)
    ensures shlex(rest).ParseError? ==>
              var t := Run(tr, sys, shlex, sentId, m, rest, notify);
              t.events == [Reply(m.chat, m.id, "Failed to parse arguments:\n" + shlex(rest).desc, PlainText, NoMarkup)]
              && Spawned(t.events) == []
    ensures shlex(rest).Tokens? && Started(tr, notify) ==>
              Spawned(Run(tr, sys, shlex, sentId, m, rest, notify).events) == [Argv(shlex(rest).args)]
  {
    if shlex(rest).ParseError? {
      var t := Run(tr, sys, shlex, sentId, m, rest, notify);
      NoSpawn(t.events);
    } else {
      RunsCommandOnce(tr, sys, sentId, Argv(shlex(rest).args), m, notify);
    }
  }
}
