/** Values every part of the model shares: optional values, the Python exceptions the
    core can raise, and Python's decimal rendering of integers. */
module Core {

  datatype Option<T> = None | Some(value: T)

  /** A Python exception, kept as its class and the text `str(e)` gives for it. */
  datatype Fault =
    | IndexError                 // `split()[0]` on text that has no word
    | AttributeError             // `None.split()`
    | TypeError(desc: string)    // a call with the wrong number of arguments
    | AssertionError             // a bare `assert` that failed
    | ApiError(desc: string)     // the messaging API refused a call
    | Raised(desc: string)       // anything raised by code outside the model

  /** `str(e)` for each fault. */
  function FaultText(f: Fault): string
  {
    match f
    case IndexError => "list index out of range"
    case AttributeError => "'NoneType' object has no attribute 'split'"
    case TypeError(d) => d
    case AssertionError => ""
    case ApiError(d) => d
    case Raised(d) => d
  }

  /** A Python call either returns a value or raises. */
  datatype Try<T> = Ok(value: T) | Fail(fault: Fault)

  predicate IsDigit(c: char) { '0' <= c <= '9' }

  function DigitChar(d: nat): (c: char)
    requires d < 10
    ensures IsDigit(c) && c as int - '0' as int == d
  {
    ('0' as int + d) as char
  }

  /** `str(n)` for a natural number: its decimal digits, without leading zeros. */
  function Decimal(n: nat): (s: string)
    ensures s != [] && forall i :: 0 <= i < |s| ==> IsDigit(s[i])
    ensures s[0] == '0' ==> n == 0
    decreases n
  {
    if n < 10 then [DigitChar(n)] else Decimal(n / 10) + [DigitChar(n % 10)]
  }

  /** The value of a string of decimal digits. */
  function DigitsValue(s: string): nat
    requires forall i :: 0 <= i < |s| ==> IsDigit(s[i])
  {
    if s == [] then 0
    else
      assert IsDigit(s[|s| - 1]);
      10 * DigitsValue(s[..|s| - 1]) + (s[|s| - 1] as int - '0' as int)
  }

  /** Reading the digits back gives the number: `Decimal` loses nothing. */
  lemma {:induction false} DecimalRoundTrip(n: nat)
    ensures DigitsValue(Decimal(n)) == n
    decreases n
  {
    if n >= 10 {
      DecimalRoundTrip(n / 10);
      var s := Decimal(n);
      assert s[..|s| - 1] == Decimal(n / 10);
    }
  }

  /** `str(n)` / `f"{n}"` for any integer. */
  function IntText(n: int): (s: string)
    ensures s != [] && (n < 0 <==> s[0] == '-')
    ensures n >= 0 ==> s == Decimal(n)
  {
    if n < 0 then "-" + Decimal(-n) else Decimal(n)
  }
}

/** The world outside the core, seen from the bot: messages, the calls made to the
    messaging API (an append-only event log), what the API does with them, and the
    boundary to the operating system's processes. */
module Effects {
  import opened Core

  /** An incoming message: chat, message id, and its text (`None` for non-text messages). */
  datatype Message = Message(chat: int, id: int, text: Option<string>)

  datatype ParseMode = PlainText | MarkdownV2
  datatype Markup = NoMarkup | Keyboard(rows: seq<seq<string>>)
  datatype Level = Debug | Info | Warning | Error | Critical

  /** One call made to the bot or to the logger, in the order it was made. */
  datatype Event =
    | Reply(chat: int, replyTo: int, text: string, mode: ParseMode, markup: Markup)
    | Delete(chat: int, msgId: int)
    | Photo(chat: int, replyTo: int)
    | Document(chat: int, replyTo: int)
    | Log(level: Level, note: string)
    | Spawn(command: Command)            // `subprocess.Popen(command, ...)`
    | StopPolling                        // `bot.stop_polling()`

  /** What the messaging API does with calls: which replies it refuses (too long, bad
      markup), whether deleting fails, and the text of the error it raises. */
  datatype Transport = Transport(refused: set<(string, ParseMode)>, deleteRefused: bool, errorText: string)

  /** The calls a piece of code made and how it ended. */
  datatype Trace<T> = Trace(events: seq<Event>, result: Try<T>)

  /** `bot.reply_to(message, text, ...)`: one call, which raises if the API refuses it. */
  function ReplyTo(tr: Transport, m: Message, text: string, mode: ParseMode, markup: Markup): (t: Trace<()>)
    ensures t.events == [Reply(m.chat, m.id, text, mode, markup)]
    ensures t.result.Ok? <==> (text, mode) !in tr.refused
    ensures t.result.Fail? ==> t.result.fault == ApiError(tr.errorText)
  {
    Trace([Reply(m.chat, m.id, text, mode, markup)],
          if (text, mode) in tr.refused then Fail(ApiError(tr.errorText)) else Ok(()))
  }

  /** `bot.delete_message(chat, id)`. */
  function DeleteMessage(tr: Transport, chat: int, id: int): (t: Trace<()>)
    ensures t.events == [Delete(chat, id)]
    ensures t.result.Ok? <==> !tr.deleteRefused
  {
    Trace([Delete(chat, id)], if tr.deleteRefused then Fail(ApiError(tr.errorText)) else Ok(()))
  }

  /** The commands handed to `Popen` in a list of calls, in order. */
  function Spawned(events: seq<Event>): (cs: seq<Command>)
    ensures |cs| <= |events|
  {
    if events == [] then []
    else (if events[0].Spawn? then [events[0].command] else []) + Spawned(events[1..])
  }

  lemma {:induction false} SpawnedConcat(a: seq<Event>, b: seq<Event>)
    ensures Spawned(a + b) == Spawned(a) + Spawned(b)
  {
    if a == [] {
      assert a + b == b;
    } else {
      var head := if a[0].Spawn? then [a[0].command] else [];
      assert (a + b)[0] == a[0] && (a + b)[1..] == a[1..] + b;
      assert Spawned(a + b) == head + Spawned(a[1..] + b);
      SpawnedConcat(a[1..], b);
      assert Spawned(a) == head + Spawned(a[1..]);
      assert head + (Spawned(a[1..]) + Spawned(b)) == (head + Spawned(a[1..])) + Spawned(b);
    }
  }

  /** Run `first`, then `next` unless `first` raised. */
  function Then<T>(first: Trace<()>, next: Trace<T>): (t: Trace<T>)
    ensures first.result.Fail? ==> t == Trace(first.events, Fail(first.result.fault))
    ensures first.result.Ok? ==> t == Trace(first.events + next.events, next.result)
  {
    if first.result.Fail? then Trace(first.events, Fail(first.result.fault))
    else Trace(first.events + next.events, next.result)
  }

  /** A command handed to `subprocess.Popen`: a line for the shell, or an argument vector. */
  datatype Command = ShellLine(line: string) | Argv(args: seq<string>)

  /** A finished child process: decoded stdout and stderr, and its return code
      (negative: killed by that signal). */
  datatype Completed = Completed(out: string, err: string, code: int)

  /** What the operating system does with a command: the finished process, or the exception
      `Popen` raised (a missing program, say). */
  type System = Command -> Try<Completed>

  /** What `shlex.split` gives: tokens, or the text of the `ValueError` it raised. */
  datatype Shlexed = Tokens(args: seq<string>) | ParseError(desc: string)
}
