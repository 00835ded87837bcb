/** Rimokon/__main__.py: which handler takes an incoming text message, the admin gate around
    the handlers, and the decision `run_command` makes. Each handler's decision is an
    `Outcome`; `Respond` turns it into the calls made to the bot. A scheduled unit runs on a
    thread of its own; the model runs it to completion right after the dispatch. */
module Dispatcher {
  import opened Core
  import opened Effects
  import opened TextNormalizer
  import opened ImportConfig

  const HelloText :=
    "Hello! I am リモコン (pronounced \"rimokon\", japanese for \"remote control\") "
    + "and I let my admins control the device I am running on. The available actions are "
    + "listed under /help"
  const NotAdminText := "You are not my admin. Ignored"
  const EmptyNameText := "Error: empty action name (space after slash?)"
  const UnknownNameText := "Error: unknown action name"
  const StoppingNote := "Stopping due to emergency shutdown command received"

  /** What the bot is started with: the admin chat ids, the emergency shutdown phrase and
      whether anyone may use it, the quick-access button rows, and the registry the
      configuration import built. */
  datatype Config = Config(admins: set<int>, shutdownCommand: string, shutdownPublic: bool,
                           quickAccess: seq<seq<string>>, registry: Registry)

  /** `help_text`, computed once from the registry when the configuration is imported. */
  function HelpText(cfg: Config): string
  {
    HelpMessage(cfg.registry).result.value
  }

  /** The four handlers in the order they are registered. */
  datatype Handler = Start | Help | Shutdown | RunCommand

  /** What a handler decides to do with a message. */
  datatype Outcome =
    | Answer(text: string, markup: Markup)      // one `reply_to`
    | Stop                                      // the emergency shutdown
    | Schedule(unit: Registered, rest: string)  // a thread running the unit on `rest`
    | Raise(fault: Fault)                       // the handler raises
    | Ignore                                    // no handler takes the message

  /** The filter of the shutdown handler: non-empty text equal, up to surrounding
      whitespace, to the configured phrase. */
  predicate ShutdownMatches(cfg: Config, text: Option<string>)
  {
    text.Some? && text.value != [] && Strip(text.value) == Strip(cfg.shutdownCommand)
  }

  /** The handler chosen for a message: the filters are tried in registration order and the
      first that accepts wins. Handlers take text messages only. The filters of `start` and
      `help` both compute the action name, so text made only of whitespace raises in the
      first of them. */
  function Route(cfg: Config, text: Option<string>): (r: Try<Option<Handler>>)
    ensures r.Fail? <==> text.Some? && text.value != [] && !HasToken(text.value)
    ensures r.Fail? ==> r.fault == IndexError
    ensures r.Ok? ==> (r.value.None? <==> text.None?)
  {
    if text.None? then Ok(None)
    else
      match TryActionName(text)
      case Fail(e) => Fail(e)
      case Ok(name) =>
        if name == Some("start") then Ok(Some(Start))
        else if name == Some("help") then Ok(Some(Help))
        else if ShutdownMatches(cfg, text) then Ok(Some(Shutdown))
        else Ok(Some(RunCommand))
  }

  /** `admins_only_handler`: the wrapped handler's decision for an admin, the refusal for
      anyone else. */
  function AdminsOnly(cfg: Config, m: Message, o: Outcome): (r: Outcome)
    ensures m.chat in cfg.admins ==> r == o
    ensures m.chat !in cfg.admins ==> r == Answer(NotAdminText, NoMarkup)
  {
    if m.chat in cfg.admins then o else Answer(NotAdminText, NoMarkup)
  }

  /** The keyboard `start` attaches: the quick-access rows for an admin, none otherwise. */
  function StartMarkup(cfg: Config, m: Message): Markup
  {
    if m.chat in cfg.admins then Keyboard(cfg.quickAccess) else NoMarkup
  }

  /** The body of `run_command`: the action name, then the rest, then the lookup. */
  function RunCommandBody(cfg: Config, m: Message): (o: Outcome)
    ensures o.Schedule? ==> m.text.Some? && HasToken(m.text.value) && o.rest == Rest(m.text.value, true)
  {
    match TryActionName(m.text)
    case Fail(e) => Raise(e)
    case Ok(name) =>
      if name == Some("") then Answer(EmptyNameText, NoMarkup)
      else
        match TryRest(m.text, true)
        case Fail(e) => Raise(e)
        case Ok(rest) =>
          if name.None? || name.value !in Names(cfg.registry) then Answer(UnknownNameText, NoMarkup)
          else Schedule(Lookup(cfg.registry, name.value), rest)
  }

  /** What the chosen handler decides. */
  function Decide(cfg: Config, m: Message): Outcome
  {
    match Route(cfg, m.text)
    case Fail(e) => Raise(e)
    case Ok(None) => Ignore
    case Ok(Some(h)) =>
      match h
      case Start => Answer(HelloText, StartMarkup(cfg, m))
      case Help => AdminsOnly(cfg, m, Answer(HelpText(cfg), NoMarkup))
      case Shutdown => if cfg.shutdownPublic then Stop else AdminsOnly(cfg, m, Stop)
      case RunCommand => AdminsOnly(cfg, m, RunCommandBody(cfg, m))
  }

  /** The calls the handler makes to carry out its decision. A scheduled unit is started
      and the handler returns at once. */
  function Respond(tr: Transport, m: Message, o: Outcome): (t: Trace<()>)
    ensures o.Answer? ==> t.events == [Reply(m.chat, m.id, o.text, PlainText, o.markup)]
    ensures o.Stop? ==> t == Trace([Log(Info, StoppingNote), StopPolling], Ok(()))
    ensures o.Schedule? || o.Ignore? ==> t == Trace([], Ok(()))
    ensures o.Raise? ==> t == Trace([], Fail(o.fault))
  {
    match o
    case Answer(text, markup) => ReplyTo(tr, m, text, PlainText, markup)
    case Stop => Trace([Log(Info, StoppingNote), StopPolling], Ok(()))
    case Schedule(_, _) => Trace([], Ok(()))
    case Raise(e) => Trace([], Fail(e))
    case Ignore => Trace([], Ok(()))
  }

  /** Handling one message: the handler's calls, followed by those of the unit it started. */
  function Handle(cfg: Config, tr: Transport, run: Behaviour, m: Message): (t: Trace<()>)
  {
    var o := Decide(cfg, m);
    var here := Respond(tr, m, o);
    if o.Schedule? then Trace(here.events + Invoke(run, tr, o.unit, m, o.rest).events, here.result)
    else here
  }

  // ---------------------------------------------------------------------------------
  // Properties

  /** Text made of a word that is no handler's command cannot be taken by `start` or `help`;
      it reaches `run_command` unless it is the shutdown phrase. */
  lemma RouteIff(cfg: Config, t: string)
    requires HasToken(t)
    ensures Route(cfg, Some(t)) == Ok(Some(Start)) <==> ActionName(Some(t)) == Some("start")
    ensures Route(cfg, Some(t)) == Ok(Some(Help)) <==> ActionName(Some(t)) == Some("help")
    ensures Route(cfg, Some(t)) == Ok(Some(Shutdown)) <==>
              ActionName(Some(t)) !in {Some("start"), Some("help")} && ShutdownMatches(cfg, Some(t))
    ensures Route(cfg, Some(t)) == Ok(Some(RunCommand)) <==>
              ActionName(Some(t)) !in {Some("start"), Some("help")} && !ShutdownMatches(cfg, Some(t))
  {
  }

  /** A non-admin sender of anything the gated handlers take gets exactly one reply, the
      refusal, and nothing else happens: no unit is started and polling goes on. */
  lemma NonAdminOnlyRefused(cfg: Config, tr: Transport, run: Behaviour, m: Message)
    requires m.chat !in cfg.admins
    requires Route(cfg, m.text) in {Ok(Some(Help)), Ok(Some(RunCommand))}
             || (Route(cfg, m.text) == Ok(Some(Shutdown)) && !cfg.shutdownPublic)
    ensures Handle(cfg, tr, run, m).events == [Reply(m.chat, m.id, NotAdminText, PlainText, NoMarkup)]
  {
  }

  /** The catch-all dispatcher is gated: it starts a unit only for an admin, and for anyone
      else its decision does not depend on the text. */
  lemma RunCommandGated(cfg: Config, m: Message)
    requires Route(cfg, m.text) == Ok(Some(RunCommand))
    ensures Decide(cfg, m).Schedule? ==> m.chat in cfg.admins
    ensures m.chat !in cfg.admins ==> Decide(cfg, m) == Answer(NotAdminText, NoMarkup)
  {
  }

  /** A first word made only of slashes ("/ x") is an empty action name: the sender is told,
      and no lookup or scheduling happens. */
  lemma EmptyNameAnswered(cfg: Config, m: Message)
    requires m.chat in cfg.admins && Route(cfg, m.text) == Ok(Some(RunCommand))
    requires ActionName(m.text) == Some("")
    ensures Decide(cfg, m) == Answer(EmptyNameText, NoMarkup)
  {
  }

  /** A name that is not registered is answered with the error and nothing is started. */
  lemma UnknownNameAnswered(cfg: Config, m: Message)
    requires m.chat in cfg.admins && Route(cfg, m.text) == Ok(Some(RunCommand))
    requires ActionName(m.text).Some? && ActionName(m.text).value != []
    requires ActionName(m.text).value !in Names(cfg.registry)
    ensures Decide(cfg, m) == Answer(UnknownNameText, NoMarkup)
  {
  }

  /** The import registers no empty name. */
  lemma RegisteredNameNonEmpty(reg: Registry, k: string)
    requires WellFormed(reg) && k in Names(reg)
    ensures k != []
  {
    var i :| 0 <= i < |reg| && Names(reg)[i] == k;
    assert Canonical(reg[i].name);
  }

  /** A registered name starts exactly the unit registered under it, on the rest of the
      text; the dispatcher sends no reply of its own, so every call made is the unit's. */
  lemma KnownNameScheduled(cfg: Config, tr: Transport, run: Behaviour, m: Message)
    requires WellFormed(cfg.registry)
    requires m.chat in cfg.admins && Route(cfg, m.text) == Ok(Some(RunCommand))
    requires ActionName(m.text).Some? && ActionName(m.text).value in Names(cfg.registry)
    ensures m.text.Some? && HasToken(m.text.value)
    ensures var u, rest := Lookup(cfg.registry, ActionName(m.text).value), Rest(m.text.value, true);
      Decide(cfg, m) == Schedule(u, rest) && Handle(cfg, tr, run, m).events == Invoke(run, tr, u, m, rest).events
  {
    var n := ActionName(m.text).value;
    RegisteredNameNonEmpty(cfg.registry, n);
    var u, rest := Lookup(cfg.registry, n), Rest(m.text.value, true);
    assert RunCommandBody(cfg, m) == Schedule(u, rest);
    assert Decide(cfg, m) == Schedule(u, rest);
    ScheduledEvents(cfg, tr, run, m);
  }

  /** When the decision is to start a unit, the calls made are exactly the unit's. */
  lemma ScheduledEvents(cfg: Config, tr: Transport, run: Behaviour, m: Message)
    requires Decide(cfg, m).Schedule?
    ensures Handle(cfg, tr, run, m).events == Invoke(run, tr, Decide(cfg, m).unit, m, Decide(cfg, m).rest).events
  {
    var o := Decide(cfg, m);
    assert [] + Invoke(run, tr, o.unit, m, o.rest).events == Invoke(run, tr, o.unit, m, o.rest).events;
  }

  /** Whatever the sender, the dispatcher starts a unit only when it is registered under
      the message's action name, on the text after the name and one separator. */
  lemma ScheduleOnlyRegistered(cfg: Config, m: Message)
    requires Decide(cfg, m).Schedule?
    ensures m.chat in cfg.admins && m.text.Some? && HasToken(m.text.value)
    ensures ActionName(m.text).Some? && ActionName(m.text).value in Names(cfg.registry)
    ensures Decide(cfg, m) == Schedule(Lookup(cfg.registry, ActionName(m.text).value), Rest(m.text.value, true))
  {
  }

  /** The emergency shutdown is refused to a non-admin exactly when it is not public, and
      otherwise stops polling. */
  lemma ShutdownGatedIff(cfg: Config, m: Message)
    requires Route(cfg, m.text) == Ok(Some(Shutdown))
    ensures Decide(cfg, m) == Stop <==> cfg.shutdownPublic || m.chat in cfg.admins
    ensures Decide(cfg, m) != Stop ==> Decide(cfg, m) == Answer(NotAdminText, NoMarkup)
  {
  }

  predicate AllSpace(p: string) { forall i :: 0 <= i < |p| ==> IsSpace(p[i]) }

  lemma {:induction false} SkipSpacePrepend(p: string, s: string)
    requires AllSpace(p)
    ensures SkipSpace(p + s) == SkipSpace(s)
    decreases |p|
  {
    if p != [] {
      assert (p + s)[0] == p[0];
      assert (p + s)[1..] == p[1..] + s;
      SkipSpacePrepend(p[1..], s);
    } else {
      assert p + s == s;
    }
  }

  lemma {:induction false} SkipSpaceAppend(s: string, t: string)
    requires HasToken(s)
    ensures SkipSpace(s + t) == SkipSpace(s) + t
    decreases |s|
  {
    assert (s + t)[0] == s[0];
    if IsSpace(s[0]) {
      assert (s + t)[1..] == s[1..] + t;
      SkipSpaceAppend(s[1..], t);
    }
  }

  lemma {:induction false} RStripAppend(s: string, p: string)
    requires AllSpace(p)
    ensures RStrip(s + p) == RStrip(s)
    decreases |p|
  {
    if p != [] {
      var q := p[..|p| - 1];
      assert (s + p)[|s + p| - 1] == p[|p| - 1];
      assert (s + p)[..|s + p| - 1] == s + q;
      RStripAppend(s, q);
    } else {
      assert s + p == s;
    }
  }

  /** The shutdown phrase matches the same texts whatever whitespace surrounds them. */
  lemma ShutdownPadding(cfg: Config, pre: string, t: string, post: string)
    requires AllSpace(pre) && AllSpace(post) && HasToken(t)
    ensures ShutdownMatches(cfg, Some(pre + t + post)) <==> ShutdownMatches(cfg, Some(t))
  {
    assert pre + t + post == pre + (t + post);
    SkipSpacePrepend(pre, t + post);
    SkipSpaceAppend(t, post);
    RStripAppend(SkipSpace(t), post);
    assert |pre + t + post| >= |t| > 0;
  }

  /** `/start` is never gated: everyone gets the greeting, with the quick-access keyboard
      exactly when the sender is an admin. */
  lemma StartForEveryone(cfg: Config, tr: Transport, run: Behaviour, m: Message)
    requires Route(cfg, m.text) == Ok(Some(Start))
    ensures Handle(cfg, tr, run, m).events
              == [Reply(m.chat, m.id, HelloText, PlainText, StartMarkup(cfg, m))]
    ensures StartMarkup(cfg, m).Keyboard? <==> m.chat in cfg.admins
    ensures StartMarkup(cfg, m).Keyboard? ==> StartMarkup(cfg, m).rows == cfg.quickAccess
  {
  }

  /** Messages without text are taken by no handler; text made only of whitespace raises in
      the first filter. */
  lemma NonTextIgnored(cfg: Config, tr: Transport, run: Behaviour, m: Message)
    ensures m.text.None? ==> Handle(cfg, tr, run, m) == Trace([], Ok(()))
    ensures m.text.Some? && m.text.value != [] && !HasToken(m.text.value) ==>
              Handle(cfg, tr, run, m) == Trace([], Fail(IndexError))
  {
  }
}
