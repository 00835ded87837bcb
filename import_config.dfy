/** Rimokon/import_config.py: turning the configured actions and aliases into the registry of
    runnable units. Keys are canonicalised, actions and then aliases are checked and inserted
    one by one, every unit is wrapped so that it never raises, and the /help text is built
    from the result. A `die` of the source is a `Died` result carrying the reason. */
module ImportConfig {
  import opened Core
  import opened Effects
  import opened TextNormalizer

  /** A Python callable from the configuration, seen from outside: an identity, the
      `RimokonHelp` attribute `help_description` attaches, and its docstring. */
  datatype Func = Func(id: nat, helpAttr: Option<string>, doc: Option<string>)

  /** A value of `config.actions`. */
  datatype ActionValue = CallableAction(f: Func) | NotCallableAction

  /** A value of `config.aliases`: a command string, a callable, or anything else. */
  datatype AliasValue = StringAlias(command: string) | CallableAlias(f: Func) | OtherAlias

  /** What a registered name runs: a configured callable, or the closure built by
      `complex_alias_from_string` over its (already wrapped) base unit, its command and the
      prefix computed from the command when the alias was defined. */
  datatype Unit = Plain(f: Func) | AliasOf(base: Registered, command: string, prefix: string)

  /** Every registry value is a unit wrapped by `make_action_noexcept`. */
  datatype Registered = NoExcept(unit: Unit)

  datatype Entry = Entry(name: string, value: Registered)

  /** An insertion-ordered dictionary from canonical names to units. */
  type Registry = seq<Entry>

  /** Why importing the configuration stopped: the reason given to `die`, or an exception
      nothing catches. */
  datatype Fatal =
    | WhitespaceInName(key: string)
    | EmptyActionName(key: string)
    | ActionRedefined(name: string)
    | NotCallable(key: string)
    | EmptyAliasName(key: string)
    | AliasRedefined(key: string)
    | AliasShadowsAction(key: string)
    | MissingBase(key: string, base: Option<string>)
    | BadAliasValue(key: string)
    | Uncaught(fault: Fault)

  datatype Built<T> = Built(value: T) | Died(reason: Fatal)

  function Quoted(s: string): string { "'" + s + "'" }

  /** The message `die` logs at critical level for each reason. */
  function FatalText(f: Fatal): string
  {
    match f
    case WhitespaceInName(k) => "Action name must not contain whitespaces (violated by " + Quoted(k) + ")"
    case EmptyActionName(k) => "Empty action name is not allowed: " + Quoted(k)
    case ActionRedefined(k) => "Attempt to redefine action " + Quoted(k) + " (in `config.actions`)"
    case NotCallable(k) => "The action function specified by key " + Quoted(k) + " is not callable"
    case EmptyAliasName(k) => "Empty alias name is not allowed: " + Quoted(k)
    case AliasRedefined(k) => "Attempt to redefine an alias " + Quoted(k) + " (in `config.aliases`)"
    case AliasShadowsAction(k) => "Attempt to overwrite an existing action by alias " + Quoted(k) + " (in `config.aliases`)"
    case MissingBase(k, b) =>
      "Alias " + Quoted(k) + " relies on the action " + (if b.None? then "None" else Quoted(b.value))
      + " which does not exist. Note that aliases for aliases are not supported"
    case BadAliasValue(k) => "The alias " + Quoted(k) + " specifies neither a string nor a callable object"
    case Uncaught(e) => FaultText(e)
  }

  // ---------------------------------------------------------------------------------
  // Canonical names

  /** `k_.strip().lstrip('/').lower()`: lower case and without a leading slash. */
  function CanonName(raw: string): (k: string)
    ensures IsLower(k) && (k == [] || k[0] != '/')
  {
    var s := LStripSlash(Strip(raw));
    assert s != [] ==> s[0] != '/';
    Lower(s)
  }

  /** A name a key can be registered under. */
  predicate Canonical(k: string)
  {
    k != [] && NoSpace(k) && IsLower(k) && k[0] != '/'
  }

  function Names(reg: Registry): (ns: seq<string>)
    ensures |ns| == |reg| && forall i :: 0 <= i < |reg| ==> ns[i] == reg[i].name
  {
    seq(|reg|, i requires 0 <= i < |reg| => reg[i].name)
  }

  /** `reg[k]`: the unit registered under `k`. */
  function Lookup(reg: Registry, k: string): (r: Registered)
    requires k in Names(reg)
    ensures exists i :: 0 <= i < |reg| && reg[i] == Entry(k, r)
  {
    if reg[0].name == k then reg[0].value
    else
      assert k in Names(reg[1..]) by {
        var i :| 0 <= i < |reg| && Names(reg)[i] == k;
        assert Names(reg[1..])[i - 1] == k;
      }
      var r := Lookup(reg[1..], k);
      ghost var i :| 0 <= i < |reg[1..]| && reg[1..][i] == Entry(k, r);
      assert reg[i + 1] == Entry(k, r);
      r
  }

  /** No name occurs twice. */
  predicate Distinct(ks: seq<string>)
  {
    forall i, j :: 0 <= i < j < |ks| ==> ks[i] != ks[j]
  }

  /** No name of `ks` occurs in `ns`. */
  predicate Disjoint(ks: seq<string>, ns: seq<string>)
  {
    forall i :: 0 <= i < |ks| ==> ks[i] !in ns
  }

  lemma DistinctCons(k: string, ks: seq<string>)
    ensures Distinct([k] + ks) <==> k !in ks && Distinct(ks)
  {
    var s := [k] + ks;
    if k !in ks && Distinct(ks) {
      forall i, j | 0 <= i < j < |s| ensures s[i] != s[j] {
        assert s[j] == ks[j - 1];
        if i > 0 { assert s[i] == ks[i - 1]; }
      }
    }
    if Distinct(s) {
      forall i, j | 0 <= i < j < |ks| ensures ks[i] != ks[j] {
        assert ks[i] == s[i + 1] && ks[j] == s[j + 1];
      }
      forall j | 0 <= j < |ks| ensures ks[j] != k {
        assert s[0] == k && ks[j] == s[j + 1];
      }
    }
  }

  lemma DistinctSnoc(ks: seq<string>, k: string)
    ensures Distinct(ks + [k]) <==> k !in ks && Distinct(ks)
  {
    var s := ks + [k];
    if k !in ks && Distinct(ks) {
      forall i, j | 0 <= i < j < |s| ensures s[i] != s[j] {
        assert s[i] == ks[i];
        if j < |ks| { assert s[j] == ks[j]; }
      }
    }
    if Distinct(s) {
      forall i, j | 0 <= i < j < |ks| ensures ks[i] != ks[j] {
        assert ks[i] == s[i] && ks[j] == s[j];
      }
      forall j | 0 <= j < |ks| ensures ks[j] != k {
        assert ks[j] == s[j] && s[|ks|] == k;
      }
    }
  }

  lemma DisjointCons(k: string, ks: seq<string>, ns: seq<string>)
    ensures Disjoint([k] + ks, ns) <==> k !in ns && Disjoint(ks, ns)
  {
    var s := [k] + ks;
    if Disjoint(s, ns) {
      assert s[0] == k;
      forall i | 0 <= i < |ks| ensures ks[i] !in ns { assert ks[i] == s[i + 1]; }
    }
    if k !in ns && Disjoint(ks, ns) {
      forall i | 0 <= i < |s| ensures s[i] !in ns { if i > 0 { assert s[i] == ks[i - 1]; } }
    }
  }

  lemma DisjointSnoc(ks: seq<string>, ns: seq<string>, k: string)
    ensures Disjoint(ks + [k], ns) <==> Disjoint(ks, ns) && k !in ns
    ensures Disjoint(ks, ns + [k]) <==> Disjoint(ks, ns) && k !in ks
  {
    var s := ks + [k];
    if Disjoint(s, ns) {
      assert s[|ks|] == k;
      forall i | 0 <= i < |ks| ensures ks[i] !in ns { assert ks[i] == s[i]; }
    }
    if Disjoint(ks, ns) && k !in ns {
      forall i | 0 <= i < |s| ensures s[i] !in ns { if i < |ks| { assert s[i] == ks[i]; } }
    }
    if Disjoint(ks, ns + [k]) {
      forall i | 0 <= i < |ks| ensures ks[i] != k && ks[i] !in ns { assert ks[i] !in ns + [k]; }
    }
  }

  lemma DistinctConcat(a: seq<string>, b: seq<string>)
    requires Distinct(a) && Distinct(b) && Disjoint(b, a)
    ensures Distinct(a + b)
  {
    var s := a + b;
    forall i, j | 0 <= i < j < |s| ensures s[i] != s[j] {
      if j < |a| {
        assert s[i] == a[i] && s[j] == a[j];
      } else if i < |a| {
        assert s[i] == a[i] && s[j] == b[j - |a|];
      } else {
        assert s[i] == b[i - |a|] && s[j] == b[j - |a|];
      }
    }
  }

  /** An alias unit's base is a plain action: aliases of aliases do not exist. */
  predicate BaseIsAction(r: Registered)
  {
    r.unit.AliasOf? ==> r.unit.base.unit.Plain?
  }

  /** What every registry the import builds satisfies. */
  predicate WellFormed(reg: Registry)
  {
    && (forall i :: 0 <= i < |reg| ==> Canonical(reg[i].name) && BaseIsAction(reg[i].value))
    && Distinct(Names(reg))
  }

  /** A key that is already a single word reaches its unit when typed as the first word of a
      message, with or without slashes and in any letter case. */
  lemma KeyReachable(raw: string, sep: char, t: string)
    requires raw != [] && NoSpace(raw) && IsSpace(sep)
    ensures ActionName(Some(raw)) == Some(CanonName(raw))
    ensures HasToken(raw + [sep] + t) && ActionName(Some(raw + [sep] + t)) == Some(CanonName(raw))
  {
    FirstWordOfWord(raw);
    FirstWordOf(raw, sep, t);
    assert SkipSpace(raw) == raw;
    assert RStrip(raw) == raw;
  }

  /** A registered name, typed after a slash, is found again by `cmd_get_action_name`. */
  lemma CanonicalNameReachable(k: string, sep: char, t: string)
    requires Canonical(k) && IsSpace(sep)
    ensures ActionName(Some(['/'] + k)) == Some(k)
    ensures HasToken(['/'] + k + [sep] + t) && ActionName(Some(['/'] + k + [sep] + t)) == Some(k)
  {
    SlashThenName(k);
    FirstWordOfWord(['/'] + k);
    FirstWordOf(['/'] + k, sep, t);
    LowerIdempotent(k);
  }

  // ---------------------------------------------------------------------------------
  // The action loop

  /** One iteration of the action loop, given the actions registered so far. */
  function CheckAction(done: Registry, raw: string, v: ActionValue): (r: Built<Entry>)
  {
    var k := CanonName(raw);
    if !NoSpace(k) then Died(WhitespaceInName(raw))
    else if k == [] then Died(EmptyActionName(raw))
    else if k in Names(done) then Died(ActionRedefined(k))
    else if v.NotCallableAction? then Died(NotCallable(raw))
    else Built(Entry(k, NoExcept(Plain(v.f))))
  }

  /** One action is accepted exactly when its canonical name is usable and new and its
      value is callable; it then becomes a plain unit under that name. */
  lemma CheckActionIff(done: Registry, raw: string, v: ActionValue)
    ensures var k := CanonName(raw);
      CheckAction(done, raw, v).Built? <==> k != [] && NoSpace(k) && k !in Names(done) && v.CallableAction?
    ensures CheckAction(done, raw, v).Built? ==>
      CheckAction(done, raw, v).value == Entry(CanonName(raw), NoExcept(Plain(v.f)))
  {
  }

  /** The action loop from `done` on: the first failing key stops it. */
  function AddActions(done: Registry, actions: seq<(string, ActionValue)>): Built<Registry>
    decreases |actions|
  {
    if actions == [] then Built(done)
    else
      match CheckAction(done, actions[0].0, actions[0].1)
      case Died(f) => Died(f)
      case Built(e) => AddActions(done + [e], actions[1..])
  }

  /** A single action the loop accepts becomes the whole registry. */
  lemma OneAction(raw: string, v: ActionValue)
    requires CheckAction([], raw, v).Built?
    ensures AddActions([], [(raw, v)]) == Built([CheckAction([], raw, v).value])
  {
    var e := CheckAction([], raw, v).value;
    assert AddActions([], [(raw, v)]) == AddActions([] + [e], []);
    assert [] + [e] == [e];
  }

  /** The loop over `config.actions` filling `updated_actions`. */
  method RegisterActions(actions: seq<(string, ActionValue)>) returns (r: Built<Registry>)
    ensures r == AddActions([], actions)
  {
    var updated: Registry := [];
    var i := 0;
    while i < |actions|
      invariant 0 <= i <= |actions|
      invariant AddActions(updated, actions[i..]) == AddActions([], actions)
    {
      var (raw, v) := actions[i];
      assert actions[i..][1..] == actions[i + 1..];
      var k := CanonName(raw);
      if !NoSpace(k) {
        return Died(WhitespaceInName(raw));
      }
      if k == [] {
        return Died(EmptyActionName(raw));
      }
      if k in Names(updated) {
        return Died(ActionRedefined(k));
      }
      if v.NotCallableAction? {
        return Died(NotCallable(raw));
      }
      updated := updated + [Entry(k, NoExcept(Plain(v.f)))];
      i := i + 1;
    }
    assert actions[i..] == [];
    return Built(updated);
  }

  /** The canonical names of the configured keys, in order. */
  function Keys<T>(pairs: seq<(string, T)>): (ks: seq<string>)
    ensures |ks| == |pairs|
  {
    if pairs == [] then [] else [CanonName(pairs[0].0)] + Keys(pairs[1..])
  }

  /** Every key is a non-empty name without whitespace. */
  predicate UsableKeys(ks: seq<string>)
  {
    forall i :: 0 <= i < |ks| ==> ks[i] != [] && NoSpace(ks[i])
  }

  lemma UsableKeysCons(k: string, ks: seq<string>)
    ensures UsableKeys([k] + ks) <==> k != [] && NoSpace(k) && UsableKeys(ks)
  {
    var s := [k] + ks;
    if UsableKeys(s) {
      assert s[0] == k;
      forall i | 0 <= i < |ks| ensures ks[i] != [] && NoSpace(ks[i]) { assert ks[i] == s[i + 1]; }
    }
    if k != [] && NoSpace(k) && UsableKeys(ks) {
      forall i | 0 <= i < |s| ensures s[i] != [] && NoSpace(s[i]) { if i > 0 { assert s[i] == ks[i - 1]; } }
    }
  }

  predicate AllCallable(actions: seq<(string, ActionValue)>)
  {
    forall i :: 0 <= i < |actions| ==> actions[i].1.CallableAction?
  }

  lemma AllCallableCons(actions: seq<(string, ActionValue)>)
    requires actions != []
    ensures AllCallable(actions) <==> actions[0].1.CallableAction? && AllCallable(actions[1..])
  {
    if actions[0].1.CallableAction? && AllCallable(actions[1..]) {
      forall i | 0 <= i < |actions| ensures actions[i].1.CallableAction? {
        if i > 0 { assert actions[i] == actions[1..][i - 1]; }
      }
    }
  }

  /** The actions the loop accepts after `done`: usable canonical names, all callable, no
      two under the same canonical name, and none under a name already taken. */
  predicate ActionsValid(done: Registry, actions: seq<(string, ActionValue)>)
  {
    && UsableKeys(Keys(actions)) && AllCallable(actions)
    && Distinct(Keys(actions)) && Disjoint(Keys(actions), Names(done))
  }

  /** The entries the actions become, in configuration order. */
  function ActionEntries(actions: seq<(string, ActionValue)>): Registry
    requires AllCallable(actions)
  {
    if actions == [] then []
    else [Entry(CanonName(actions[0].0), NoExcept(Plain(actions[0].1.f)))] + ActionEntries(actions[1..])
  }

  lemma NamesAppend(done: Registry, e: Entry)
    ensures Names(done + [e]) == Names(done) + [e.name]
  {
  }

  lemma NamesConcat(a: Registry, b: Registry)
    ensures Names(a + b) == Names(a) + Names(b)
  {
  }

  /** Accepting the first action moves its name from the actions to the registry. */
  lemma ActionsValidStep(done: Registry, actions: seq<(string, ActionValue)>, e: Entry)
    requires actions != [] && e.name == CanonName(actions[0].0)
    ensures ActionsValid(done, actions) <==>
              && e.name != [] && NoSpace(e.name) && actions[0].1.CallableAction? && e.name !in Names(done)
              && ActionsValid(done + [e], actions[1..])
  {
    var k, ks := e.name, Keys(actions[1..]);
    assert Keys(actions) == [k] + ks;
    UsableKeysCons(k, ks);
    AllCallableCons(actions);
    DistinctCons(k, ks);
    DisjointCons(k, ks, Names(done));
    NamesAppend(done, e);
    DisjointSnoc(ks, Names(done), k);
  }

  /** The action loop succeeds exactly when the actions are valid. */
  lemma {:induction false} AddActionsIff(done: Registry, actions: seq<(string, ActionValue)>)
    ensures AddActions(done, actions).Built? <==> ActionsValid(done, actions)
    decreases |actions|
  {
    if actions != [] {
      var a, rest := actions[0], actions[1..];
      var k := CanonName(a.0);
      var c := CheckAction(done, a.0, a.1);
      CheckActionIff(done, a.0, a.1);
      if c.Built? {
        var e := c.value;
        ActionsValidStep(done, actions, e);
        assert AddActions(done, actions) == AddActions(done + [e], rest);
        AddActionsIff(done + [e], rest);
      } else {
        ActionsValidStep(done, actions, Entry(k, NoExcept(Plain(Func(0, None, None)))));
      }
    } else {
      assert Keys(actions) == [];
    }
  }

  /** When the action loop succeeds it has appended one plain entry per action, under the
      action's canonical name, in configuration order. */
  lemma {:induction false} AddActionsEntries(done: Registry, actions: seq<(string, ActionValue)>)
    requires AddActions(done, actions).Built?
    ensures AllCallable(actions) && AddActions(done, actions).value == done + ActionEntries(actions)
    decreases |actions|
  {
    AddActionsIff(done, actions);
    if actions != [] {
      var a, rest := actions[0], actions[1..];
      CheckActionIff(done, a.0, a.1);
      var e := CheckAction(done, a.0, a.1).value;
      assert AddActions(done, actions) == AddActions(done + [e], rest);
      AddActionsEntries(done + [e], rest);
      AllCallableCons(actions);
      assert ActionEntries(actions) == [e] + ActionEntries(rest);
      assert done + [e] + ActionEntries(rest) == done + ([e] + ActionEntries(rest));
    }
  }

  lemma AppendWellFormed(done: Registry, e: Entry)
    requires WellFormed(done) && Canonical(e.name) && e.name !in Names(done) && BaseIsAction(e.value)
    ensures WellFormed(done + [e])
  {
    NamesAppend(done, e);
    DistinctSnoc(Names(done), e.name);
    var reg := done + [e];
    forall i | 0 <= i < |reg| ensures Canonical(reg[i].name) && BaseIsAction(reg[i].value) {
      if i < |done| { assert reg[i] == done[i]; }
    }
  }

  /** The action loop keeps the registry well formed. */
  lemma {:induction false} AddActionsWellFormed(done: Registry, actions: seq<(string, ActionValue)>)
    requires WellFormed(done)
    ensures AddActions(done, actions).Built? ==> WellFormed(AddActions(done, actions).value)
    decreases |actions|
  {
    if actions != [] {
      var c := CheckAction(done, actions[0].0, actions[0].1);
      if c.Built? {
        AppendWellFormed(done, c.value);
        AddActionsWellFormed(done + [c.value], actions[1..]);
      }
    }
  }

  // ---------------------------------------------------------------------------------
  // The alias loop

  /** The text `cmd_get_rest` would give for the alias command at definition time. */
  function AliasPrefix(command: string): string
  {
    if HasToken(command) then Rest(command, true) else []
  }

  /** One iteration of the alias loop: checks against the aliases so far (`done`) and the
      actions; a string alias must name an action, looked up with `cmd_get_action_name`. */
  function CheckAlias(actions: Registry, done: Registry, raw: string, v: AliasValue): (r: Built<Entry>)
  {
    var k := CanonName(raw);
    if !NoSpace(k) then Died(WhitespaceInName(raw))
    else if k == [] then Died(EmptyAliasName(raw))
    else if k in Names(done) then Died(AliasRedefined(raw))
    else if k in Names(actions) then Died(AliasShadowsAction(raw))
    else
      match v
      case StringAlias(c) =>
        (match TryActionName(Some(c))
         case Fail(e) => Died(Uncaught(e))
         case Ok(base) =>
           if base.None? || base.value !in Names(actions) then Died(MissingBase(raw, base))
           else Built(Entry(k, NoExcept(AliasOf(Lookup(actions, base.value), c, AliasPrefix(c))))))
      case CallableAlias(f) => Built(Entry(k, NoExcept(Plain(f))))
      case OtherAlias => Died(BadAliasValue(raw))
  }

  /** The alias loop from `done` on. */
  function AddAliases(actions: Registry, done: Registry, aliases: seq<(string, AliasValue)>): Built<Registry>
    decreases |aliases|
  {
    if aliases == [] then Built(done)
    else
      match CheckAlias(actions, done, aliases[0].0, aliases[0].1)
      case Died(f) => Died(f)
      case Built(e) => AddAliases(actions, done + [e], aliases[1..])
  }

  /** After an alias the loop accepts, it goes on with the next one. */
  lemma AliasThen(actions: Registry, done: Registry, raw: string, v: AliasValue, aliases: seq<(string, AliasValue)>)
    requires CheckAlias(actions, done, raw, v).Built?
    ensures AddAliases(actions, done, [(raw, v)] + aliases)
              == AddAliases(actions, done + [CheckAlias(actions, done, raw, v).value], aliases)
  {
    assert ([(raw, v)] + aliases)[1..] == aliases;
  }

  /** The loop over `config.aliases` filling `updated_aliases`. */
  method RegisterAliases(actions: Registry, aliases: seq<(string, AliasValue)>) returns (r: Built<Registry>)
    ensures r == AddAliases(actions, [], aliases)
  {
    var updated: Registry := [];
    var i := 0;
    while i < |aliases|
      invariant 0 <= i <= |aliases|
      invariant AddAliases(actions, updated, aliases[i..]) == AddAliases(actions, [], aliases)
    {
      var (raw, v_) := aliases[i];
      assert aliases[i..][1..] == aliases[i + 1..];
      assert AddAliases(actions, updated, aliases[i..])
               == match CheckAlias(actions, updated, raw, v_)
                  case Died(f) => Died(f)
                  case Built(e) => AddAliases(actions, updated + [e], aliases[i + 1..]);
      var k := CanonName(raw);
      if !NoSpace(k) {
        return Died(WhitespaceInName(raw));
      }
      if k == [] {
        return Died(EmptyAliasName(raw));
      }
      if k in Names(updated) {
        return Died(AliasRedefined(raw));
      }
      if k in Names(actions) {
        return Died(AliasShadowsAction(raw));
      }
      var v: Unit;
      match v_ {
        case StringAlias(c) =>
          var base := TryActionName(Some(c));
          if base.Fail? {
            return Died(Uncaught(base.fault));
          }
          if base.value.None? || base.value.value !in Names(actions) {
            return Died(MissingBase(raw, base.value));
          }
          v := AliasOf(Lookup(actions, base.value.value), c, AliasPrefix(c));
        case CallableAlias(f) =>
          v := Plain(f);
        case OtherAlias =>
          return Died(BadAliasValue(raw));
      }
      assert CheckAlias(actions, updated, raw, v_) == Built(Entry(k, NoExcept(v)));
      updated := updated + [Entry(k, NoExcept(v))];
      i := i + 1;
    }
    assert aliases[i..] == [];
    return Built(updated);
  }

  /** A string alias command that names a registered action. */
  predicate Resolves(actions: Registry, c: string)
  {
    c != [] && HasToken(c) && ActionName(Some(c)).value in Names(actions)
  }

  /** An alias value the loop accepts: a callable, or a command naming an action. */
  predicate AliasValueOk(actions: Registry, v: AliasValue)
  {
    v.CallableAlias? || (v.StringAlias? && Resolves(actions, v.command))
  }

  predicate AliasValuesOk(actions: Registry, aliases: seq<(string, AliasValue)>)
  {
    forall i :: 0 <= i < |aliases| ==> AliasValueOk(actions, aliases[i].1)
  }

  lemma AliasValuesOkCons(actions: Registry, aliases: seq<(string, AliasValue)>)
    requires aliases != []
    ensures AliasValuesOk(actions, aliases) <==> AliasValueOk(actions, aliases[0].1) && AliasValuesOk(actions, aliases[1..])
  {
    if AliasValueOk(actions, aliases[0].1) && AliasValuesOk(actions, aliases[1..]) {
      forall i | 0 <= i < |aliases| ensures AliasValueOk(actions, aliases[i].1) {
        if i > 0 { assert aliases[i] == aliases[1..][i - 1]; }
      }
    }
  }

  /** The aliases the loop accepts after `done`: usable canonical names, acceptable values,
      no two under the same canonical name, none under a name already taken by an alias or
      an action. */
  predicate AliasesValid(actions: Registry, done: Registry, aliases: seq<(string, AliasValue)>)
  {
    && UsableKeys(Keys(aliases)) && AliasValuesOk(actions, aliases) && Distinct(Keys(aliases))
    && Disjoint(Keys(aliases), Names(done)) && Disjoint(Keys(aliases), Names(actions))
  }

  /** The unit an accepted alias becomes. */
  function AliasUnit(actions: Registry, v: AliasValue): Unit
    requires AliasValueOk(actions, v)
  {
    match v
    case StringAlias(c) => AliasOf(Lookup(actions, ActionName(Some(c)).value), c, AliasPrefix(c))
    case CallableAlias(f) => Plain(f)
  }

  function AliasEntries(actions: Registry, aliases: seq<(string, AliasValue)>): Registry
    requires AliasValuesOk(actions, aliases)
  {
    if aliases == [] then []
    else [Entry(CanonName(aliases[0].0), NoExcept(AliasUnit(actions, aliases[0].1)))] + AliasEntries(actions, aliases[1..])
  }

  /** One alias passes its own checks exactly when its name is usable and free and its
      value is acceptable; then it becomes its `AliasUnit`. */
  lemma CheckAliasIff(actions: Registry, done: Registry, raw: string, v: AliasValue)
    ensures CheckAlias(actions, done, raw, v).Built? <==>
              && CanonName(raw) != [] && NoSpace(CanonName(raw))
              && CanonName(raw) !in Names(done) && CanonName(raw) !in Names(actions)
              && AliasValueOk(actions, v)
    ensures CheckAlias(actions, done, raw, v).Built? ==>
              CheckAlias(actions, done, raw, v).value == Entry(CanonName(raw), NoExcept(AliasUnit(actions, v)))
  {
  }

  /** Accepting the first alias moves its name from the aliases to the registry. */
  lemma AliasesValidStep(actions: Registry, done: Registry, aliases: seq<(string, AliasValue)>, e: Entry)
    requires aliases != [] && e.name == CanonName(aliases[0].0)
    ensures AliasesValid(actions, done, aliases) <==>
              && e.name != [] && NoSpace(e.name) && e.name !in Names(done) && e.name !in Names(actions)
              && AliasValueOk(actions, aliases[0].1) && AliasesValid(actions, done + [e], aliases[1..])
  {
    var k, ks := e.name, Keys(aliases[1..]);
    assert Keys(aliases) == [k] + ks;
    UsableKeysCons(k, ks);
    AliasValuesOkCons(actions, aliases);
    DistinctCons(k, ks);
    DisjointCons(k, ks, Names(done));
    DisjointCons(k, ks, Names(actions));
    NamesAppend(done, e);
    DisjointSnoc(ks, Names(done), k);
  }

  /** The alias loop accepts exactly the valid aliases. */
  lemma {:induction false} AddAliasesIff(actions: Registry, done: Registry, aliases: seq<(string, AliasValue)>)
    ensures AddAliases(actions, done, aliases).Built? <==> AliasesValid(actions, done, aliases)
    decreases |aliases|
  {
    if aliases != [] {
      var a, rest := aliases[0], aliases[1..];
      var k := CanonName(a.0);
      var c := CheckAlias(actions, done, a.0, a.1);
      CheckAliasIff(actions, done, a.0, a.1);
      if c.Built? {
        var e := c.value;
        AliasesValidStep(actions, done, aliases, e);
        assert AddAliases(actions, done, aliases) == AddAliases(actions, done + [e], rest);
        AddAliasesIff(actions, done + [e], rest);
      } else {
        AliasesValidStep(actions, done, aliases, Entry(k, NoExcept(Plain(Func(0, None, None)))));
      }
    } else {
      assert Keys(aliases) == [];
    }
  }

  /** When the alias loop succeeds it has appended one entry per alias, in order: a
      callable unchanged, a string alias bound to its base action. */
  lemma {:induction false} AddAliasesEntries(actions: Registry, done: Registry, aliases: seq<(string, AliasValue)>)
    requires AddAliases(actions, done, aliases).Built?
    ensures AliasValuesOk(actions, aliases)
    ensures AddAliases(actions, done, aliases).value == done + AliasEntries(actions, aliases)
    decreases |aliases|
  {
    AddAliasesIff(actions, done, aliases);
    if aliases != [] {
      var a, rest := aliases[0], aliases[1..];
      CheckAliasIff(actions, done, a.0, a.1);
      var e := CheckAlias(actions, done, a.0, a.1).value;
      assert AddAliases(actions, done, aliases) == AddAliases(actions, done + [e], rest);
      AddAliasesEntries(actions, done + [e], rest);
      AliasValuesOkCons(actions, aliases);
      assert AliasEntries(actions, aliases) == [e] + AliasEntries(actions, rest);
      assert done + [e] + AliasEntries(actions, rest) == done + ([e] + AliasEntries(actions, rest));
    }
  }

  /** The alias loop keeps the aliases well formed and clear of the action names, provided
      the actions are plain units (as the action loop makes them). */
  lemma {:induction false} AddAliasesWellFormed(actions: Registry, done: Registry, aliases: seq<(string, AliasValue)>)
    requires forall i :: 0 <= i < |actions| ==> actions[i].value.unit.Plain?
    requires WellFormed(done) && Disjoint(Names(done), Names(actions))
    ensures AddAliases(actions, done, aliases).Built? ==>
              && WellFormed(AddAliases(actions, done, aliases).value)
              && Disjoint(Names(AddAliases(actions, done, aliases).value), Names(actions))
    decreases |aliases|
  {
    if aliases != [] {
      var c := CheckAlias(actions, done, aliases[0].0, aliases[0].1);
      if c.Built? {
        var e := c.value;
        assert BaseIsAction(e.value) by {
          if e.value.unit.AliasOf? {
            var b := ActionName(Some(aliases[0].1.command)).value;
            var i :| 0 <= i < |actions| && actions[i] == Entry(b, Lookup(actions, b));
          }
        }
        AppendWellFormed(done, e);
        NamesAppend(done, e);
        DisjointSnoc(Names(done), Names(actions), e.name);
        AddAliasesWellFormed(actions, done + [e], aliases[1..]);
      }
    }
  }

  // ---------------------------------------------------------------------------------
  // The whole import

  /** `unified_actions`: the actions, then the aliases, or the first reason to stop. */
  function ImportRegistry(actions: seq<(string, ActionValue)>, aliases: seq<(string, AliasValue)>): Built<Registry>
  {
    match AddActions([], actions)
    case Died(f) => Died(f)
    case Built(acts) =>
      match AddAliases(acts, [], aliases)
      case Died(f) => Died(f)
      case Built(als) => Built(acts + als)
  }

  /** Running the two loops and merging the dictionaries. */
  method ImportUnits(actions: seq<(string, ActionValue)>, aliases: seq<(string, AliasValue)>) returns (r: Built<Registry>)
    ensures r == ImportRegistry(actions, aliases)
  {
    var acts := RegisterActions(actions);
    if acts.Died? {
      return Died(acts.reason);
    }
    var als := RegisterAliases(acts.value, aliases);
    if als.Died? {
      return Died(als.reason);
    }
    return Built(acts.value + als.value);
  }

  /** The import as the two loops run it: the aliases are checked against the built actions,
      and the registry is the actions followed by the aliases. */
  lemma ImportSteps(actions: seq<(string, ActionValue)>, aliases: seq<(string, AliasValue)>)
    ensures AddActions([], actions).Died? ==> ImportRegistry(actions, aliases) == Died(AddActions([], actions).reason)
    ensures AddActions([], actions).Built? ==>
              var acts := AddActions([], actions).value;
              ImportRegistry(actions, aliases)
                == if AddAliases(acts, [], aliases).Died? then Died(AddAliases(acts, [], aliases).reason)
                   else Built(acts + AddAliases(acts, [], aliases).value)
  {
  }

  /** The import succeeds exactly when the actions are valid and the aliases are valid
      against them; the registry is then the action entries followed by the alias entries. */
  lemma ImportIff(actions: seq<(string, ActionValue)>, aliases: seq<(string, AliasValue)>)
    ensures ImportRegistry(actions, aliases).Built? <==>
              ActionsValid([], actions) && AliasesValid(ActionEntries(actions), [], aliases)
    ensures ImportRegistry(actions, aliases).Built? ==>
              ImportRegistry(actions, aliases).value
                == ActionEntries(actions) + AliasEntries(ActionEntries(actions), aliases)
  {
    ImportSteps(actions, aliases);
    AddActionsIff([], actions);
    var acts := AddActions([], actions);
    if acts.Built? {
      AddActionsEntries([], actions);
      var es := ActionEntries(actions);
      assert acts.value == [] + es == es;
      AddAliasesIff(es, [], aliases);
      var als := AddAliases(es, [], aliases);
      if als.Built? {
        AddAliasesEntries(es, [], aliases);
        assert als.value == [] + AliasEntries(es, aliases) == AliasEntries(es, aliases);
      }
    }
  }

  /** Every registry the import produces has distinct canonical names (the action names and
      the alias names are disjoint) and no alias whose base is an alias. */
  lemma ImportWellFormed(actions: seq<(string, ActionValue)>, aliases: seq<(string, AliasValue)>)
    ensures ImportRegistry(actions, aliases).Built? ==> WellFormed(ImportRegistry(actions, aliases).value)
  {
    ImportSteps(actions, aliases);
    AddActionsWellFormed([], actions);
    var a := AddActions([], actions);
    if a.Built? {
      var acts := a.value;
      AddActionsEntries([], actions);
      assert acts == [] + ActionEntries(actions) == ActionEntries(actions);
      ActionEntriesPlain(actions);
      AddAliasesWellFormed(acts, [], aliases);
      var b := AddAliases(acts, [], aliases);
      if b.Built? {
        RegistryConcatWellFormed(acts, b.value);
      }
    }
  }

  /** Two well-formed registries with disjoint names make a well-formed registry. */
  lemma RegistryConcatWellFormed(acts: Registry, als: Registry)
    requires WellFormed(acts) && WellFormed(als) && Disjoint(Names(als), Names(acts))
    ensures WellFormed(acts + als)
  {
    var reg := acts + als;
    NamesConcat(acts, als);
    DistinctConcat(Names(acts), Names(als));
    forall i | 0 <= i < |reg| ensures Canonical(reg[i].name) && BaseIsAction(reg[i].value) {
      if i >= |acts| { assert reg[i] == als[i - |acts|]; } else { assert reg[i] == acts[i]; }
    }
  }

  lemma {:induction false} ActionEntriesPlain(actions: seq<(string, ActionValue)>)
    requires AllCallable(actions)
    ensures forall i :: 0 <= i < |ActionEntries(actions)| ==> ActionEntries(actions)[i].value.unit.Plain?
    decreases |actions|
  {
    if actions != [] {
      AllCallableCons(actions);
      var es, rest := ActionEntries(actions), ActionEntries(actions[1..]);
      ActionEntriesPlain(actions[1..]);
      assert es == [es[0]] + rest;
      forall i | 0 <= i < |es| ensures es[i].value.unit.Plain? {
        if i > 0 { assert es[i] == rest[i - 1]; }
      }
    }
  }

  // ---------------------------------------------------------------------------------
  // Examples of the failure taxonomy

  /** Two action keys with the same canonical name ("Foo" and "foo") make the import die
      on the second, naming the canonical name. */
  lemma CaseCollision(raw1: string, raw2: string, f1: Func, f2: Func, aliases: seq<(string, AliasValue)>)
    requires CanonName(raw1) == CanonName(raw2) && CanonName(raw1) != [] && NoSpace(CanonName(raw1))
    ensures ImportRegistry([(raw1, CallableAction(f1)), (raw2, CallableAction(f2))], aliases)
              == Died(ActionRedefined(CanonName(raw2)))
  {
    var actions := [(raw1, CallableAction(f1)), (raw2, CallableAction(f2))];
    var e := Entry(CanonName(raw1), NoExcept(Plain(f1)));
    assert CheckAction([], raw1, CallableAction(f1)) == Built(e);
    assert AddActions([], actions) == AddActions([] + [e], actions[1..]);
    assert [] + [e] == [e] && Names([e]) == [CanonName(raw1)];
    assert actions[1..] == [actions[1]];
    assert CheckAction([e], raw2, CallableAction(f2)) == Died(ActionRedefined(CanonName(raw2)));
    assert AddActions([e], actions[1..]) == Died(ActionRedefined(CanonName(raw2)));
  }

  /** "Foo" and "foo" have the same canonical name. */
  lemma FooKeys()
    ensures CanonName("Foo") == CanonName("foo") == "foo"
  {
    WordKey("Foo");
    WordKey("foo");
    assert Lower("Foo") == "foo" && Lower("foo") == "foo";
  }

  /** A string alias "/<base>" under a free canonical name is accepted when the base is an
      action, and bound to that action. */
  lemma SlashAliasAccepted(actions: Registry, done: Registry, raw: string, base: string)
    requires Canonical(raw) && Canonical(base) && raw !in Names(done) && raw !in Names(actions)
    requires base in Names(actions)
    ensures CheckAlias(actions, done, raw, StringAlias(['/'] + base))
              == Built(Entry(raw, NoExcept(AliasOf(Lookup(actions, base), ['/'] + base, AliasPrefix(['/'] + base)))))
  {
    WordCanon(raw);
    SlashNameExample(base);
  }

  /** The same alias dies naming the base when the base is not an action. */
  lemma SlashAliasMissing(actions: Registry, done: Registry, raw: string, base: string)
    requires Canonical(raw) && Canonical(base) && raw !in Names(done) && raw !in Names(actions)
    requires base !in Names(actions)
    ensures CheckAlias(actions, done, raw, StringAlias(['/'] + base)) == Died(MissingBase(raw, Some(base)))
  {
    WordCanon(raw);
    SlashNameExample(base);
  }

  /** An alias of an alias ("hey" -> "/hi" where "hi" -> "/hello"): bases are looked up among
      the actions only, so the import dies naming the missing base. */
  lemma AliasOfAliasDies(hello: string, hi: string, hey: string, f: Func)
    requires Canonical(hello) && Canonical(hi) && Canonical(hey)
    requires hello != hi && hello != hey && hi != hey
    ensures ImportRegistry([(hello, CallableAction(f))],
                           [(hi, StringAlias(['/'] + hello)), (hey, StringAlias(['/'] + hi))])
              == Died(MissingBase(hey, Some(hi)))
  {
    var h := Entry(hello, NoExcept(Plain(f)));
    WordCanon(hello);
    assert CheckAction([], hello, CallableAction(f)) == Built(h);
    OneAction(hello, CallableAction(f));
    assert Names([h]) == [hello];
    SlashAliasAccepted([h], [], hi, hello);
    var e := CheckAlias([h], [], hi, StringAlias(['/'] + hello)).value;
    AliasThen([h], [], hi, StringAlias(['/'] + hello), [(hey, StringAlias(['/'] + hi))]);
    assert [] + [e] == [e] && Names([e]) == [hi];
    SlashAliasMissing([h], [e], hey, hi);
    var last := [(hey, StringAlias(['/'] + hi))];
    assert AddAliases([h], [e], last) == Died(MissingBase(hey, Some(hi)));
  }

  /** A key that is one word without a leading slash is only lower-cased. */
  lemma WordKey(w: string)
    requires w != [] && NoSpace(w) && w[0] != '/'
    ensures CanonName(w) == Lower(w)
  {
    assert SkipSpace(w) == w;
    assert RStrip(w) == w;
    assert LStripSlash(w) == w;
  }

  /** A lower-case word is its own canonical name. */
  lemma WordCanon(w: string)
    requires Canonical(w)
    ensures CanonName(w) == w
  {
    WordKey(w);
    LowerIdempotent(w);
  }

  lemma SlashNameExample(w: string)
    requires Canonical(w)
    ensures TryActionName(Some(['/'] + w)) == Ok(Some(w))
  {
    CanonicalNameReachable(w, ' ', []);
  }

  // ---------------------------------------------------------------------------------
  // Running a unit

  /** What a configured callable does when called with a message and a rest: the calls it
      makes and how it ends. Actions are code outside the registry builder. */
  type Behaviour = (Func, Message, string) -> Trace<()>

  const SorryPrefix := "Something went wrong while processing your request:\n"

  /** `%s` of a message text. */
  function TextOrNone(t: Option<string>): string
  {
    if t.None? then "None" else t.value
  }

  /** `make_action_noexcept` around one call: an exception is logged, reported to the sender
      in one reply, and the outcome of that reply is logged; nothing propagates. */
  function Isolate(tr: Transport, m: Message, inner: Trace<()>): (t: Trace<()>)
    ensures t.result == Ok(())
    ensures inner.result.Ok? ==> t.events == inner.events
    ensures inner.result.Fail? ==>
              && |t.events| == |inner.events| + 3
              && t.events[..|inner.events|] == inner.events
              && t.events[|inner.events|] == Log(Error, "Exception occurred while handling the command " + TextOrNone(m.text))
              && t.events[|inner.events| + 1]
                   == Reply(m.chat, m.id, SorryPrefix + FaultText(inner.result.fault), PlainText, NoMarkup)
              && t.events[|inner.events| + 2].Log?
              && (t.events[|inner.events| + 2].level == Info <==>
                    (SorryPrefix + FaultText(inner.result.fault), PlainText) !in tr.refused)
  {
    if inner.result.Ok? then Trace(inner.events, Ok(()))
    else
      var sorry := ReplyTo(tr, m, SorryPrefix + FaultText(inner.result.fault), PlainText, NoMarkup);
      var last :=
        if sorry.result.Ok? then Log(Info, "Successfully notified user of the above problem")
        else Log(Error, "Failed to notify user of the above problem");
      Trace(inner.events + [Log(Error, "Exception occurred while handling the command " + TextOrNone(m.text))]
              + sorry.events + [last], Ok(()))
  }

  /** Running a registered unit with the rest the dispatcher computed. */
  function Invoke(run: Behaviour, tr: Transport, r: Registered, m: Message, rest: string): (t: Trace<()>)
    ensures t.result == Ok(())
    decreases r, 1
  {
    Isolate(tr, m, Call(run, tr, r.unit, m, rest))
  }

  /** The unwrapped unit. A string alias ignores `rest`: it re-reads the message text,
      keeping the separator after the alias name, and hands its prefix followed by that
      text to its base. */
  function Call(run: Behaviour, tr: Transport, u: Unit, m: Message, rest: string): Trace<()>
    decreases u, 0
  {
    match u
    case Plain(f) => run(f, m, rest)
    case AliasOf(base, _, prefix) =>
      match TryRest(m.text, false)
      case Fail(e) => Trace([], Fail(e))
      case Ok(tail) => Invoke(run, tr, base, m, prefix + tail)
  }

  /** A string alias passes its base the rest of its own command followed by everything
      after the alias name in the message, separator included. */
  lemma AliasForwards(run: Behaviour, tr: Transport, base: Registered, command: string,
                      m: Message, w: string, sep: char, t: string, rest: string)
    requires HasToken(command) && w != [] && NoSpace(w) && IsSpace(sep)
    requires m.text == Some(w + [sep] + t)
    ensures Invoke(run, tr, NoExcept(AliasOf(base, command, AliasPrefix(command))), m, rest)
              == Invoke(run, tr, base, m, Rest(command, true) + [sep] + t)
  {
    RestAfterWord(w, sep, t);
    FirstWordOf(w, sep, t);
    assert Rest(command, true) + ([sep] + t) == Rest(command, true) + [sep] + t;
  }

  /** The corrected alias runs its base: its calls are exactly those of the base action, run
      on the alias's prefix followed by the message after the alias name, under the base's
      `make_action_noexcept` wrapper; the alias's own wrapper adds nothing. */
  lemma CorrectedRunsBase(run: Behaviour, tr: Transport, f: Func, command: string, m: Message, rest: string)
    requires m.text.Some? && HasToken(m.text.value)
    ensures Invoke(run, tr, NoExcept(AliasOf(NoExcept(Plain(f)), command, AliasPrefix(command))), m, rest)
              == Isolate(tr, m, run(f, m, AliasPrefix(command) + Rest(m.text.value, false)))
  {
    var arg := AliasPrefix(command) + Rest(m.text.value, false);
    var inner := run(f, m, arg);
    var mid := Invoke(run, tr, NoExcept(Plain(f)), m, arg);
    assert Call(run, tr, Plain(f), m, arg) == inner;
    assert mid == Isolate(tr, m, inner);
    assert Call(run, tr, AliasOf(NoExcept(Plain(f)), command, AliasPrefix(command)), m, rest) == mid;
    assert mid.result == Ok(());
  }

  /** Visible ASCII characters are not whitespace. */
  lemma VisibleWord(w: string)
    requires forall i :: 0 <= i < |w| ==> '!' <= w[i] <= '~'
    ensures NoSpace(w)
  {
  }

  /** The text the alias "greet" -> "/hello there" adds in front: "there". */
  lemma HelloPrefix()
    ensures AliasPrefix("/hello there") == "there"
  {
    var w, t := "/hello", "there";
    VisibleWord(w);
    RestAfterWord(w, ' ', t);
    FirstWordOf(w, ' ', t);
    assert "/hello there" == w + [' '] + t;
  }

  /** The text after the alias name in "/greet  world", separator kept: "  world"; so the
      base of "greet" -> "/hello there" is handed "there  world". */
  lemma GreetTail()
    ensures HasToken("/greet  world") && Rest("/greet  world", false) == "  world"
  {
    var w, t := "/greet", " world";
    VisibleWord(w);
    RestAfterWord(w, ' ', t);
    FirstWordOf(w, ' ', t);
    assert "/greet  world" == w + [' '] + t;
  }

  // ---------------------------------------------------------------------------------
  // The string alias as written

  /** What Python says when `cmd_get_rest`, which takes one argument, is given two. */
  const ArityMessage := "cmd_get_rest() takes 1 positional argument but 2 were given"

  /** The unwrapped unit as the source writes the alias closure: the call
      `cmd_get_rest(msg.text, False)` raises before the base is reached. */
  function CallAsWritten(run: Behaviour, u: Unit, m: Message, rest: string): Trace<()>
  {
    match u
    case Plain(f) => run(f, m, rest)
    case AliasOf(_, _, _) => Trace([], Fail(TypeError(ArityMessage)))
  }

  /** As written, every string alias answers with an apology naming the `TypeError`, and its
      base action is never run: the only calls made are the two log lines and that reply. */
  lemma AsWrittenAliasNeverRunsBase(run: Behaviour, tr: Transport, base: Registered, command: string,
                                    prefix: string, m: Message, rest: string)
    ensures Isolate(tr, m, CallAsWritten(run, AliasOf(base, command, prefix), m, rest)).events
              == [Log(Error, "Exception occurred while handling the command " + TextOrNone(m.text)),
                  Reply(m.chat, m.id, SorryPrefix + ArityMessage, PlainText, NoMarkup),
                  Log(if (SorryPrefix + ArityMessage, PlainText) in tr.refused then Error else Info,
                      if (SorryPrefix + ArityMessage, PlainText) in tr.refused
                      then "Failed to notify user of the above problem"
                      else "Successfully notified user of the above problem")]
  {
  }

  // ---------------------------------------------------------------------------------
  // The /help text

  /** `__doc__.split('\n')[0]`: the docstring up to its first line break. */
  function FirstLine(doc: string): (l: string)
    ensures |l| <= |doc| && l == doc[..|l|]
    ensures forall i :: 0 <= i < |l| ==> l[i] != '\n'
    ensures |l| == |doc| || doc[|l|] == '\n'
  {
    if doc == [] || doc[0] == '\n' then [] else [doc[0]] + FirstLine(doc[1..])
  }

  /** The description of a unit: the `RimokonHelp` attribute (for a string alias, "Alias
      for" and its command), else the first docstring line, else "[no description]". */
  function Description(r: Registered): string
  {
    match r.unit
    case AliasOf(_, c, _) => "Alias for " + c
    case Plain(f) =>
      if f.helpAttr.Some? then f.helpAttr.value
      else if f.doc.Some? then FirstLine(f.doc.value)
      else "[no description]"
  }

  function HelpLine(e: Entry): string
  {
    "/" + e.name + " " + Description(e.value)
  }

  const HelpHeader := "Here is the list of actions available:"
  const TooLarge := "The help message is too large for a Telegram message"
  const TooLargeNote :=
    "The generated /help message exceeds the maximum Telegram message size. File an issue at https://github.com/kolayne/Rimokon/issues"
  /** The longest text a Telegram message may carry. */
  const MaxMessage := 4096

  /** The help line of every registry entry, in order. */
  function HelpLines(reg: Registry): (ls: seq<string>)
    ensures |ls| == |reg| && forall i :: 0 <= i < |reg| ==> ls[i] == HelpLine(reg[i])
  {
    seq(|reg|, i requires 0 <= i < |reg| => HelpLine(reg[i]))
  }

  /** The text the help loop accumulates: each line followed by a blank line. */
  function Accumulated(lines: seq<string>): string
  {
    if lines == [] then [] else Accumulated(lines[..|lines| - 1]) + (lines[|lines| - 1] + "\n\n")
  }

  /** The lines, each preceded by a blank line. */
  function Listed(lines: seq<string>): string
  {
    if lines == [] then [] else Listed(lines[..|lines| - 1]) + "\n\n" + lines[|lines| - 1]
  }

  /** The header followed by one paragraph per registry entry, in order. */
  function HelpListing(reg: Registry): string
  {
    HelpHeader + Listed(HelpLines(reg))
  }

  /** The help text sent for /help, with the warning logged when the listing is cut. */
  function HelpMessage(reg: Registry): (t: Trace<string>)
    ensures t.result.Ok? && |t.result.value| <= MaxMessage
    ensures |HelpListing(reg)| <= MaxMessage <==> t == Trace([], Ok(HelpListing(reg)))
  {
    if |HelpListing(reg)| > MaxMessage then Trace([Log(Warning, TooLargeNote)], Ok(TooLarge))
    else Trace([], Ok(HelpListing(reg)))
  }

  /** Every paragraph followed by a blank line is every paragraph preceded by one, shifted. */
  lemma {:induction false} AccumulatedShift(lines: seq<string>)
    ensures "\n\n" + Accumulated(lines) == Listed(lines) + "\n\n"
    decreases |lines|
  {
    if lines != [] {
      var init, last := lines[..|lines| - 1], lines[|lines| - 1];
      AccumulatedShift(init);
      assert "\n\n" + Accumulated(lines) == ("\n\n" + Accumulated(init)) + (last + "\n\n");
    }
  }

  /** One more pass of the help loop appends one line and a blank line. */
  lemma AccumulatedStep(prefix: string, lines: seq<string>, i: nat)
    requires i < |lines|
    ensures prefix + Accumulated(lines[..i]) + (lines[i] + "\n\n") == prefix + Accumulated(lines[..i + 1])
  {
    assert lines[..i + 1][..i] == lines[..i];
  }

  /** Cutting the last two characters off the accumulated text gives the listing. */
  lemma AccumulatedCut(prefix: string, lines: seq<string>)
    ensures var acc := prefix + "\n\n" + Accumulated(lines);
      |acc| >= 2 && acc[..|acc| - 2] == prefix + Listed(lines)
  {
    AccumulatedShift(lines);
    var acc := prefix + "\n\n" + Accumulated(lines);
    assert acc == prefix + ("\n\n" + Accumulated(lines));
    assert acc == (prefix + Listed(lines)) + "\n\n";
  }

  /** The help loop over `unified_actions`, the final `[:-2]` and the size check. */
  method BuildHelp(reg: Registry) returns (t: Trace<string>)
    ensures t == HelpMessage(reg)
  {
    var lines := HelpLines(reg);
    var help := HelpHeader + "\n\n";
    var i := 0;
    while i < |reg|
      invariant 0 <= i <= |reg|
      invariant help == HelpHeader + "\n\n" + Accumulated(lines[..i])
    {
      var description := Description(reg[i].value);
      var line := "/" + reg[i].name + " " + description + "\n\n";
      assert line == lines[i] + "\n\n";
      AccumulatedStep(HelpHeader + "\n\n", lines, i);
      help := help + line;
      i := i + 1;
    }
    assert lines[..i] == lines;
    AccumulatedCut(HelpHeader, lines);
    help := help[..|help| - 2];
    if |help| > MaxMessage {
      return Trace([Log(Warning, TooLargeNote)], Ok(TooLarge));
    }
    return Trace([], Ok(help));
  }

  /** With nothing registered the help text is the header line alone. */
  lemma EmptyHelp()
    ensures HelpMessage([]) == Trace([], Ok("Here is the list of actions available:"))
  {
    assert HelpLines([]) == [] && Listed([]) == [];
    assert HelpListing([]) == HelpHeader;
  }
}
