/** The notification protocol of Rimokon/plugins/plugin_helpers.py: an action wrapped so that
    the sender sees "Executing..." while it runs, and the notice is deleted afterwards. An
    action is modelled by what it does when called with a message: the calls it makes to the
    bot and how it ends. */
module PluginHelpers {
  import opened Core
  import opened Effects

  const ExecutingNotice := "Executing..."

  /** An action function, its extra arguments already bound: given the message, the calls
      it makes and what it returns or raises. */
  type Action<T> = Message -> Trace<T>

  /** `_run_notified`: reply "Executing...", run the action, and delete the notice in a
      `finally`. `sentId` is the id the API gave the notice. A refused notice raises before
      the action starts; a failing delete raises in place of the action's outcome, as an
      exception raised in `finally` does. */
  function RunNotified<T>(tr: Transport, m: Message, sentId: int, f: Action<T>): (t: Trace<T>)
    ensures t.events != [] && t.events[0] == Reply(m.chat, m.id, ExecutingNotice, PlainText, NoMarkup)
    ensures (ExecutingNotice, PlainText) in tr.refused ==>
              t.events == [t.events[0]] && t.result == Fail(ApiError(tr.errorText))
    ensures (ExecutingNotice, PlainText) !in tr.refused ==>
              && |t.events| == |f(m).events| + 2
              && t.events[1..|t.events| - 1] == f(m).events
              && t.events[|t.events| - 1] == Delete(m.chat, sentId)
              && t.result == if tr.deleteRefused then Fail(ApiError(tr.errorText)) else f(m).result
  {
    var notice := ReplyTo(tr, m, ExecutingNotice, PlainText, NoMarkup);
    if notice.result.Fail? then Trace(notice.events, Fail(notice.result.fault))
    else
      var run := f(m);
      var del := DeleteMessage(tr, m.chat, sentId);
      var events := notice.events + run.events + del.events;
      assert events[1..|events| - 1] == run.events;
      Trace(events, if del.result.Fail? then Fail(del.result.fault) else run.result)
  }

  /** The decorator `notify_of_execution`. */
  function NotifyOfExecution<T>(tr: Transport, sentId: int, f: Action<T>): Action<T>
  {
    m => RunNotified(tr, m, sentId, f)
  }

  /** The decorator `notify_of_execution_conditionally`: the decorated action takes a
      keyword `notify` (true when the caller leaves it out). */
  function NotifyConditionally<T>(tr: Transport, sentId: int, f: Action<T>): (Message, bool) -> Trace<T>
  {
    (m, notify) => if notify then RunNotified(tr, m, sentId, f) else f(m)
  }

  /** With `notify` true the conditional decorator behaves as `notify_of_execution`; with
      `notify` false as the undecorated action, sending and deleting nothing. */
  lemma ConditionalNotify<T>(tr: Transport, sentId: int, f: Action<T>, m: Message)
    ensures NotifyConditionally(tr, sentId, f)(m, true) == NotifyOfExecution(tr, sentId, f)(m)
    ensures NotifyConditionally(tr, sentId, f)(m, false) == f(m)
  {
  }

  /** Every "Executing..." notice the wrapper manages to send is deleted, after everything
      the action did, whether the action returned or raised; and the wrapper itself sends
      nothing else. */
  lemma NoticeAlwaysDeleted<T>(tr: Transport, m: Message, sentId: int, f: Action<T>)
    requires (ExecutingNotice, PlainText) !in tr.refused
    ensures var t := RunNotified(tr, m, sentId, f);
      t.events == [Reply(m.chat, m.id, ExecutingNotice, PlainText, NoMarkup)] + f(m).events + [Delete(m.chat, sentId)]
  {
    var t := RunNotified(tr, m, sentId, f);
    assert t.events == [t.events[0]] + t.events[1..|t.events| - 1] + [t.events[|t.events| - 1]];
  }

  /** What the action returns or raises comes out unchanged when the delete succeeds. */
  lemma OutcomePassesThrough<T>(tr: Transport, m: Message, sentId: int, f: Action<T>)
    requires (ExecutingNotice, PlainText) !in tr.refused && !tr.deleteRefused
    ensures RunNotified(tr, m, sentId, f).result == f(m).result
    ensures f(m).result.Fail? ==> RunNotified(tr, m, sentId, f).result.fault == f(m).result.fault
  {
  }
}
