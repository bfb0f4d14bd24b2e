/** The per-message handler of the monitor (`InPlayGuruMonitor._handle_new_message`,
    main.py): the two counters, the classification, the forwarding attempt and
    the error notification sent when an alert is lost. A run is modelled as a
    fold of the handler over the event sequence: each handler call is assumed
    to finish before the next event is handled. */
module Monitor {
  import opened Wrappers
  import opened Decimal
  import opened Classifier
  import opened Forwarder

  /** The part of a new-message event the handler uses. `text` is `None` when
      the message has no text; `senderResolves` is false when looking up the
      sender raises; `reply` is what the network answers to the forward of
      this event's alert, so two forwards of the same text may fare differently. */
  datatype Event = Event(text: Option<string>, senderResolves: bool, reply: Response)

  /** `messages_processed` and `alerts_count`. */
  datatype State = State(processed: nat, alerts: nat)

  const Initial := State(0, 0)

  predicate Valid(s: State) {
    s.alerts <= s.processed
  }

  /** What the handler works with: destination and regex engine. */
  datatype Env = Env(cfg: Config, matcher: Matcher)

  /** The state after a handler call, and the requests it posted, in order. */
  datatype Handled = Handled(state: State, sent: seq<Request>)

  const NoticeHead := "🚨 ERREUR PLIJADUR MONITOR:\n\n"
  const NoticeTail := "\n\nVérifiez les logs Railway.app"
  const LostAlertLead := "Échec transfert alerte #"

  /** `getattr(message, 'text', '') or ''`. */
  function MessageText(e: Event): string {
    match e.text
    case None => ""
    case Some(t) => t
  }

  /** `_send_error_notification`'s text around an error message. */
  function ErrorNotice(message: string): string {
    NoticeHead + message + NoticeTail
  }

  /** The error message naming the lost alert. */
  function LostAlertMessage(index: nat): string {
    LostAlertLead + NatToString(index)
  }

  /** The index of the lost alert a notice reports, if it is such a notice. */
  function LostAlertIndex(notice: string): Option<nat> {
    var head := NoticeHead + LostAlertLead;
    if |notice| >= |head| + |NoticeTail| &&
       notice[..|head|] == head &&
       notice[|notice| - |NoticeTail|..] == NoticeTail
    then ParseNat(notice[|head|..|notice| - |NoticeTail|])
    else None
  }

  /** Reading the index back from a lost-alert notice gives the index it was built from. */
  lemma LostAlertIndexRoundTrip(index: nat)
    ensures LostAlertIndex(ErrorNotice(LostAlertMessage(index))) == Some(index)
  {
    var head := NoticeHead + LostAlertLead;
    var digits := NatToString(index);
    var notice := ErrorNotice(LostAlertMessage(index));
    assert notice == head + digits + NoticeTail;
    assert notice[..|head|] == head;
    assert notice[|notice| - |NoticeTail|..] == NoticeTail;
    assert notice[|head|..|notice| - |NoticeTail|] == digits;
  }

  /** Whether event `e` is counted as an alert. */
  predicate DetectsAlert(env: Env, e: Event) {
    e.senderResolves && IsAlert(env.matcher, MessageText(e))
  }

  /** `_handle_new_message`. The processed counter rises first; a failing
      sender lookup then aborts the handler (the exception is caught at the
      message boundary). An alert raises the alert counter and is forwarded;
      if forwarding fails, an error notice naming the alert's index is posted
      and its own outcome ignored. */
  function HandleMessage(env: Env, s: State, e: Event): (r: Handled)
    ensures r.state.processed == s.processed + 1
    ensures r.state.alerts == s.alerts + (if DetectsAlert(env, e) then 1 else 0)
    ensures Valid(s) ==> Valid(r.state)
    ensures |r.sent| >= 1 <==> DetectsAlert(env, e)
    ensures |r.sent| >= 1 ==> r.sent[0] == BuildRequest(env.cfg, MessageText(e))
    ensures |r.sent| >= 1 ==> Unwrap(r.sent[0].payload.text) == Some(MessageText(e))
    ensures |r.sent| == 2 <==> DetectsAlert(env, e) && !Acknowledged(e.reply)
    ensures |r.sent| == 2 ==> r.sent[1] == BuildRequest(env.cfg, ErrorNotice(LostAlertMessage(r.state.alerts)))
    ensures |r.sent| == 2 ==>
      && Unwrap(r.sent[1].payload.text).Some?
      && LostAlertIndex(Unwrap(r.sent[1].payload.text).value) == Some(r.state.alerts)
    ensures |r.sent| <= 2
  {
    var counted := s.(processed := s.processed + 1);
    if !e.senderResolves then Handled(counted, [])
    else
      var text := MessageText(e);
      if !IsAlert(env.matcher, text) then Handled(counted, [])
      else
        var detected := counted.(alerts := counted.alerts + 1);
        var forward := BuildRequest(env.cfg, text);
        RequestCarriesMessage(env.cfg, text);
        if Forward(env.cfg, _ => e.reply, text) then Handled(detected, [forward])
        else
          var notice := ErrorNotice(LostAlertMessage(detected.alerts));
          RequestCarriesMessage(env.cfg, notice);
          LostAlertIndexRoundTrip(detected.alerts);
          Handled(detected, [forward, BuildRequest(env.cfg, notice)])
  }

  /** Number of events of `es` counted as alerts. */
  function AlertEvents(env: Env, es: seq<Event>): (n: nat)
    ensures n <= |es|
  {
    if es == [] then 0
    else (if DetectsAlert(env, es[0]) then 1 else 0) + AlertEvents(env, es[1..])
  }

  /** Number of events of `es` whose alert could not be forwarded. */
  function LostAlerts(env: Env, es: seq<Event>): (n: nat)
    ensures n <= AlertEvents(env, es)
  {
    if es == [] then 0
    else
      (if DetectsAlert(env, es[0]) && !Forward(env.cfg, _ => es[0].reply, MessageText(es[0])) then 1 else 0)
      + LostAlerts(env, es[1..])
  }

  /** The handler applied to each event in turn. */
  function Run(env: Env, s: State, es: seq<Event>): (r: Handled)
    decreases |es|
  {
    if es == [] then Handled(s, [])
    else
      var first := HandleMessage(env, s, es[0]);
      var rest := Run(env, first.state, es[1..]);
      Handled(rest.state, first.sent + rest.sent)
  }

  /** Over a run, every event counts as processed, exactly the detected alerts
      are counted, alerts never exceed processed messages, and one request is
      posted per alert plus one notice per lost alert. */
  lemma {:induction false} RunCounters(env: Env, s: State, es: seq<Event>)
    ensures Run(env, s, es).state.processed == s.processed + |es|
    ensures Run(env, s, es).state.alerts == s.alerts + AlertEvents(env, es)
    ensures Valid(s) ==> Valid(Run(env, s, es).state)
    ensures |Run(env, s, es).sent| == AlertEvents(env, es) + LostAlerts(env, es)
    decreases |es|
  {
    if es != [] {
      var first := HandleMessage(env, s, es[0]);
      RunCounters(env, first.state, es[1..]);
      if DetectsAlert(env, es[0]) {
        RequestCarriesMessage(env.cfg, MessageText(es[0]));
      }
    }
  }

  /** From start-up, the counters of any run satisfy alerts <= processed. */
  lemma RunFromInitialIsValid(env: Env, es: seq<Event>)
    ensures Run(env, Initial, es).state == State(|es|, AlertEvents(env, es))
    ensures Valid(Run(env, Initial, es).state)
  {
    RunCounters(env, Initial, es);
  }

  /** When every forward is acknowledged, exactly one request is posted per
      alert and no notice is sent. */
  lemma {:induction false} ReliableTransportNoLoss(env: Env, es: seq<Event>)
    requires forall i :: 0 <= i < |es| ==> Acknowledged(es[i].reply)
    ensures LostAlerts(env, es) == 0
    ensures |Run(env, Initial, es).sent| == AlertEvents(env, es)
    decreases |es|
  {
    if es != [] {
      ReliableTransportNoLoss(env, es[1..]);
    }
    RunCounters(env, Initial, es);
  }

  /** A failed forward changes no counter: the state after an event does not
      depend on the network's reply. */
  lemma CountersIgnoreTransport(env: Env, reply: Response, s: State, e: Event)
    ensures HandleMessage(env, s, e).state == HandleMessage(env, s, e.(reply := reply)).state
  {
  }

  /** Replies are per event: the same alert text may be lost once and
      delivered the next time, giving the forward, its notice and a second
      forward. */
  lemma SameAlertLostThenDelivered(env: Env, e: Event, ok: map<string, Json>)
    requires DetectsAlert(env, e)
    requires "ok" in ok && ok["ok"] == Bool(true)
    ensures |Run(env, Initial, [e.(reply := Timeout), e.(reply := Reply(200, Parsed(Object(ok))))]).sent| == 3
  {
    var es := [e.(reply := Timeout), e.(reply := Reply(200, Parsed(Object(ok))))];
    var first := HandleMessage(env, Initial, es[0]);
    assert |first.sent| == 2;
    var second := HandleMessage(env, first.state, es[1]);
    assert |second.sent| == 1;
    assert es[1..] == [es[1]];
    assert es[1..][1..] == [];
    assert Run(env, first.state, es[1..]).sent == second.sent + Run(env, second.state, []).sent;
  }

  /** An event without text is never an alert. */
  lemma MissingTextIsNoAlert(env: Env, s: State, e: Event)
    requires e.text.None?
    ensures HandleMessage(env, s, e).state == State(s.processed + 1, s.alerts)
    ensures HandleMessage(env, s, e).sent == []
  {
  }
}
