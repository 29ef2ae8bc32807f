/** Sessions against the events alone: which are live, when each was last heard from, and that the keepalive
    pings and closes only sessions that have been silent long enough. */
module WsIdle {
  import opened WsSessions

  datatype Heard = Never | At(time: real)

  // ----- The events alone -----

  function HeardAfter(h: Hub, e: Event, sid: SessionId, heard: Heard): Heard {
    match e
    case Register(at, s, _) => if s == sid && |h.sessions| < 100 then At(at) else heard
    case Touch(at, s) => if s == sid then At(at) else heard
    case _ => heard
  }

  function LiveAfter(h: Hub, e: Event, sid: SessionId, live: bool): bool {
    match e
    case Register(_, s, _) => (s == sid && |h.sessions| < 100) || live
    case Unregister(_, s) => s != sid && live
    case SendFailed(_, s) => s != sid && live
    case Visit(_) => live && !(h.phase.Visiting? && h.phase.todo != [] && h.phase.todo[0] == sid && sid in h.pings)
    case _ => live
  }

  /** When the session was last registered or touched. */
  ghost function LastHeard(events: seq<Event>, sid: SessionId): Heard {
    if events == [] then Never
    else
      var front, e := events[..|events| - 1], events[|events| - 1];
      if Enabled(Run(front), e) then HeardAfter(Run(front), e, sid, LastHeard(front, sid)) else LastHeard(front, sid)
  }

  /** The session was registered, and since then neither unregistered, nor lost by a failed send, nor found by
      the keepalive with its ping unanswered. */
  ghost function LiveBy(events: seq<Event>, sid: SessionId): bool {
    if events == [] then false
    else
      var front, e := events[..|events| - 1], events[|events| - 1];
      if Enabled(Run(front), e) then LiveAfter(Run(front), e, sid, LiveBy(front, sid)) else LiveBy(front, sid)
  }

  // ----- The invariant -----

  /** A live session's activity is when it was last heard from, and a ping is pending only on a session that
      had been silent for more than 30 minutes when the ping was sent. */
  ghost predicate Fits(h: Hub, sid: SessionId, live: bool, heard: Heard) {
    && (sid in h.sessions <==> live) && (sid in h.activity <==> live)
    && (live ==> heard == At(h.activity[sid]))
    && (sid in h.pings ==> live && h.pings[sid] - h.activity[sid] > 1800.0)
  }

  ghost predicate PendingIsOverdue(h: Hub) {
    h.phase.Visiting? && h.phase.todo != [] && h.phase.todo[0] in h.pings ==>
      PingExpired(h, h.phase.todo[0], h.phase.now)
  }

  lemma {:induction false} StepFits(h: Hub, e: Event, sid: SessionId, live: bool, heard: Heard)
    requires Fits(h, sid, live, heard) && PendingIsOverdue(h) && Enabled(h, e)
    ensures Fits(Step(h, e), sid, LiveAfter(h, e, sid, live), HeardAfter(h, e, sid, heard))
  {
    hide IsSnapshot;
  }

  lemma {:induction false} PendingPingIsOverdue(events: seq<Event>)
    ensures PendingIsOverdue(Run(events))
  {
    var h := Run(events);
    if h.phase.Visiting? && h.phase.todo != [] && h.phase.todo[0] in h.pings {
      assert Enabled(h, Visit(h.clock));
      PendingPingIsAlwaysClosed(events, h.clock);
      hide Run;
      ClosedMeansOverdue(h, h.clock);
    }
  }

  lemma {:induction false} ClosedMeansOverdue(h: Hub, at: real)
    requires h.phase.Visiting? && h.phase.todo != [] && h.phase.todo[0] in h.pings
    requires h.phase.todo[0] !in Step(h, Visit(at)).pings
    ensures PingExpired(h, h.phase.todo[0], h.phase.now)
  {
  }

  // ----- Main results -----

  /** After any run, a session is live just when its events say so, and its activity is the time of its last
      registration or touch. */
  lemma {:induction false} SessionsAreToldByEvents(events: seq<Event>, sid: SessionId)
    ensures Fits(Run(events), sid, LiveBy(events, sid), LastHeard(events, sid))
  {
    if events != [] {
      hide Fits, Step, Enabled, PendingIsOverdue;
      var front, e := events[..|events| - 1], events[|events| - 1];
      SessionsAreToldByEvents(front, sid);
      PendingPingIsOverdue(front);
      if Enabled(Run(front), e) {
        StepFits(Run(front), e, sid, LiveBy(front, sid), LastHeard(front, sid));
      }
    }
  }

  /** The keepalive pings the session it visits, unless a ping is pending, exactly if nothing was heard from it
      for more than 30 minutes when the tick began; it closes a session exactly if it visits one whose ping is
      pending; and then nothing was heard for more than 30 minutes and 10 seconds. */
  lemma {:induction false} KeepaliveActsAfterSilence(events: seq<Event>, at: real, sid: SessionId)
    requires Enabled(Run(events), Visit(at)) && sid in Run(events).sessions
    ensures var h, h' := Run(events), Step(Run(events), Visit(at));
            && LastHeard(events, sid).At?
            && h.phase.Visiting? && h.phase.todo != [] && h.phase.now <= at
            && (sid !in h.pings ==> (sid in h'.pings <==>
                  h.phase.todo[0] == sid && h.phase.now - LastHeard(events, sid).time > 1800.0))
            && (sid !in h'.sessions <==> h.phase.todo[0] == sid && sid in h.pings)
            && (sid !in h'.sessions ==> at - LastHeard(events, sid).time > 1810.0)
  {
    SessionsAreToldByEvents(events, sid);
    EveryRunIsGood(events);
    PendingPingIsOverdue(events);
    hide Run, LastHeard, LiveBy, IsSnapshot;
  }
}
