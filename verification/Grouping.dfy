/** Grouping a capture into sessions: the in-memory reference the on-disk spool
    must equal. */
module Grouping {
  import opened Bytes

  datatype Event = Event(
    sessionId: nat, ts: int, query: string, db: Option<string>, user: Option<string>, fingerprintId: nat)

  /** Session ids in order of first appearance. */
  function Order(events: seq<Event>): seq<nat> {
    if events == [] then []
    else
      var n := |events| - 1;
      var o := Order(events[..n]);
      if events[n].sessionId in o then o else o + [events[n].sessionId]
  }

  /** The events of one session, in capture order. */
  function Of(events: seq<Event>, sid: nat): seq<Event> {
    if events == [] then []
    else
      var n := |events| - 1;
      Of(events[..n], sid) + if events[n].sessionId == sid then [events[n]] else []
  }

  /** One list of events per session. */
  function Groups(events: seq<Event>): (r: seq<seq<Event>>)
    ensures |r| == |Order(events)| && forall i | 0 <= i < |r| :: r[i] == Of(events, Order(events)[i])
  {
    var order := Order(events);
    seq(|order|, i requires 0 <= i < |order| => Of(events, order[i]))
  }

  lemma {:induction false} OrderSnoc(events: seq<Event>, e: Event)
    ensures Order(events + [e]) ==
            if e.sessionId in Order(events) then Order(events) else Order(events) + [e.sessionId]
  {
    assert (events + [e])[..|events|] == events;
  }

  lemma {:induction false} OfSnoc(events: seq<Event>, e: Event, sid: nat)
    ensures Of(events + [e], sid) == Of(events, sid) + if e.sessionId == sid then [e] else []
  {
    assert (events + [e])[..|events|] == events;
  }

  /** Ids are listed once each, and exactly those that have events. */
  lemma {:induction false} OrderIsExact(events: seq<Event>)
    ensures forall i, j | 0 <= i < j < |Order(events)| :: Order(events)[i] != Order(events)[j]
    ensures forall sid :: sid in Order(events) <==> Of(events, sid) != []
    ensures forall e | e in events :: e.sessionId in Order(events)
  {
    if events != [] {
      var n := |events| - 1;
      OrderIsExact(events[..n]);
      assert events == events[..n] + [events[n]];
      OrderSnoc(events[..n], events[n]);
      forall sid ensures sid in Order(events) <==> Of(events, sid) != [] {
        if sid >= 0 { OfSnoc(events[..n], events[n], sid); }
      }
    }
  }

  /** The loop of `group_sessions`: a map of lists and the order of its keys. */
  method GroupSessions(events: seq<Event>) returns (r: seq<seq<Event>>)
    ensures r == Groups(events)
  {
    hide Of, Order;
    var order: seq<nat> := [];
    var groups: map<nat, seq<Event>> := map[];
    assert events[..0] == [] && Order([]) == [] by { OrderNil(); }
    for k := 0 to |events|
      invariant order == Order(events[..k])
      invariant forall sid: nat :: sid in groups <==> sid in order
      invariant forall sid | sid in groups :: groups[sid] == Of(events[..k], sid)
    {
      var e := events[k];
      assert events[..k + 1] == events[..k] + [e];
      OrderSnoc(events[..k], e);
      OrderIsExact(events[..k]);
      forall sid: nat ensures Of(events[..k + 1], sid) ==
                              Of(events[..k], sid) + if e.sessionId == sid then [e] else [] {
        OfSnoc(events[..k], e, sid);
      }
      if e.sessionId in groups {
        groups := groups[e.sessionId := groups[e.sessionId] + [e]];
      } else {
        assert Of(events[..k], e.sessionId) == [];
        order := order + [e.sessionId];
        groups := groups[e.sessionId := [e]];
      }
    }
    assert events[..|events|] == events;
    r := [];
    for i := 0 to |order|
      invariant |r| == i && forall j | 0 <= j < i :: r[j] == Of(events, order[j])
    {
      assert order[i] in order;
      r := r + [groups[order[i]]];
    }
  }

  lemma {:induction false} OrderNil()
    ensures Order([]) == [] && forall sid :: Of([], sid) == []
  {
  }
}
