/**
 * The server-sent event stream of a session: it polls for one event after its cursor at a time,
 * while the session's operations go on between its reads.
 */
module EventStream {
  import opened Options
  import opened Sessions
  import opened SessionSafety

  /** What a read finds: the rows of the log and whether the session is closed; or it fails. */
  datatype Read = Seen(events: seq<Event>, closed: bool) | Unavailable

  /** How a stream ends: by the session's closing, or cut off by a failed read, a deadline or the peer. */
  datatype End = ByClosing | CutOff

  /** The rows with a sequence after the cursor, in order. */
  function EventsAfter(events: seq<Event>, cursor: nat): seq<Event> {
    if events == [] then [] else
    var last := events[|events| - 1];
    EventsAfter(events[..|events| - 1], cursor) + (if last.sequence > cursor then [last] else [])
  }

  /** A page of at most `limit` of those rows. */
  function Page(events: seq<Event>, cursor: nat, limit: nat): seq<Event> {
    var rows := EventsAfter(events, cursor);
    if |rows| <= limit then rows else rows[..limit]
  }

  lemma {:induction false} EventsAfterIs(events: seq<Event>, cursor: nat)
    requires forall i :: 0 <= i < |events| ==> events[i].sequence == i + 1
    ensures EventsAfter(events, cursor) == events[if cursor < |events| then cursor else |events|..]
  {
    if events != [] {
      var front, last := events[..|events| - 1], events[|events| - 1];
      EventsAfterIs(front, cursor);
      assert events == front + [last];
    }
  }

  // ----- what reads of one session have in common --------------------------------------------

  /** A log without gaps whose closing event, if any, is the last. */
  ghost predicate Sound(log: seq<Event>, closed: bool) {
    forall i :: 0 <= i < |log| ==>
      log[i].sequence == i + 1 && (log[i].kind.SessionClosed? ==> closed && i == |log| - 1)
  }

  /** A read sees a part of the log, and all of it once the session is closed. */
  ghost predicate Honest(log: seq<Event>, closed: bool, r: Read) {
    r.Seen? ==> r.events <= log && (r.closed ==> closed && r.events == log)
  }

  ghost predicate AllHonest(log: seq<Event>, closed: bool, polls: seq<Read>) {
    && Sound(log, closed)
    && (forall i :: 0 <= i < |polls| ==> Honest(log, closed, polls[i]))
    && (forall i, j :: 0 <= i < j < |polls| && polls[i].Seen? && polls[j].Seen? && polls[i].closed ==> polls[j].closed)
  }

  /** The read of a session as it is after the first `time` operations. */
  function ReadAt(ops: seq<Operation>, time: nat): Read
    requires time <= |ops|
  {
    Seen(Run(ops[..time]).events, Run(ops[..time]).state.Closed?)
  }

  /** Whatever the writers do: reads at successive moments of any history are honest about its log. */
  lemma {:induction false} ReadsHonest(ops: seq<Operation>, times: seq<nat>, polls: seq<Read>)
    requires |times| == |polls|
    requires forall i :: 0 <= i < |times| ==> times[i] <= |ops|
    requires forall i, j :: 0 <= i < j < |times| ==> times[i] <= times[j]
    requires forall i :: 0 <= i < |polls| ==> polls[i] == Unavailable || polls[i] == ReadAt(ops, times[i])
    ensures AllHonest(Run(ops).events, Run(ops).state.Closed?, polls)
  {
    LogSound(ops);
    forall i | 0 <= i < |polls| ensures Honest(Run(ops).events, Run(ops).state.Closed?, polls[i]) {
      ReadHonest(ops, times[i]);
    }
    forall i, j | 0 <= i < j < |polls| && polls[i].Seen? && polls[j].Seen? && polls[i].closed ensures polls[j].closed {
      ClosedStays(ops, times[i], times[j]);
    }
  }

  lemma {:induction false} LogSound(ops: seq<Operation>)
    ensures Sound(Run(ops).events, Run(ops).state.Closed?)
  {
    RunKeeps(ops);
  }

  lemma {:induction false} ReadHonest(ops: seq<Operation>, time: nat)
    requires time <= |ops|
    ensures Honest(Run(ops).events, Run(ops).state.Closed?, ReadAt(ops, time))
  {
    CommittedForever(ops, time);
    RunKeeps(ops[..time]);
    RunKeeps(ops);
    var seen, log := Run(ops[..time]).events, Run(ops).events;
    if Run(ops[..time]).state.Closed? {
      assert log[|seen| - 1] == seen[|seen| - 1];
    }
  }

  lemma {:induction false} ClosedStays(ops: seq<Operation>, earlier: nat, later: nat)
    requires earlier <= later <= |ops| && Run(ops[..earlier]).state.Closed?
    ensures Run(ops[..later]).state.Closed?
  {
    assert ops[..later][..earlier] == ops[..earlier];
    CommittedForever(ops[..later], earlier);
  }

  // ----- the stream --------------------------------------------------------------------------

  /** What a stream from `start` has written when its cursor is there. */
  ghost predicate Covered(log: seq<Event>, start: nat, cursor: nat, delivered: seq<Event>) {
    && cursor == start + |delivered|
    && (delivered != [] ==> cursor <= |log| && delivered == log[start..cursor])
  }

  /** A page is the next part of the whole log, and a closing event in it is the log's last. */
  lemma {:induction false} PageIsNext(log: seq<Event>, closed: bool, r: Read, cursor: nat, limit: nat)
    requires Sound(log, closed) && r.Seen? && Honest(log, closed, r) && limit > 0
    ensures var page := Page(r.events, cursor, limit);
            && (page == [] <==> |r.events| <= cursor)
            && (page != [] ==> cursor + |page| <= |log| && page == log[cursor..cursor + |page|])
            && (forall i :: 0 <= i < |page| ==> page[i].sequence == cursor + i + 1)
            && (forall i :: 0 <= i < |page| && page[i].kind.SessionClosed? ==> closed && cursor + |page| == |log|)
  {
    EventsAfterIs(r.events, cursor);
    var page := Page(r.events, cursor, limit);
    forall i | 0 <= i < |page| ensures page[i] == log[cursor + i] {
      assert r.events[cursor + i] == log[cursor + i];
    }
  }

  /** Reads the next page and says what it is of the whole log. */
  method Poll(r: Read, cursor: nat, ghost log: seq<Event>, ghost closed: bool) returns (page: seq<Event>)
    requires Sound(log, closed) && r.Seen? && Honest(log, closed, r)
    ensures page == [] ==> |r.events| <= cursor
    ensures page != [] ==> cursor + |page| <= |log| && page == log[cursor..cursor + |page|]
    ensures forall i :: 0 <= i < |page| ==> page[i].sequence == cursor + i + 1
    ensures (exists i :: 0 <= i < |page| && page[i].kind.SessionClosed?) ==> closed && cursor + |page| == |log|
  {
    page := Page(r.events, cursor, 1);
    PageIsNext(log, closed, r, cursor, 1);
  }

  lemma {:induction false} CoveredMore(log: seq<Event>, start: nat, cursor: nat, delivered: seq<Event>,
                                       page: seq<Event>)
    requires Covered(log, start, cursor, delivered)
    requires page != [] ==> cursor + |page| <= |log| && page == log[cursor..cursor + |page|]
    ensures Covered(log, start, cursor + |page|, delivered + page)
  {
    if page == [] {
      assert delivered + page == delivered;
    }
  }

  /** Writes out the events of a page that follow the cursor. */
  method Deliver(page: seq<Event>, after: nat, before: seq<Event>)
    returns (cursor: nat, delivered: seq<Event>, sent: bool, closedSent: bool)
    requires forall i :: 0 <= i < |page| ==> page[i].sequence == after + i + 1
    ensures cursor == after + |page| && delivered == before + page && (sent <==> page != [])
    ensures closedSent <==> exists i :: 0 <= i < |page| && page[i].kind.SessionClosed?
  {
    cursor, delivered, sent, closedSent := after, before, false, false;
    for i := 0 to |page|
      invariant cursor == after + i && delivered == before + page[..i] && (sent <==> i > 0)
      invariant closedSent <==> exists j :: 0 <= j < i && page[j].kind.SessionClosed?
    {
      if page[i].sequence <= cursor {
        continue;
      }
      delivered := delivered + [page[i]];
      cursor := page[i].sequence;
      sent := true;
      closedSent := closedSent || page[i].kind == SessionClosed;
    }
  }

  /**
   * The streaming loop, resumed after event `start`. It delivers start + 1, start + 2, ... without
   * gap or repetition, and when it ends by the session's closing it has delivered every event
   * after `start` that there will ever be. When the polls run out, the stream is cut off.
   */
  method Replay(polls: seq<Read>, start: nat, ghost log: seq<Event>, ghost closed: bool)
    returns (delivered: seq<Event>, end: End)
    requires AllHonest(log, closed, polls)
    ensures Covered(log, start, start + |delivered|, delivered)
    ensures end.ByClosing? ==> closed && |log| <= start + |delivered|
  {
    var cursor := start;
    var next := 0;
    delivered, end := [], CutOff;
    while next < |polls|
      invariant 0 <= next <= |polls|
      invariant Covered(log, start, cursor, delivered)
    {
      if polls[next].Unavailable? {
        return;
      }
      var page := Poll(polls[next], cursor, log, closed);
      CoveredMore(log, start, cursor, delivered, page);
      next := next + 1;
      var sent, closedSent;
      cursor, delivered, sent, closedSent := Deliver(page, cursor, delivered);
      if closedSent {
        end := ByClosing;
        return;
      }
      if !sent {
        if next == |polls| || polls[next].Unavailable? {
          return;
        }
        var over := polls[next].closed;
        next := next + 1;
        if over {
          if next == |polls| || polls[next].Unavailable? {
            return;
          }
          var rest := Poll(polls[next], cursor, log, closed);
          if rest == [] {
            end := ByClosing;
            return;
          }
          next := next + 1;
        }
      }
    }
  }
}
