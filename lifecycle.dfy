/**
 * The listener side of a download: the callbacks a DownloadListener receives,
 * the log in which the model records them, and the order in which the callbacks
 * of one accepted download must arrive.
 */
module Lifecycle {

  /** Identity of a DownloadListener object supplied by a caller. */
  type ListenerId = nat

  /** The five listener callbacks. `OnWating` keeps the spelling of the listener method it models. */
  datatype Callback =
    | OnWating
    | OnStart
    | OnProgress(percent: int)
    | OnFinished(path: string)
    | OnError(message: string)
  {
    /** onFinished and onError end a download. */
    predicate IsTerminal() {
      OnFinished? || OnError?
    }
  }

  /**
   * One callback as it fired: the ticket of the accepted download whose code fired it,
   * the listener it went to, whether the URL was still a key of the registry at that
   * moment (what `isDownloading` would have answered from inside the callback), and the
   * progress the download's DlState held at that moment, which is what `getDownloadState`
   * returns while `registered` is true.
   */
  datatype Event = Event(ticket: nat, listener: ListenerId, callback: Callback, registered: bool, stored: int)

  /** The callbacks fired for one download, in the order they fired. */
  function Trace(log: seq<Event>, ticket: nat): (tr: seq<Callback>)
    ensures |tr| <= |log|
  {
    if log == [] then []
    else
      var last := log[|log| - 1];
      Trace(log[..|log| - 1], ticket) + if last.ticket == ticket then [last.callback] else []
  }

  /** Number of terminal callbacks in a sequence of callbacks. */
  function Terminals(tr: seq<Callback>): nat {
    if tr == [] then 0
    else Terminals(tr[..|tr| - 1]) + if tr[|tr| - 1].IsTerminal() then 1 else 0
  }

  /** A download that has been accepted and has not ended: onWating, onStart, then only onProgress. */
  predicate InFlight(tr: seq<Callback>) {
    && |tr| >= 2
    && tr[0] == OnWating
    && tr[1] == OnStart
    && forall k | 2 <= k < |tr| :: tr[k].OnProgress?
  }

  /** A download that has ended: an in-flight trace followed by one terminal callback. */
  predicate Completed(tr: seq<Callback>) {
    && |tr| >= 3
    && InFlight(tr[..|tr| - 1])
    && tr[|tr| - 1].IsTerminal()
  }

  /**
   * The log is well formed for the downloads accepted so far, `owners[t]` being the listener
   * of the download with ticket `t`: every callback went to the listener of its download,
   * every pending download has an in-flight trace and every other one a completed trace.
   */
  ghost predicate WellFormedLog(log: seq<Event>, pending: set<nat>, owners: seq<ListenerId>) {
    && (forall i | 0 <= i < |log| :: log[i].ticket < |owners| && log[i].listener == owners[log[i].ticket])
    && (forall t | t in pending :: t < |owners|)
    && (forall t: nat | t < |owners| :: if t in pending then InFlight(Trace(log, t)) else Completed(Trace(log, t)))
  }

  /** The callbacks of one download in a log split at any point are those of each part, in order. */
  lemma {:induction false} TraceConcat(a: seq<Event>, b: seq<Event>, ticket: nat)
    ensures Trace(a + b, ticket) == Trace(a, ticket) + Trace(b, ticket)
    decreases |b|
  {
    if b == [] {
      assert a + b == a;
    } else {
      var b' := b[..|b| - 1];
      assert (a + b)[..|a + b| - 1] == a + b';
      TraceConcat(a, b', ticket);
    }
  }

  /** Appending one event extends the trace of its own ticket only. */
  lemma TraceSnoc(log: seq<Event>, e: Event, ticket: nat)
    ensures Trace(log + [e], ticket) == Trace(log, ticket) + if e.ticket == ticket then [e.callback] else []
  {
    assert (log + [e])[..|log|] == log;
  }

  /** A ticket no event carries has an empty trace. */
  lemma {:induction false} TraceOfUnusedTicket(log: seq<Event>, ticket: nat)
    requires forall i | 0 <= i < |log| :: log[i].ticket != ticket
    ensures Trace(log, ticket) == []
  {
    if log != [] {
      TraceOfUnusedTicket(log[..|log| - 1], ticket);
    }
  }

  /** Callbacks of one download leave the trace of every other download unchanged. */
  lemma OtherTracesUnchanged(log: seq<Event>, more: seq<Event>, ticket: nat)
    requires forall i | 0 <= i < |more| :: more[i].ticket == ticket
    ensures forall t: nat | t != ticket :: Trace(log + more, t) == Trace(log, t)
  {
    forall t: nat | t != ticket
      ensures Trace(log + more, t) == Trace(log, t)
    {
      TraceConcat(log, more, t);
      TraceOfUnusedTicket(more, t);
    }
  }

  /** Only terminal callbacks are counted. */
  lemma {:induction false} NoTerminalCounted(tr: seq<Callback>)
    requires forall k | 0 <= k < |tr| :: !tr[k].IsTerminal()
    ensures Terminals(tr) == 0
  {
    if tr != [] {
      NoTerminalCounted(tr[..|tr| - 1]);
    }
  }

  /** A download in flight has had no terminal callback. */
  lemma InFlightHasNoTerminal(tr: seq<Callback>)
    requires InFlight(tr)
    ensures Terminals(tr) == 0
  {
    NoTerminalCounted(tr);
  }

  /** A completed download has had exactly one terminal callback, and it was the last one. */
  lemma CompletedHasOneTerminal(tr: seq<Callback>)
    requires Completed(tr)
    ensures Terminals(tr) == 1
    ensures forall k | 0 <= k < |tr| - 1 :: !tr[k].IsTerminal()
  {
    InFlightHasNoTerminal(tr[..|tr| - 1]);
  }

  /** Accepting a download under the next ticket logs onWating then onStart for its listener and makes it pending. */
  lemma LogAccept(log: seq<Event>, pending: set<nat>, owners: seq<ListenerId>, listener: ListenerId)
    requires WellFormedLog(log, pending, owners)
    ensures WellFormedLog(log + [Event(|owners|, listener, OnWating, true, 0), Event(|owners|, listener, OnStart, true, 0)],
                          pending + {|owners|}, owners + [listener])
  {
    var next := |owners|;
    var w := Event(next, listener, OnWating, true, 0);
    var st := Event(next, listener, OnStart, true, 0);
    assert log + [w, st] == log + [w] + [st];
    forall t: nat | t < next + 1
      ensures if t in pending + {next} then InFlight(Trace(log + [w, st], t)) else Completed(Trace(log + [w, st], t))
    {
      TraceSnoc(log, w, t);
      TraceSnoc(log + [w], st, t);
      if t == next {
        TraceOfUnusedTicket(log, t);
      } else {
        assert Trace(log + [w, st], t) == Trace(log, t);
      }
    }
  }

  /** Logging an onProgress to the listener of a pending download keeps the log well formed. */
  lemma LogProgress(log: seq<Event>, pending: set<nat>, owners: seq<ListenerId>, e: Event)
    requires WellFormedLog(log, pending, owners)
    requires e.ticket in pending && e.listener == owners[e.ticket] && e.callback.OnProgress?
    ensures WellFormedLog(log + [e], pending, owners)
  {
    var log' := log + [e];
    forall i | 0 <= i < |log'|
      ensures log'[i].ticket < |owners| && log'[i].listener == owners[log'[i].ticket]
    {
      if i < |log| {
        assert log'[i] == log[i];
      } else {
        assert log'[i] == e;
      }
    }
    forall t: nat | t < |owners|
      ensures if t in pending then InFlight(Trace(log + [e], t)) else Completed(Trace(log + [e], t))
    {
      TraceSnoc(log, e, t);
    }
  }

  /** Logging a terminal callback to the listener of a pending download ends it. */
  lemma LogTerminal(log: seq<Event>, pending: set<nat>, owners: seq<ListenerId>, e: Event)
    requires WellFormedLog(log, pending, owners)
    requires e.ticket in pending && e.listener == owners[e.ticket] && e.callback.IsTerminal()
    ensures WellFormedLog(log + [e], pending - {e.ticket}, owners)
  {
    var log' := log + [e];
    forall i | 0 <= i < |log'|
      ensures log'[i].ticket < |owners| && log'[i].listener == owners[log'[i].ticket]
    {
      if i < |log| {
        assert log'[i] == log[i];
      } else {
        assert log'[i] == e;
      }
    }
    forall t: nat | t < |owners|
      ensures if t in pending - {e.ticket} then InFlight(Trace(log + [e], t)) else Completed(Trace(log + [e], t))
    {
      TraceSnoc(log, e, t);
      if t == e.ticket {
        var tr := Trace(log + [e], t);
        assert tr[..|tr| - 1] == Trace(log, t);
      }
    }
  }

  /**
   * In a well-formed log every accepted download began with onWating and onStart, all its
   * callbacks went to its own listener, and it has had no terminal callback while it is
   * pending and exactly one once it is not.
   */
  lemma OneTerminalPerDownload(log: seq<Event>, pending: set<nat>, owners: seq<ListenerId>, t: nat)
    requires WellFormedLog(log, pending, owners)
    requires t < |owners|
    ensures Trace(log, t)[..2] == [OnWating, OnStart]
    ensures forall i | 0 <= i < |log| && log[i].ticket == t :: log[i].listener == owners[t]
    ensures Terminals(Trace(log, t)) == if t in pending then 0 else 1
  {
    var tr := Trace(log, t);
    if t in pending {
      InFlightHasNoTerminal(tr);
    } else {
      CompletedHasOneTerminal(tr);
    }
  }
}
