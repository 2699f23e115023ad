/**
 * The download registry of FileDownloader: the map from URL to DlState, the listener
 * callbacks fired by `download`, and the two continuations the HTTP client runs when a
 * request fails or its response arrives.
 */
module Downloader {

  import opened Wrappers
  import opened Lifecycle
  import opened Streaming

  /** The part of a bucket file descriptor the downloader reads. A null URL is modelled as "". */
  datatype BucketFile = BucketFile(url: string, name: string)

  /** Per-URL download state; the streaming loop updates its progress in place. */
  class DlState {
    const url: string
    var progress: int

    constructor (url: string)
      ensures this.url == url && progress == 0
    {
      this.url := url;
      progress := 0;
    }

    method SetProgress(p: int)
      modifies this
      ensures progress == p
    {
      progress := p;
    }
  }

  /** What the callback handed to the HTTP client captures: the request and the caller's arguments. */
  datatype Request = Request(url: string, savePath: string, name: string, listener: ListenerId)

  /**
   * An exception while handling a response, raised after `atChunk` chunks were fully processed:
   * 0 covers the body, the directory and the output file; |chunks| covers the final flush.
   */
  datatype StreamFault = StreamFault(atChunk: nat, message: string)

  /** The terminal callback of a handled response. */
  function ResponseOutcome(req: Request, fault: Option<StreamFault>): (cb: Callback)
    ensures cb.IsTerminal()
    ensures fault.None? <==> cb.OnFinished?
    ensures cb.OnFinished? ==> cb.path == req.savePath + req.name
    ensures cb.OnError? ==> cb.message == fault.value.message
  {
    match fault
    case None => OnFinished(req.savePath + req.name)
    case Some(f) => OnError(f.message)
  }

  /** The chunks the read loop handles before the stream ends or the fault is raised. */
  function Streamed(chunks: seq<seq<byte>>, fault: Option<StreamFault>): (done: seq<seq<byte>>)
    requires fault.Some? ==> fault.value.atChunk <= |chunks|
    ensures done <= chunks
    ensures fault.None? ==> done == chunks
    ensures fault.Some? ==> |done| == fault.value.atChunk
  {
    match fault
    case None => chunks
    case Some(f) => chunks[..f.atChunk]
  }

  /**
   * The onProgress events of one download for the given progress values, each fired while
   * the URL is registered and after the same value was stored in its DlState.
   */
  function ProgressEvents(ticket: nat, listener: ListenerId, ps: seq<int>): (es: seq<Event>)
    ensures |es| == |ps|
    ensures forall k | 0 <= k < |es| :: es[k] == Event(ticket, listener, OnProgress(ps[k]), true, ps[k])
  {
    seq(|ps|, k requires 0 <= k < |ps| => Event(ticket, listener, OnProgress(ps[k]), true, ps[k]))
  }

  /** The URLs of the enqueued requests. */
  function UrlsOf(enqueued: map<nat, Request>): (urls: set<string>)
    ensures forall t | t in enqueued :: enqueued[t].url in urls
  {
    set t | t in enqueued :: enqueued[t].url
  }

  /** At most one enqueued request per URL. */
  ghost predicate OnePerUrl(enqueued: map<nat, Request>) {
    forall t1, t2 | t1 in enqueued && t2 in enqueued && enqueued[t1].url == enqueued[t2].url :: t1 == t2
  }

  /** Enqueueing a request for a URL not yet enqueued adds that URL and keeps one request per URL. */
  lemma UrlsAfterEnqueue(enqueued: map<nat, Request>, t: nat, r: Request)
    requires OnePerUrl(enqueued) && t !in enqueued && r.url !in UrlsOf(enqueued)
    ensures UrlsOf(enqueued[t := r]) == UrlsOf(enqueued) + {r.url}
    ensures OnePerUrl(enqueued[t := r])
  {
    var more := enqueued[t := r];
    forall u | u in UrlsOf(enqueued)
      ensures u in UrlsOf(more)
    {
      var t' :| t' in enqueued && enqueued[t'].url == u;
      assert t' in more && more[t'] == enqueued[t'];
    }
    assert more[t].url == r.url;
  }

  /** Running the continuation of a request removes exactly its URL. */
  lemma UrlsAfterContinuation(enqueued: map<nat, Request>, t: nat)
    requires OnePerUrl(enqueued) && t in enqueued
    ensures UrlsOf(enqueued - {t}) == UrlsOf(enqueued) - {enqueued[t].url}
    ensures OnePerUrl(enqueued - {t})
  {
    var rest := enqueued - {t};
    forall u | u in UrlsOf(enqueued) - {enqueued[t].url}
      ensures u in UrlsOf(rest)
    {
      var t' :| t' in enqueued && enqueued[t'].url == u;
      assert t' in rest;
    }
  }

  /** One more progress value adds one onProgress event at the end. */
  lemma ProgressEventsSnoc(ticket: nat, listener: ListenerId, ps: seq<int>, p: int)
    ensures ProgressEvents(ticket, listener, ps + [p])
         == ProgressEvents(ticket, listener, ps) + [Event(ticket, listener, OnProgress(p), true, p)]
  {
  }

  /** Logging the onProgress events of a pending download keeps the log well formed. */
  lemma {:induction false} LogProgressEvents(log: seq<Event>, pending: set<nat>, owners: seq<ListenerId>,
                                             ticket: nat, listener: ListenerId, ps: seq<int>)
    requires WellFormedLog(log, pending, owners) && ticket in pending && listener == owners[ticket]
    ensures WellFormedLog(log + ProgressEvents(ticket, listener, ps), pending, owners)
    decreases |ps|
  {
    if ps == [] {
      assert log + ProgressEvents(ticket, listener, ps) == log;
    } else {
      var init := ps[..|ps| - 1];
      var p := ps[|ps| - 1];
      assert init + [p] == ps;
      LogProgressEvents(log, pending, owners, ticket, listener, init);
      ProgressEventsSnoc(ticket, listener, init, p);
      var e := Event(ticket, listener, OnProgress(p), true, p);
      LogProgress(log + ProgressEvents(ticket, listener, init), pending, owners, e);
      assert log + ProgressEvents(ticket, listener, init) + [e] == log + ProgressEvents(ticket, listener, ps);
    }
  }

  /**
   * The registry holds exactly the URLs of the enqueued requests, one request per URL, each
   * entry's state belongs to its URL, "" is never a key, every request's listener is the owner
   * of its ticket, and the callback log is well formed.
   */
  ghost predicate Registry(runningTask: map<string, DlState>, enqueued: map<nat, Request>,
                           owners: seq<ListenerId>, events: seq<Event>)
  {
    && KeysMatch(runningTask, enqueued)
    && (forall t | t in enqueued :: t < |owners| && enqueued[t].listener == owners[t])
    && WellFormedLog(events, enqueued.Keys, owners)
  }

  /** The registry's keys are the URLs of the enqueued requests, one request per URL, and never "". */
  ghost predicate KeysMatch(runningTask: map<string, DlState>, enqueued: map<nat, Request>) {
    && "" !in runningTask
    && (forall u | u in runningTask :: runningTask[u].url == u)
    && runningTask.Keys == UrlsOf(enqueued)
    && OnePerUrl(enqueued)
  }

  /** Registering a state for a new URL while enqueueing its request under a new ticket keeps the keys matched. */
  lemma EnqueueKeepsKeys(runningTask: map<string, DlState>, enqueued: map<nat, Request>,
                         ticket: nat, st: DlState, req: Request)
    requires KeysMatch(runningTask, enqueued)
    requires ticket !in enqueued && req.url != "" && req.url !in runningTask && st.url == req.url
    ensures KeysMatch(runningTask[req.url := st], enqueued[ticket := req])
  {
    UrlsAfterEnqueue(enqueued, ticket, req);
    assert runningTask[req.url := st].Keys == runningTask.Keys + {req.url};
  }

  /**
   * Registering a fresh state for an unregistered URL, enqueueing its request under the next
   * ticket and logging onWating and onStart keeps the registry consistent and leaves the
   * callbacks of every other download unchanged.
   */
  lemma AcceptKeepsRegistry(runningTask: map<string, DlState>, enqueued: map<nat, Request>,
                            owners: seq<ListenerId>, events: seq<Event>, st: DlState, req: Request)
    requires Registry(runningTask, enqueued, owners, events)
    requires req.url != "" && req.url !in runningTask && st.url == req.url
    ensures Registry(runningTask[req.url := st], enqueued[|owners| := req], owners + [req.listener],
                     events + [Event(|owners|, req.listener, OnWating, true, 0),
                               Event(|owners|, req.listener, OnStart, true, 0)])
    ensures forall t: nat | t != |owners| ::
      Trace(events + [Event(|owners|, req.listener, OnWating, true, 0),
                      Event(|owners|, req.listener, OnStart, true, 0)], t) == Trace(events, t)
  {
    var ticket := |owners|;
    var more := [Event(ticket, req.listener, OnWating, true, 0), Event(ticket, req.listener, OnStart, true, 0)];
    LogAccept(events, enqueued.Keys, owners, req.listener);
    OtherTracesUnchanged(events, more, ticket);
    EnqueueKeepsKeys(runningTask, enqueued, ticket, st, req);
    var enqueued' := enqueued[ticket := req];
    var owners' := owners + [req.listener];
    assert enqueued'.Keys == enqueued.Keys + {ticket};
    forall t | t in enqueued'
      ensures t < |owners'| && enqueued'[t].listener == owners'[t]
    {
      if t != ticket {
        assert t in enqueued;
      }
    }
  }

  /**
   * Removing the URL and the request of a pending download and logging one terminal callback
   * for its listener keeps the registry consistent and leaves the callbacks of every other
   * download unchanged.
   */
  lemma ConcludeKeepsRegistry(runningTask: map<string, DlState>, enqueued: map<nat, Request>,
                              owners: seq<ListenerId>, events: seq<Event>, ticket: nat, e: Event)
    requires Registry(runningTask, enqueued, owners, events)
    requires ticket in enqueued
    requires e.ticket == ticket && e.listener == enqueued[ticket].listener && e.callback.IsTerminal()
    ensures Registry(runningTask - {enqueued[ticket].url}, enqueued - {ticket}, owners, events + [e])
    ensures forall t: nat | t != ticket :: Trace(events + [e], t) == Trace(events, t)
  {
    LogTerminal(events, enqueued.Keys, owners, e);
    OtherTracesUnchanged(events, [e], ticket);
    UrlsAfterContinuation(enqueued, ticket);
    assert (enqueued - {ticket}).Keys == enqueued.Keys - {ticket};
  }

  class FileDownloader {
    /** The registry: URL to the state of the download in progress for it. */
    var runningTask: map<string, DlState>
    /** Requests handed to the HTTP client whose continuation has not run yet, by ticket. */
    var enqueued: map<nat, Request>
    /** Every listener callback fired so far, in order. */
    ghost var events: seq<Event>
    /** Number of downloads accepted so far; the next accepted download gets this ticket. */
    var nextTicket: nat
    /** The listener of every download accepted so far, by ticket. */
    ghost var owners: seq<ListenerId>

    /** One owner per ticket issued, and the fields form a consistent registry. */
    ghost predicate Valid()
      reads this
    {
      nextTicket == |owners| && Registry(runningTask, enqueued, owners, events)
    }

    constructor ()
      ensures Valid()
      ensures runningTask == map[] && enqueued == map[] && events == [] && nextTicket == 0 && owners == []
    {
      runningTask := map[];
      enqueued := map[];
      events := [];
      nextTicket := 0;
      owners := [];
    }

    /** Whether `download` would start a transfer: a non-empty URL, a listener, and no transfer of that URL running. */
    predicate Accepts(url: string, listener: Option<ListenerId>)
      reads this
    {
      url != "" && listener.Some? && url !in runningTask
    }

    /** The effect of an accepted `download(url, savePath, name, listener)`. */
    twostate predicate Started(url: string, savePath: string, name: string, listener: ListenerId)
      reads this, runningTask.Values
    {
      && url in runningTask
      && runningTask == old(runningTask)[url := runningTask[url]]
      && fresh(runningTask[url])
      && runningTask[url].url == url && runningTask[url].progress == 0
      && enqueued == old(enqueued)[old(nextTicket) := Request(url, savePath, name, listener)]
      && nextTicket == old(nextTicket) + 1
      && owners == old(owners) + [listener]
      && events == old(events) + [Event(old(nextTicket), listener, OnWating, true, 0),
                                  Event(old(nextTicket), listener, OnStart, true, 0)]
      && (forall t: nat | t != old(nextTicket) :: Trace(events, t) == Trace(old(events), t))
    }

    /** download(url, savePath, name, listener) */
    method Download(url: string, savePath: string, name: string, listener: Option<ListenerId>)
      requires Valid()
      modifies this
      ensures Valid()
      ensures !old(Accepts(url, listener)) ==> unchanged(this)
      ensures old(Accepts(url, listener)) ==> Started(url, savePath, name, listener.value)
    {
      if url == "" || listener.None? {
        return;
      }
      if url in runningTask {
        return;
      }
      Accept(url, savePath, name, listener.value);
    }

    /**
     * The accepting branch of `download`: register a fresh DlState for the URL, fire onWating
     * and onStart while it is registered, and hand the request to the HTTP client.
     */
    method Accept(url: string, savePath: string, name: string, listener: ListenerId)
      requires Valid()
      requires url != "" && url !in runningTask
      modifies this
      ensures Valid()
      ensures Started(url, savePath, name, listener)
    {
      var ticket := nextTicket;
      var st := new DlState(url);
      AcceptKeepsRegistry(runningTask, enqueued, owners, events, st, Request(url, savePath, name, listener));
      runningTask := runningTask[url := st];
      events := events + [Event(ticket, listener, OnWating, url in runningTask, st.progress),
                          Event(ticket, listener, OnStart, url in runningTask, st.progress)];
      enqueued := enqueued[ticket := Request(url, savePath, name, listener)];
      nextTicket := nextTicket + 1;
      owners := owners + [listener];
    }

    /** download(bucketFile, listener), with the local directory the path helper computes for it. */
    method DownloadBucketFile(bucketFile: BucketFile, localPath: string, listener: Option<ListenerId>)
      requires Valid()
      modifies this
      ensures Valid()
      ensures !old(Accepts(bucketFile.url, listener)) ==> unchanged(this)
      ensures old(Accepts(bucketFile.url, listener)) ==> Started(bucketFile.url, localPath, bucketFile.name, listener.value)
    {
      if listener.None? {
        return;
      }
      Download(bucketFile.url, localPath, bucketFile.name, listener);
    }

    /** The transport-failure continuation: onError fires, then the URL is removed. */
    method OnFailure(ticket: nat, message: string)
      requires Valid()
      requires ticket in enqueued
      modifies this`runningTask, this`enqueued, this`events
      ensures Valid()
      ensures runningTask == old(runningTask) - {old(enqueued[ticket].url)}
      ensures enqueued == old(enqueued) - {ticket}
      ensures events == old(events) + [Event(ticket, old(enqueued[ticket].listener), OnError(message), true,
                                             old(runningTask[enqueued[ticket].url].progress))]
      ensures forall t: nat | t != ticket :: Trace(events, t) == Trace(old(events), t)
      ensures forall bf: BucketFile | bf.url == old(enqueued[ticket].url) :: !IsDownloading(Some(bf))
    {
      Conclude(ticket, OnError(message), false);
    }

    /**
     * The last step of both continuations: the URL leaves the registry, the request is spent
     * and the terminal callback fires. `removeFirst` says whether the URL is removed before
     * the callback fires (a handled response) or after it (transport failure); either way
     * the DlState the URL was mapped to keeps its progress.
     */
    method Conclude(ticket: nat, callback: Callback, removeFirst: bool)
      requires Valid()
      requires ticket in enqueued && callback.IsTerminal()
      modifies this`runningTask, this`enqueued, this`events
      ensures Valid()
      ensures runningTask == old(runningTask) - {old(enqueued[ticket].url)}
      ensures enqueued == old(enqueued) - {ticket}
      ensures events == old(events) + [Event(ticket, old(enqueued[ticket].listener), callback, !removeFirst,
                                             old(runningTask[enqueued[ticket].url].progress))]
      ensures forall t: nat | t != ticket :: Trace(events, t) == Trace(old(events), t)
      ensures forall bf: BucketFile | bf.url == old(enqueued[ticket].url) :: !IsDownloading(Some(bf))
    {
      var req := enqueued[ticket];
      ghost var st := runningTask[req.url];
      if removeFirst {
        runningTask := runningTask - {req.url};
        ghost var e := Event(ticket, req.listener, callback, req.url in runningTask, st.progress);
        assert !e.registered;
        ConcludeKeepsRegistry(old(runningTask), enqueued, owners, events, ticket, e);
        events := events + [e];
      } else {
        ghost var e := Event(ticket, req.listener, callback, req.url in runningTask, st.progress);
        assert e.registered;
        ConcludeKeepsRegistry(runningTask, enqueued, owners, events, ticket, e);
        events := events + [e];
        runningTask := runningTask - {req.url};
      }
      enqueued := enqueued - {ticket};
    }

    /**
     * The response continuation: the body arrives as `chunks` and each is written out, added
     * to the running total and reported as progress; `fault` is the exception, if any, raised
     * while doing so. `total` is the announced content length and `toPercent` the progress
     * formula applied to the running total and `total`. Either way the URL is removed before
     * the terminal callback fires.
     */
    method OnResponse(ticket: nat, total: int, chunks: seq<seq<byte>>, fault: Option<StreamFault>,
                      toPercent: (int, int) -> int)
      returns (written: seq<byte>)
      requires Valid()
      requires ticket in enqueued
      requires fault.Some? ==> fault.value.atChunk <= |chunks|
      modifies this`runningTask, this`enqueued, this`events, runningTask[enqueued[ticket].url]
      ensures Valid()
      ensures written == Concat(Streamed(chunks, fault))
      ensures runningTask == old(runningTask) - {old(enqueued[ticket].url)}
      ensures enqueued == old(enqueued) - {ticket}
      ensures events == old(events)
        + ProgressEvents(ticket, old(enqueued[ticket].listener),
                         Percents(Streamed(chunks, fault), total, toPercent))
        + [Event(ticket, old(enqueued[ticket].listener), ResponseOutcome(old(enqueued[ticket]), fault), false,
                 old(runningTask[enqueued[ticket].url]).progress)]
      ensures forall t: nat | t != ticket :: Trace(events, t) == Trace(old(events), t)
      ensures |Streamed(chunks, fault)| > 0 ==>
        old(runningTask[enqueued[ticket].url]).progress == toPercent(|written|, total)
      ensures |Streamed(chunks, fault)| == 0 ==>
        old(runningTask[enqueued[ticket].url]).progress == old(runningTask[enqueued[ticket].url].progress)
      ensures forall bf: BucketFile | bf.url == old(enqueued[ticket].url) :: !IsDownloading(Some(bf))
    {
      var req := enqueued[ticket];
      var st := runningTask[req.url];
      var body := Streamed(chunks, fault);
      ghost var log := events;
      written := ReadBody(ticket, req.listener, st, total, body, toPercent);
      ghost var es := ProgressEvents(ticket, req.listener, Percents(body, total, toPercent));
      LogProgressEvents(log, enqueued.Keys, owners, ticket, req.listener, Percents(body, total, toPercent));
      OtherTracesUnchanged(log, es, ticket);
      ConcatLength(body);
      Conclude(ticket, ResponseOutcome(req, fault), true);
    }

    /**
     * The read loop of the response continuation: each chunk is written out, added to the
     * running total `sum`, stored as the progress of `st` and then passed to onProgress. Each
     * onProgress event records whether the URL of `st` is registered and the progress `st`
     * holds when it fires.
     */
    method ReadBody(ticket: nat, listener: ListenerId, st: DlState, total: int, chunks: seq<seq<byte>>,
                    toPercent: (int, int) -> int)
      returns (written: seq<byte>)
      requires st.url in runningTask
      modifies this`events, st
      ensures written == Concat(chunks)
      ensures events == old(events) + ProgressEvents(ticket, listener, Percents(chunks, total, toPercent))
      ensures |chunks| > 0 ==> st.progress == toPercent(Sum(chunks), total)
      ensures |chunks| == 0 ==> st.progress == old(st.progress)
    {
      written := [];
      var sum := 0;
      var k := 0;
      while k < |chunks|
        invariant 0 <= k <= |chunks|
        invariant sum == Sum(chunks[..k])
        invariant written == Concat(chunks[..k])
        invariant events == old(events) + ProgressEvents(ticket, listener, Percents(chunks[..k], total, toPercent))
        invariant k > 0 ==> st.progress == toPercent(sum, total)
        invariant k == 0 ==> st.progress == old(st.progress)
      {
        var chunk := chunks[k];
        ReadOneMore(chunks, k);
        written := written + chunk;
        sum := sum + |chunk|;
        var p := toPercent(sum, total);
        st.SetProgress(p);
        ghost var ps := Percents(chunks[..k], total, toPercent);
        PercentsSnoc(chunks, total, toPercent, k);
        ProgressEventsSnoc(ticket, listener, ps, p);
        events := events + [Event(ticket, listener, OnProgress(p), st.url in runningTask, st.progress)];
        k := k + 1;
      }
      assert chunks[..k] == chunks;
    }

    /** isDownloading(bucketFile) */
    function IsDownloading(bucketFile: Option<BucketFile>): (r: bool)
      reads this
      requires Valid()
      ensures r <==> bucketFile.Some? && exists t :: t in enqueued && enqueued[t].url == bucketFile.value.url
      ensures r ==> bucketFile.value.url != ""
    {
      bucketFile.Some? && bucketFile.value.url in runningTask
    }

    /** getDownloadState(bucketFile) */
    function GetDownloadState(bucketFile: Option<BucketFile>): (r: DlState?)
      reads this
      requires Valid()
      ensures r != null <==> IsDownloading(bucketFile)
      ensures r != null ==> r.url == bucketFile.value.url
    {
      if bucketFile.None? then null
      else if bucketFile.value.url in runningTask then runningTask[bucketFile.value.url]
      else null
    }
  }

  /**
   * Every download the registry accepted got onWating and onStart and, once its continuation
   * ran, exactly one terminal callback, and every callback it fired went to the listener it
   * was accepted with.
   */
  lemma OneTerminalPerAcceptedDownload(d: FileDownloader, t: nat)
    requires d.Valid()
    requires t < d.nextTicket
    ensures Trace(d.events, t)[..2] == [OnWating, OnStart]
    ensures forall i | 0 <= i < |d.events| && d.events[i].ticket == t :: d.events[i].listener == d.owners[t]
    ensures t in d.enqueued ==> d.enqueued[t].listener == d.owners[t]
    ensures Terminals(Trace(d.events, t)) == if t in d.enqueued then 0 else 1
  {
    OneTerminalPerDownload(d.events, d.enqueued.Keys, d.owners, t);
  }
}
