/** Scenarios of the downloader's behaviour, written as clients of the model. */
module Scenarios {

  import opened Wrappers
  import opened Lifecycle
  import opened Downloader

  /** Two requests for one URL: the second fires nothing and enqueues nothing; a request with an empty URL fires nothing. */
  method DuplicateAndEmptyRequests(url: string, listener1: ListenerId, listener2: ListenerId)
    requires url != ""
  {
    var d := new FileDownloader();
    d.Download(url, "/tmp/", "a.png", Some(listener1));
    assert d.events == [Event(0, listener1, OnWating, true, 0), Event(0, listener1, OnStart, true, 0)];
    d.Download(url, "/tmp/", "b.png", Some(listener2));
    assert d.events == [Event(0, listener1, OnWating, true, 0), Event(0, listener1, OnStart, true, 0)];
    assert d.enqueued.Keys == {0} && d.owners == [listener1];
    d.Download("", "/tmp/", "c.png", Some(listener2));
    assert d.nextTicket == 1;
  }

  /** A transport failure ends the download with one onError and takes its URL out of the registry. */
  method FailedDownload(url: string, listener: ListenerId)
    requires url != ""
  {
    var d := new FileDownloader();
    d.Download(url, "/tmp/", "a.png", Some(listener));
    assert d.IsDownloading(Some(BucketFile(url, "a.png")));
    d.OnFailure(0, "connection reset");
    assert !d.IsDownloading(Some(BucketFile(url, "a.png")));
    assert d.events[2] == Event(0, listener, OnError("connection reset"), true, 0);
    OneTerminalPerAcceptedDownload(d, 0);
    assert Terminals(Trace(d.events, 0)) == 1;
  }

  /** A response whose handling fails before the first chunk leaves the stored progress at 0 and writes nothing. */
  method ResponseFailsBeforeBody(url: string, listener: ListenerId, toPercent: (int, int) -> int)
    requires url != ""
  {
    var d := new FileDownloader();
    d.Download(url, "/tmp/", "a.png", Some(listener));
    var st := d.GetDownloadState(Some(BucketFile(url, "a.png")));
    var written := d.OnResponse(0, 100, [[1, 2], [3]], Some(StreamFault(0, "disk full")), toPercent);
    assert written == [] && st.progress == 0;
  }
}
