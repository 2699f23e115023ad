# FileDownloader: the download registry as a verified state machine

This project models the core of the desktop client's `FileDownloader`. That class is a
process-wide downloader. It accepts requests keyed by URL and ignores a second request for
a URL that is already downloading. It streams each response body to a local file, reports
progress to a `DownloadListener`, and answers "is this file downloading?" and "what is its
state?" queries.

The model has four modules:

- `Lifecycle` (lifecycle.dfy) holds the listener callbacks (`onWating`, `onStart`,
  `onProgress`, `onFinished`, `onError`) and the log of callbacks as they fired. Each entry
  records which accepted download fired it and which listener received it. It also records
  two things about that moment: whether the URL was still in the registry (`registered`),
  which is what `isDownloading` would answer from inside the callback, and the progress the
  download's `DlState` held (`stored`), which is what `getDownloadState` returns while
  `registered` is true.
  - It defines the order the callbacks of one download must follow: `onWating`, `onStart`,
    any number of `onProgress`, then one terminal callback. Every callback of a download
    must go to the listener that download was accepted with.
  - The lemmas prove that each step of the downloader keeps the whole log in that shape.
- `Streaming` (streaming.dfy) models the read loop on values: the chunks returned by
  successive reads, the running total `sum`, the bytes written and the progress values
  reported.
- `Downloader` (file_downloader.dfy) holds the mutable objects.
  - `DlState` is a class whose `progress` the read loop updates in place.
  - `FileDownloader` is a class holding:
    - `runningTask: map<string, DlState>`, the registry;
    - `enqueued`, the requests handed to the HTTP client whose continuation has not run yet,
      keyed by a ticket numbered in order of acceptance;
    - `events`, the callback log, and `owners`, the listener of each accepted download by
      ticket. Both are ghost: they are the model's record, not state of the source.
  - `Download` and `DownloadBucketFile` model the two `download` overloads.
  - `OnFailure` and `OnResponse` model the two continuations. The environment calls them
    once per enqueued request. `ReadBody` is the `while` loop inside `onResponse`.
    `Accept` is the accepting branch of `download`. `Conclude` is the final step shared by
    both continuations: it removes the URL and fires the terminal callback.
  - `IsDownloading` and `GetDownloadState` are the two queries.
  - `Valid()` is the class invariant, stated on the field values by `Registry`. It says the
    registry's keys are exactly the URLs of the enqueued requests, with one request per URL
    (deduplication), that each entry's `DlState` belongs to its URL, that each request's
    listener is the owner of its ticket, and that the callback log is well formed.
- `Scenarios` (scenarios.dfy) holds verified client methods:
  - a duplicate request and a request with an empty URL;
  - a transport failure;
  - a response that fails before its first chunk.

Inputs that come from outside the class are parameters:

- a listener is an `Option<ListenerId>`, with `None` standing for `null`;
- a failed transport call is `OnFailure(ticket, message)`;
- a received body is its sequence of chunks, plus an optional `StreamFault` saying after how
  many chunks an exception was raised;
- the announced content length is `total`;
- the progress formula is the function parameter `toPercent`;
- the local directory that the path helper computes for a bucket file is `localPath`.

Observations the model makes explicit:

- The two continuations order their last steps differently. `onFailure` fires `onError`
  and then removes the URL, so the URL is still registered inside that callback.
  `onResponse` removes the URL and then fires `onFinished` or `onError`.
- The path passed to `onFinished` is `savePath + name` with no separator. The file itself
  is opened as `new File(savePath, name)`.
- A request whose URL is already registered fires no callback at all. The second caller is
  never notified.

## Model

| member | source | states |
|---|---|---|
| `Downloader.FileDownloader.constructor` | src/com/cmlanche/bloghelper/downloader/FileDownloader.java:40-41 | a new downloader has an empty registry, nothing enqueued, no callbacks and no accepted downloads, and satisfies the invariant |
| `Downloader.FileDownloader.Download` | src/com/cmlanche/bloghelper/downloader/FileDownloader.java:51-67 | an empty URL, a null listener or an already registered URL leaves every field unchanged. Otherwise the URL gains a fresh DlState with progress 0 and every other entry is kept. One request is enqueued and its listener becomes the owner of the next ticket. Exactly onWating then onStart are logged for that listener while the URL is registered, and the callbacks of every other download are unchanged. The dedup invariant is preserved |
| `Downloader.FileDownloader.Accept` | src/com/cmlanche/bloghelper/downloader/FileDownloader.java:58-67 | the accepting branch: the URL gains a fresh DlState with progress 0 and every other entry is kept. onWating then onStart are logged for the listener while the URL is registered and progress is 0. One request is enqueued under the next ticket, owned by that listener. Other downloads' callbacks are unchanged and the invariant is preserved |
| `Downloader.FileDownloader.DownloadBucketFile` | src/com/cmlanche/bloghelper/downloader/FileDownloader.java:43-46 | a null listener is a no-op; otherwise it has the effect of download(url, local path, name, listener) |
| `Downloader.FileDownloader.OnFailure` | src/com/cmlanche/bloghelper/downloader/FileDownloader.java:68-73 | transport failure logs exactly one onError with the message, for the request's listener, while the URL is still registered, then removes the URL and the request. Other downloads' callbacks are unchanged, and afterwards isDownloading is false for that URL |
| `Downloader.FileDownloader.Conclude` | src/com/cmlanche/bloghelper/downloader/FileDownloader.java:100-106 | ending a download removes exactly its URL and its request and logs exactly one terminal callback for its listener, recording the progress its DlState holds. The callback fires after the removal when `removeFirst` holds (onResponse) and before it otherwise (onFailure); the event's `registered` flag is read from the registry at that point. Other downloads' callbacks are unchanged, the invariant is kept, and isDownloading is false for that URL |
| `Downloader.FileDownloader.OnResponse` | src/com/cmlanche/bloghelper/downloader/FileDownloader.java:75-121 | the bytes written are the concatenation of the chunks handled before the stream ended or the fault. There is one onProgress per handled chunk, each fired when the DlState already holds the value it reports. Then the URL is removed and exactly one terminal callback follows: onFinished(savePath + name) if no fault, onError(message) otherwise. The DlState ends with the last reported progress, or keeps its old progress if no chunk was handled. Other downloads' callbacks are unchanged, and isDownloading is false afterwards |
| `Downloader.FileDownloader.ReadBody` | src/com/cmlanche/bloghelper/downloader/FileDownloader.java:90-99 | the read loop writes the chunks in order and logs one onProgress per chunk, with the formula applied to the bytes read so far. At each onProgress the DlState already holds the reported value. The DlState ends with the last value, or is unchanged if there were no chunks |
| `Downloader.FileDownloader.IsDownloading` | src/com/cmlanche/bloghelper/downloader/FileDownloader.java:131-134 | false for null; otherwise true exactly when a request for that URL is enqueued and its continuation has not run; never true for an empty URL |
| `Downloader.FileDownloader.GetDownloadState` | src/com/cmlanche/bloghelper/downloader/FileDownloader.java:142-147 | non-null exactly when isDownloading holds, and then the state belongs to the queried URL |
| `Downloader.DlState.constructor` | src/com/cmlanche/bloghelper/downloader/FileDownloader.java:58 | a new state records its URL and progress 0 |
| `Downloader.DlState.SetProgress` | src/com/cmlanche/bloghelper/downloader/FileDownloader.java:96 | the stored progress becomes the given value |
| `Downloader.ResponseOutcome` | src/com/cmlanche/bloghelper/downloader/FileDownloader.java:100-106 | the terminal callback of a response is onFinished exactly when no exception was raised, with path savePath + name (no separator), and otherwise onError with the exception's message |
| `Downloader.Streamed` | src/com/cmlanche/bloghelper/downloader/FileDownloader.java:92-106 | the chunks handled are a prefix of the body: all of it without a fault, the first `atChunk` with one |
| `Downloader.UrlsAfterEnqueue` | src/com/cmlanche/bloghelper/downloader/FileDownloader.java:54-58 | registering a URL that is not yet enqueued adds exactly that URL and keeps one request per URL |
| `Downloader.AcceptKeepsRegistry` | src/com/cmlanche/bloghelper/downloader/FileDownloader.java:58-67 | registering a fresh state for an unregistered URL, enqueueing its request under the next ticket and logging onWating, onStart keeps the registry consistent and leaves every other download's callbacks unchanged |
| `Downloader.EnqueueKeepsKeys` | src/com/cmlanche/bloghelper/downloader/FileDownloader.java:54-58 | registering a state for a new URL while enqueueing its request keeps the keys equal to the enqueued URLs, one request per URL, and "" out |
| `Downloader.ConcludeKeepsRegistry` | src/com/cmlanche/bloghelper/downloader/FileDownloader.java:71-72 | removing the URL and request of a pending download and logging one terminal callback for its listener keeps the registry consistent and leaves every other download's callbacks unchanged |
| `Downloader.UrlsAfterContinuation` | src/com/cmlanche/bloghelper/downloader/FileDownloader.java:72 | with one request per URL, finishing a request removes exactly its URL from the enqueued URLs |
| `Downloader.LogProgressEvents` | src/com/cmlanche/bloghelper/downloader/FileDownloader.java:92-99 | any number of onProgress callbacks to the listener of a pending download keep the callback log well formed |
| `Downloader.OneTerminalPerAcceptedDownload` | src/com/cmlanche/bloghelper/downloader/FileDownloader.java:58-106 | in any valid downloader, every accepted download began with onWating, onStart. All its callbacks went to the listener it was accepted with. It has had no terminal callback while enqueued and exactly one once its continuation ran |
| `Lifecycle.LogAccept` | src/com/cmlanche/bloghelper/downloader/FileDownloader.java:58-62 | logging onWating, onStart for a listener under a new ticket keeps the log well formed, makes the ticket pending and makes that listener its owner |
| `Lifecycle.LogProgress` | src/com/cmlanche/bloghelper/downloader/FileDownloader.java:98 | an onProgress to the listener of a pending download keeps the log well formed |
| `Lifecycle.LogTerminal` | src/com/cmlanche/bloghelper/downloader/FileDownloader.java:71-72 | a terminal callback to the listener of a pending download keeps the log well formed and ends that download |
| `Lifecycle.OneTerminalPerDownload` | src/com/cmlanche/bloghelper/downloader/FileDownloader.java:67-122 | in a well-formed log every accepted download starts with onWating, onStart, all its callbacks go to its owner, and it has 0 terminal callbacks while pending and exactly 1 afterwards |
| `Lifecycle.InFlightHasNoTerminal` | src/com/cmlanche/bloghelper/downloader/FileDownloader.java:60-62 | a download that has not ended has had neither onFinished nor onError |
| `Lifecycle.CompletedHasOneTerminal` | src/com/cmlanche/bloghelper/downloader/FileDownloader.java:103-106 | an ended download has had exactly one of onFinished and onError, and it was its last callback |
| `Lifecycle.OtherTracesUnchanged` | src/com/cmlanche/bloghelper/downloader/FileDownloader.java:67-122 | callbacks fired by one download leave the callback sequence of every other download unchanged |
| `Streaming.ReadOneMore` | src/com/cmlanche/bloghelper/downloader/FileDownloader.java:92-94 | reading one more chunk adds its length to `sum` and appends its bytes to the output |
| `Streaming.ConcatLength` | src/com/cmlanche/bloghelper/downloader/FileDownloader.java:93-94 | `sum` equals the number of bytes written |
| `Streaming.ConcatPrefix` | src/com/cmlanche/bloghelper/downloader/FileDownloader.java:93 | bytes written for a prefix of the chunks are a prefix of the bytes written for all of them |
| `Streaming.SumPrefixMonotone` | src/com/cmlanche/bloghelper/downloader/FileDownloader.java:94 | the running total never decreases |
| `Streaming.PercentAt` | src/com/cmlanche/bloghelper/downloader/FileDownloader.java:94-98 | the k-th onProgress value is the formula applied to the total of the first k+1 chunks |
| `Streaming.PercentsNonDecreasing` | src/com/cmlanche/bloghelper/downloader/FileDownloader.java:95-98 | if the formula is monotone in the byte total, the reported progress values never decrease |

## Left out

- A URL the HTTP client rejects is not modelled. The request is built
  (FileDownloader.java:66) only after the URL is registered and after `onWating` and
  `onStart` have fired. For a URL such as "foo", with no http or https scheme, the builder
  throws and `download` throws with it. Nothing is enqueued, no terminal callback ever fires,
  and the URL stays in the registry, so every later request for it is skipped. The model can
  show this only as a ticket whose continuation never runs. The exception the caller
  receives is lost.
- The HTTP client is not modelled. That covers its lazy creation, building the request,
  `enqueue`, and the worker threads. The environment calls `OnFailure` or `OnResponse`
  once per enqueued request, and each call is one atomic step.
- Races on the unsynchronised `HashMap` are not modelled, because every step is atomic.
- Logging calls and the singleton holder are not modelled.
- The filesystem is not modelled: `mkdirs`, opening the output stream, `flush`, and closing
  both streams in `finally`. The model returns the bytes written as a sequence. An
  exception from any of these steps appears as a `StreamFault` at chunk 0 or after the last
  chunk. Errors while closing are only logged by the source.
- The progress formula `(int)(sum * 1.0f / total * 100)` is float arithmetic. It is the
  parameter `toPercent`, and the model claims no bound on it. A content length of 0 or -1
  makes the real formula return the float-to-int cast of Infinity or NaN, or a negative
  value.
- OnResponse: if an exception interrupts a write, the part of that chunk already written is
  not modelled. Only fully handled chunks appear in the written bytes.
- The 2048-byte read buffer is not modelled. Chunk boundaries are an input, and no property
  depends on chunk sizes.
- The 64-bit `long` total and its overflow are not modelled.
- The listener's own code is not modelled. Callbacks are assumed to return normally. In the
  source, a listener that throws from `onFinished` reaches the `catch` block and also gets
  `onError`. A listener that throws from `onError` inside `onFailure` leaves its URL
  registered forever.
- DownloadBucketFile: a null bucket file with a non-null listener throws
  `NullPointerException` in the source. That case is not modelled.
- A null URL is modelled as the empty string. `StringUtils.isEmpty` treats both alike, and
  neither is ever a registry key, so the queries answer the same for both.
- `BucketUtils.getLocalBucketPath` is not part of this model. Its result is the `localPath`
  parameter.
- The body of `DlState` is not part of this model. The model assumes a constructor that
  records the URL with progress 0, and `setProgress`.
- `ResManager` only checks that a file exists and builds a JavaFX image, and `ListSetter`
  is an interface declaration. Neither has logic to model.
