/** What passes between the platform bridge filter, the platform filter and the filter manager. */
module BridgeTypes {
  import opened Wrappers

  type Headers = seq<(Bytes, Bytes)>

  /** Header names are stored in lower case. */
  function LowerName(name: Bytes): (lower: Bytes)
    ensures |lower| == |name|
  {
    seq(|name|, i requires 0 <= i < |name| => if 65 <= name[i] <= 90 then name[i] + 32 else name[i])
  }

  function LowerNames(headers: Headers): Headers {
    seq(|headers|, i requires 0 <= i < |headers| => (LowerName(headers[i].0), headers[i].1))
  }

  function LowerPending(headers: Option<Headers>): Option<Headers> {
    if headers.Some? then Some(LowerNames(headers.value)) else None
  }

  datatype IterationState = Ongoing | Stopped

  datatype Direction = Decoding | Encoding

  /** Statuses returned to the filter manager. */
  datatype Status = Continue | StopIteration | StopIterationAndBuffer | StopIterationNoBuffer

  /** Answers of the platform filter. Unsupported stands for every status the bridge panics on. */
  datatype HeadersAnswer =
    | HeadersContinue(headers: Headers)
    | HeadersStop
    | HeadersUnsupported

  datatype DataAnswer =
    | DataContinue(data: Bytes)
    | DataStopAndBuffer
    | DataStopNoBuffer
    | DataResume(data: Bytes, pendingHeaders: Option<Headers>)
    | DataUnsupported

  datatype TrailersAnswer =
    | TrailersContinue(trailers: Headers)
    | TrailersStop
    | TrailersResume(trailers: Headers, pendingHeaders: Option<Headers>, pendingData: Option<Bytes>)
    | TrailersUnsupported

  datatype ResumeAnswer =
    ResumeAnswer(resume: bool, pendingHeaders: Option<Headers>, pendingData: Option<Bytes>, pendingTrailers: Option<Headers>)

  /** What the platform filter was shown by one call. */
  datatype Seen =
    | SeenHeaders(headers: Headers, endStream: bool)
    | SeenData(data: Bytes, endStream: bool)
    | SeenTrailers(trailers: Headers)
    | SeenResume(pendingHeaders: Option<Headers>, pendingData: Option<Bytes>, pendingTrailers: Option<Headers>,
                 endStream: bool)

  /** A call either returns or aborts the process (RELEASE_ASSERT, PANIC or a null dereference). */
  datatype Outcome<+T> = Returned(value: T) | Aborted
}
