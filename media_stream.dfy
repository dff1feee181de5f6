/** One video stream of the virtual camera's media source: its lifecycle
    state, the Media Foundation objects it holds (modelled by presence), and
    the events it queues. Calls into Media Foundation objects are inputs:
    each is the HRESULT that call returned. */
module Streams {
  import opened HResults

  /** MF_STREAM_STATE values. */
  const STOPPED: int := 0
  const PAUSED: int := 1
  const RUNNING: int := 2

  predicate IsStreamState(v: int) {
    v == STOPPED || v == PAUSED || v == RUNNING
  }

  /** Samples the allocator is initialised with on Start. */
  const SAMPLE_POOL: nat := 10

  /** Duration given to every sample, in 100 ns units (1/30 s). */
  const SAMPLE_DURATION: int := 333333

  /** An opaque token passed to RequestSample. */
  datatype Token = Token(id: nat)

  /** The events a stream puts on its queue. `Queued` is one a client put
      there through QueueEvent. */
  datatype Event =
    | StreamStarted
    | StreamStopped
    | MediaSample(time: int, duration: int, token: Option<Token>)
    | Queued(kind: int, status: HResult)

  /** MFSampleAllocatorUsage. */
  datatype AllocatorUsage = UsesProvidedAllocator | UsesCustomAllocator | DoesNotAllocate

  /** Results of the two foreign calls Start and Stop make: the allocator's
      (un)initialisation and the queueing of the event. */
  datatype Calls = Calls(allocator: HResult, queue: HResult)

  /** Results of the foreign calls RequestSample makes, in order. */
  datatype SampleCalls = SampleCalls(
    allocate: HResult,
    removeBuffers: HResult,
    setTime: HResult,
    setDuration: HResult,
    setToken: HResult,
    queue: HResult)

  /** Results of the foreign calls Initialize makes: the four attribute
      writes, the queue creation, the media type creation, the descriptor
      creation, and getting the handler plus setting its current type. */
  datatype InitCalls = InitCalls(
    attributes: HResult,
    queue: HResult,
    mediaType: HResult,
    descriptor: HResult,
    handler: HResult)

  class MediaStream {
    var state: int
    var index: int
    var hasQueue: bool
    var hasAllocator: bool
    var hasDescriptor: bool
    var hasSource: bool
    var hasAttributes: bool
    /** Identifier of the stream descriptor, given at its creation. */
    var descriptorId: int
    /** Samples the allocator was last initialised with; 0 when it is not. */
    var allocatorSamples: nat
    /** Every event queued on the stream's queue, oldest first. */
    var events: seq<Event>
    /** Configuration pushed down by the media source. */
    var url: string
    var resolution: Option<(nat, nat)>

    /** What every operation keeps: a known state, objects created in the
        order Initialize creates them, and an allocator that is either
        uninitialised or holds the pool Start asked for. */
    ghost predicate Valid()
      reads this`state, this`hasDescriptor, this`hasQueue, this`hasSource,
            this`allocatorSamples, this`hasAllocator
    {
      && IsStreamState(state)
      && (hasDescriptor ==> hasQueue)
      && (hasQueue ==> hasSource)
      && (allocatorSamples == 0 || (allocatorSamples == SAMPLE_POOL && hasAllocator))
    }

    constructor ()
      ensures Valid()
      ensures state == STOPPED && index == 0
      ensures !hasQueue && !hasAllocator && !hasDescriptor && !hasSource && hasAttributes
      ensures allocatorSamples == 0 && events == [] && url == [] && resolution == None
    {
      state := STOPPED;
      index := 0;
      hasQueue, hasAllocator, hasDescriptor, hasSource := false, false, false, false;
      hasAttributes := true;
      descriptorId := 0;
      allocatorSamples := 0;
      events := [];
      url := [];
      resolution := None;
    }

    /** Ties the stream to its source and index, then creates its queue and
        its descriptor, whose identifier is the index. */
    method Initialize(sourcePresent: bool, idx: int, c: InitCalls) returns (hr: HResult)
      requires Valid() && !hasQueue && !hasDescriptor
      modifies this
      ensures Valid()
      ensures hr == (if !sourcePresent then E_POINTER
                     else FirstFailed([c.attributes, c.queue, c.mediaType, c.descriptor, c.handler]))
      ensures !sourcePresent ==> hasSource == old(hasSource) && index == old(index)
      ensures sourcePresent ==> hasSource && index == idx
      ensures hasQueue <==> sourcePresent && Succeeded(c.attributes) && Succeeded(c.queue)
      ensures hasDescriptor <==> hasQueue && Succeeded(c.mediaType) && Succeeded(c.descriptor)
      ensures hasDescriptor ==> descriptorId == idx
      ensures state == old(state) && events == old(events) && hasAllocator == old(hasAllocator)
      ensures allocatorSamples == old(allocatorSamples) && hasAttributes == old(hasAttributes)
      ensures url == old(url) && resolution == old(resolution)
    {
      if !sourcePresent {
        return E_POINTER;
      }
      ghost var rs := [c.attributes, c.queue, c.mediaType, c.descriptor, c.handler];
      hasSource := true;
      index := idx;
      if Failed(c.attributes) {
        FirstFailedAt(rs, 0);
        return c.attributes;
      }
      if Failed(c.queue) {
        FirstFailedAt(rs, 1);
        return c.queue;
      }
      hasQueue := true;
      if Failed(c.mediaType) {
        FirstFailedAt(rs, 2);
        return c.mediaType;
      }
      if Failed(c.descriptor) {
        FirstFailedAt(rs, 3);
        return c.descriptor;
      }
      hasDescriptor := true;
      descriptorId := idx;
      if Failed(c.handler) {
        FirstFailedAt(rs, 4);
        return c.handler;
      }
      return S_OK;
    }

    /** What Start or Stop returns: MF_E_SHUTDOWN without a queue or an
        allocator, else the first failing foreign call. */
    function LifecycleResult(c: Calls): (hr: HResult)
      reads this`hasQueue, this`hasAllocator
      ensures hr == S_OK <==> hasQueue && hasAllocator && Succeeded(c.allocator) && Succeeded(c.queue)
      ensures !hasQueue || !hasAllocator ==> hr == MF_E_SHUTDOWN
      ensures hasQueue && hasAllocator && Failed(c.allocator) ==> hr == c.allocator
      ensures hasQueue && hasAllocator && Succeeded(c.allocator) && Failed(c.queue) ==> hr == c.queue
    {
      if !hasQueue || !hasAllocator then MF_E_SHUTDOWN
      else if Failed(c.allocator) then c.allocator
      else Forward(c.queue)
    }

    /** Initialises the allocator with ten samples, queues MEStreamStarted and
        only then enters RUNNING. */
    method Start(c: Calls) returns (hr: HResult)
      requires Valid()
      modifies this`allocatorSamples, this`events, this`state
      ensures Valid()
      ensures hr == old(LifecycleResult(c))
      ensures allocatorSamples ==
                (if hasQueue && hasAllocator && Succeeded(c.allocator) then SAMPLE_POOL
                 else old(allocatorSamples))
      ensures hr == S_OK ==> state == RUNNING && events == old(events) + [StreamStarted]
      ensures hr != S_OK ==> state == old(state) && events == old(events)
    {
      if !hasQueue || !hasAllocator {
        return MF_E_SHUTDOWN;
      }
      if Failed(c.allocator) {
        return c.allocator;
      }
      allocatorSamples := SAMPLE_POOL;
      if Failed(c.queue) {
        return c.queue;
      }
      events := events + [StreamStarted];
      state := RUNNING;
      return S_OK;
    }

    /** Uninitialises the allocator, queues MEStreamStopped and only then
        enters STOPPED. */
    method Stop(c: Calls) returns (hr: HResult)
      requires Valid()
      modifies this`allocatorSamples, this`events, this`state
      ensures Valid()
      ensures hr == old(LifecycleResult(c))
      ensures allocatorSamples ==
                (if hasQueue && hasAllocator && Succeeded(c.allocator) then 0
                 else old(allocatorSamples))
      ensures hr == S_OK ==> state == STOPPED && events == old(events) + [StreamStopped]
      ensures hr != S_OK ==> state == old(state) && events == old(events)
    {
      if !hasQueue || !hasAllocator {
        return MF_E_SHUTDOWN;
      }
      if Failed(c.allocator) {
        return c.allocator;
      }
      allocatorSamples := 0;
      if Failed(c.queue) {
        return c.queue;
      }
      events := events + [StreamStopped];
      state := STOPPED;
      return S_OK;
    }

    /** The stream always uses the allocator it is given. */
    function GetAllocatorUsage(): (usage: AllocatorUsage)
      ensures usage == UsesProvidedAllocator
    {
      UsesProvidedAllocator
    }

    /** Drops the current allocator and takes the one given, if it has the
        sample-allocator interface (`query` is QueryInterface's result). A
        newly set allocator is uninitialised. */
    method SetAllocator(allocatorPresent: bool, query: HResult) returns (hr: HResult)
      requires Valid()
      modifies this`hasAllocator, this`allocatorSamples
      ensures Valid()
      ensures !allocatorPresent ==> hr == E_POINTER && hasAllocator == old(hasAllocator)
                                    && allocatorSamples == old(allocatorSamples)
      ensures allocatorPresent ==> hr == query && (hasAllocator <==> Succeeded(query))
                                   && allocatorSamples == 0
    {
      if !allocatorPresent {
        return E_POINTER;
      }
      hasAllocator, allocatorSamples := false, 0;
      if Succeeded(query) {
        hasAllocator := true;
      }
      return query;
    }

    /** Shuts the queue down (its result is only logged) and releases the
        queue, the descriptor, the source and the attribute store. The
        allocator and the state stay. */
    method Shutdown()
      requires Valid()
      modifies this`hasQueue, this`hasDescriptor, this`hasSource, this`hasAttributes
      ensures Valid()
      ensures !hasQueue && !hasDescriptor && !hasSource && !hasAttributes
    {
      hasQueue := false;
      hasDescriptor := false;
      hasSource := false;
      hasAttributes := false;
    }

    /* IMFMediaEventGenerator: the queue does the work; the stream only
       guards. `queue` is the queue's own result. Delivery from the queue is
       the queue's business and is not modelled: `events` keeps everything
       ever queued. */

    method BeginGetEvent(queue: HResult) returns (hr: HResult)
      ensures hr == (if !hasQueue then MF_E_SHUTDOWN else Forward(queue))
    {
      if !hasQueue {
        return MF_E_SHUTDOWN;
      }
      return Forward(queue);
    }

    method EndGetEvent(outPresent: bool, queue: HResult) returns (hr: HResult)
      ensures hr == (if !outPresent then E_POINTER
                     else if !hasQueue then MF_E_SHUTDOWN
                     else Forward(queue))
    {
      if !outPresent {
        return E_POINTER;
      }
      if !hasQueue {
        return MF_E_SHUTDOWN;
      }
      return Forward(queue);
    }

    method GetEvent(outPresent: bool, queue: HResult) returns (hr: HResult)
      ensures hr == (if !outPresent then E_POINTER
                     else if !hasQueue then MF_E_SHUTDOWN
                     else Forward(queue))
    {
      if !outPresent {
        return E_POINTER;
      }
      if !hasQueue {
        return MF_E_SHUTDOWN;
      }
      return Forward(queue);
    }

    /** Puts a client's event on the queue. */
    method QueueEvent(kind: int, status: HResult, queue: HResult) returns (hr: HResult)
      requires Valid()
      modifies this`events
      ensures Valid()
      ensures hr == (if !hasQueue then MF_E_SHUTDOWN else Forward(queue))
      ensures events == old(events) + (if hr == S_OK then [Queued(kind, status)] else [])
    {
      if !hasQueue {
        return MF_E_SHUTDOWN;
      }
      if Failed(queue) {
        return queue;
      }
      events := events + [Queued(kind, status)];
      return S_OK;
    }

    /* IMFMediaStream */

    method GetMediaSource(outPresent: bool) returns (hr: HResult)
      ensures hr == (if !outPresent then E_POINTER else if !hasSource then MF_E_SHUTDOWN else S_OK)
    {
      if !outPresent {
        return E_POINTER;
      }
      if !hasSource {
        return MF_E_SHUTDOWN;
      }
      return S_OK;
    }

    method GetStreamDescriptor(outPresent: bool) returns (hr: HResult)
      ensures hr == (if !outPresent then E_POINTER else if !hasDescriptor then MF_E_SHUTDOWN else S_OK)
    {
      if !outPresent {
        return E_POINTER;
      }
      if !hasDescriptor {
        return MF_E_SHUTDOWN;
      }
      return S_OK;
    }

    /** Allocates a sample, stamps it with `now` and a 1/30 s duration,
        attaches the token when there is one, and queues it. The stream's
        state is not consulted. */
    method RequestSample(token: Option<Token>, now: int, c: SampleCalls) returns (hr: HResult)
      requires Valid()
      modifies this`events
      ensures Valid()
      ensures hr == (if !hasAllocator || !hasQueue then MF_E_SHUTDOWN
                     else FirstFailed([c.allocate, c.removeBuffers, c.setTime, c.setDuration]
                                      + (if token.Some? then [c.setToken] else [])
                                      + [c.queue]))
      ensures events == old(events) + (if hr == S_OK then [MediaSample(now, SAMPLE_DURATION, token)] else [])
    {
      if !hasAllocator || !hasQueue {
        return MF_E_SHUTDOWN;
      }
      var calls := [c.allocate, c.removeBuffers, c.setTime, c.setDuration]
                   + (if token.Some? then [c.setToken] else [])
                   + [c.queue];
      hr := FirstFailed(calls);
      if hr == S_OK {
        events := events + [MediaSample(now, SAMPLE_DURATION, token)];
      }
    }

    /* IMFMediaStream2 */

    /** SetStreamState as written: its test `_state = value` assigns, so
        every value is stored first; a non-zero value then returns S_OK at
        once, and only STOPPED goes on to Stop. */
    method SetStreamState(value: int, c: Calls) returns (hr: HResult)
      requires Valid()
      modifies this`allocatorSamples, this`events, this`state
      ensures IsStreamState(value) ==> Valid()
      ensures state == value
      ensures value != STOPPED ==> hr == S_OK && events == old(events)
                                   && allocatorSamples == old(allocatorSamples)
      ensures value == STOPPED ==>
                hr == old(LifecycleResult(c))
                && events == old(events) + (if hr == S_OK then [StreamStopped] else [])
                && allocatorSamples == (if old(hasQueue && hasAllocator) && Succeeded(c.allocator) then 0
                                        else old(allocatorSamples))
    {
      state := value;
      if state != STOPPED {
        return S_OK;
      }
      hr := Stop(c);
    }

    /** SetStreamState with the comparison its switch was written for:
        PAUSED only from RUNNING, RUNNING through Start, STOPPED through
        Stop, anything else refused. */
    method SetStreamStateCorrected(value: int, c: Calls) returns (hr: HResult)
      requires Valid()
      modifies this`allocatorSamples, this`events, this`state
      ensures Valid()
      ensures old(state) == value ==> hr == S_OK && state == value && events == old(events)
      ensures hr == S_OK ==> state == value
      ensures hr != S_OK ==> state == old(state)
      ensures !IsStreamState(value) ==> hr == MF_E_INVALID_STATE_TRANSITION
      ensures value == PAUSED && old(state) != value ==>
                hr == (if old(state) == RUNNING then S_OK else MF_E_INVALID_STATE_TRANSITION)
                && events == old(events)
      ensures value == RUNNING && old(state) != value ==>
                hr == old(LifecycleResult(c))
                && events == old(events) + (if hr == S_OK then [StreamStarted] else [])
                && (hr == S_OK ==> allocatorSamples == SAMPLE_POOL)
      ensures value == STOPPED && old(state) != value ==>
                hr == old(LifecycleResult(c))
                && events == old(events) + (if hr == S_OK then [StreamStopped] else [])
                && (hr == S_OK ==> allocatorSamples == 0)
    {
      if state == value {
        return S_OK;
      }
      if value == PAUSED {
        if state != RUNNING {
          return MF_E_INVALID_STATE_TRANSITION;
        }
        state := value;
        return S_OK;
      } else if value == RUNNING {
        hr := Start(c);
      } else if value == STOPPED {
        hr := Stop(c);
      } else {
        return MF_E_INVALID_STATE_TRANSITION;
      }
    }

    /** Reports the current state. */
    method GetStreamState(outPresent: bool) returns (hr: HResult, value: int)
      ensures !outPresent ==> hr == E_POINTER
      ensures outPresent ==> hr == S_OK && value == state
    {
      if !outPresent {
        return E_POINTER, 0;
      }
      return S_OK, state;
    }

    /* Configuration pushed down by the media source. The stream records
       what it is given; what the frame generator does with it is not part
       of this model. */

    method SetMjpegUrl(u: string)
      modifies this`url
      ensures url == u
    {
      url := u;
    }

    method SetResolution(width: nat, height: nat)
      modifies this`resolution
      ensures resolution == Some((width, height))
    {
      resolution := Some((width, height));
    }
  }

  /* ---------- consequences of the assignment in SetStreamState ---------- */

  /** As written, a freshly made stream accepts PAUSED although it never
      ran, and is left in it. */
  method PauseFromStoppedAsWritten(c: Calls) returns (hr: HResult, state: int)
    ensures hr == S_OK && state == PAUSED
  {
    var s := new MediaStream();
    hr := s.SetStreamState(PAUSED, c);
    state := s.state;
  }

  /** With the comparison, the same request is refused and the stream stays
      STOPPED. */
  method PauseFromStoppedCorrected(c: Calls) returns (hr: HResult, state: int)
    ensures hr == MF_E_INVALID_STATE_TRANSITION && state == STOPPED
  {
    var s := new MediaStream();
    hr := s.SetStreamStateCorrected(PAUSED, c);
    state := s.state;
  }

  /** As written, asking an initialised stream with an allocator for RUNNING
      reports success without starting it: no MEStreamStarted, allocator
      left uninitialised. */
  method RunningWithoutStartAsWritten(c: InitCalls, query: HResult, calls: Calls)
    returns (hr: HResult, state: int, events: seq<Event>, samples: nat)
    ensures hr == S_OK && state == RUNNING && events == [] && samples == 0
  {
    var s := new MediaStream();
    var _ := s.Initialize(true, 0, c);
    var _ := s.SetAllocator(true, query);
    hr := s.SetStreamState(RUNNING, calls);
    state, events, samples := s.state, s.events, s.allocatorSamples;
  }

  /** With the comparison, RUNNING goes through Start: success means the
      allocator holds its pool and MEStreamStarted was queued. */
  method RunningStartsCorrected(c: InitCalls, calls: Calls)
    returns (hr: HResult, state: int, events: seq<Event>, samples: nat)
    ensures hr == S_OK <==> Succeeded(c.attributes) && Succeeded(c.queue) && Succeeded(calls.allocator) && Succeeded(calls.queue)
    ensures hr == S_OK ==> state == RUNNING && events == [StreamStarted] && samples == SAMPLE_POOL
    ensures hr != S_OK ==> state == STOPPED && events == []
  {
    var s := new MediaStream();
    var _ := s.Initialize(true, 0, c);
    var _ := s.SetAllocator(true, S_OK);
    hr := s.SetStreamStateCorrected(RUNNING, calls);
    state, events, samples := s.state, s.events, s.allocatorSamples;
  }
}
