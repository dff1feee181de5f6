/** The virtual camera's media source: its streams, its presentation
    descriptor (modelled as the selection flag of each stream), its event
    queue, and the configuration it reads from the registry and pushes down
    to its streams. */
module Sources {
  import opened HResults
  import opened Registry
  import opened Streams

  /** Number of streams the source creates. */
  const NUM_STREAMS: nat := 1

  /** Resolution used when the registry does not give one. */
  const DEFAULT_WIDTH: nat := 1920
  const DEFAULT_HEIGHT: nat := 1080

  /** sizeof(KSPROPERTY): a GUID and two ULONGs. */
  const KSPROPERTY_SIZE: nat := 24

  /** The events the source puts on its own queue. */
  datatype SourceEvent =
    | NewStream(index: nat)
    | SourceStarted(time: int)
    | SourceStopped(time: int)
    | SourceQueued(kind: int, status: HResult)

  /** The time format handed to Start: none, GUID_NULL, or another one. */
  datatype TimeFormat = NoTimeFormat | GuidNull | OtherTimeFormat

  /** One stream of the presentation descriptor handed to Start, with the
      results of the foreign calls Start makes for it: getting it from the
      descriptor, reading its identifier, reading the source's own selection,
      selecting or deselecting it, queueing MENewStream, and getting its
      current media type. `stream` is what the stream's Start or Stop meets. */
  datatype Requested = Requested(
    selected: bool,
    id: int,
    lookup: HResult,
    identify: HResult,
    current: HResult,
    change: HResult,
    announce: HResult,
    mediaType: HResult,
    stream: Calls)

  /** The results Stop meets for one stream: the stream's Stop and the
      deselection in the source's descriptor. */
  datatype StopCalls = StopCalls(stream: Calls, deselect: HResult)

  /** Whether Start treats a stream as currently selected once it has
      reconciled the descriptor's flag with the stream's state. */
  function Reconciled(selected: bool, state: int): (r: bool)
    ensures r <==> state != STOPPED
  {
    if selected && state == STOPPED then false
    else if !selected && state != STOPPED then true
    else selected
  }

  datatype Action = Keep | Select | Deselect

  /** What Start does with one stream: nothing when the request matches the
      reconciled selection, otherwise select and start, or deselect and stop. */
  function Decide(requested: bool, selected: bool, state: int): (a: Action)
    ensures a == Keep <==> requested == (state != STOPPED)
    ensures a == Select <==> requested && state == STOPPED
    ensures a == Deselect <==> !requested && state != STOPPED
  {
    var current := Reconciled(selected, state);
    if requested == current then Keep
    else if requested then Select
    else Deselect
  }

  /** The stream identifiers as GetStreamIndexById sees them, stream by
      stream: None where the stream has no descriptor any more. */
  function IdsOf(ss: seq<MediaStream>): (ids: seq<Option<int>>)
    reads ss
    ensures |ids| == |ss|
    ensures forall j :: 0 <= j < |ss| ==>
              ids[j] == (if ss[j].hasDescriptor then Some(ss[j].descriptorId) else None)
  {
    if ss == [] then []
    else [if ss[0].hasDescriptor then Some(ss[0].descriptorId) else None] + IdsOf(ss[1..])
  }

  /** The first position whose identifier is `id`; -1 when there is none
      or when a stream without descriptor comes first. */
  function FirstMatch(ids: seq<Option<int>>, id: int): (r: int)
    ensures -1 <= r < |ids|
    ensures r >= 0 ==> ids[r] == Some(id) &&
                       forall j :: 0 <= j < r ==> ids[j].Some? && ids[j].value != id
    ensures r == -1 ==> forall j :: 0 <= j < |ids| && ids[j] == Some(id) ==>
                          exists k :: 0 <= k < j && ids[k].None?
  {
    if ids == [] || ids[0].None? then -1
    else if ids[0].value == id then 0
    else
      var r := FirstMatch(ids[1..], id);
      if r < 0 then -1 else r + 1
  }

  /** The contract of FirstMatch pins its result down: a match with only
      other identifiers before it is the result ... */
  lemma FirstMatchFound(ids: seq<Option<int>>, id: int, i: nat)
    requires i < |ids| && ids[i] == Some(id)
    requires forall j :: 0 <= j < i ==> ids[j].Some? && ids[j].value != id
    ensures FirstMatch(ids, id) == i
  {
  }

  /** ... and so is -1 when a stream without descriptor comes before any
      match, or when there is no match at all. */
  lemma FirstMatchMissing(ids: seq<Option<int>>, id: int, i: nat)
    requires i <= |ids| && (i < |ids| ==> ids[i].None?)
    requires forall j :: 0 <= j < i ==> ids[j].Some? && ids[j].value != id
    ensures FirstMatch(ids, id) == -1
  {
  }

  /** The results Stop meets, in the order it meets them: each stream's Stop,
      then its deselection. */
  function StopResults(ss: seq<MediaStream>, calls: seq<StopCalls>): (rs: seq<HResult>)
    requires |calls| == |ss|
    reads ss
    ensures |rs| == 2 * |ss|
    ensures forall j :: 0 <= j < |ss| ==>
              rs[2 * j] == ss[j].LifecycleResult(calls[j].stream) && rs[2 * j + 1] == calls[j].deselect
  {
    if ss == [] then []
    else [ss[0].LifecycleResult(calls[0].stream), calls[0].deselect] + StopResults(ss[1..], calls[1..])
  }

  /** The state of each stream, stream by stream. */
  function StatesOf(ss: seq<MediaStream>): (states: seq<int>)
    reads ss
    ensures |states| == |ss|
    ensures forall j :: 0 <= j < |ss| ==> states[j] == ss[j].state
  {
    if ss == [] then [] else [ss[0].state] + StatesOf(ss[1..])
  }

  /** The event log of each stream, stream by stream. */
  function EventsOf(ss: seq<MediaStream>): (logs: seq<seq<Event>>)
    reads ss
    ensures |logs| == |ss|
    ensures forall j :: 0 <= j < |ss| ==> logs[j] == ss[j].events
  {
    if ss == [] then [] else [ss[0].events] + EventsOf(ss[1..])
  }

  /** Every request names the stream at its own position. */
  predicate IdsArePositions(entries: seq<Requested>) {
    forall j :: 0 <= j < |entries| ==> entries[j].id == j
  }

  /** A stream's state once Start has handled its request: stopped when
      not requested; running when requested while stopped; otherwise as
      it was. */
  function StartedState(requested: bool, state: int): (s: int)
    ensures !requested ==> s == STOPPED
    ensures requested && state == STOPPED ==> s == RUNNING
    ensures requested && state != STOPPED ==> s == state
  {
    match Decide(requested, false, state)
    case Keep => state
    case Select => RUNNING
    case Deselect => STOPPED
  }

  /** The descriptor's flag for a stream once Start has handled its request:
      the request where the stream had to be started or stopped, otherwise
      the flag as it was, whatever it disagreed with. */
  function StartedSelection(requested: bool, selected: bool, state: int): (b: bool)
    ensures requested == (state != STOPPED) ==> b == selected
    ensures requested != (state != STOPPED) ==> b == requested
  {
    if Decide(requested, selected, state) == Keep then selected else requested
  }

  /** The events a stream's own queue gains once Start has handled its
      request: MEStreamStarted where it had to start, MEStreamStopped where
      it had to stop, nothing where its state stays. */
  function StartedEvents(requested: bool, state: int): (evs: seq<Event>)
    ensures StartedState(requested, state) == state ==> evs == []
    ensures StartedState(requested, state) != state ==>
              evs == [if StartedState(requested, state) == RUNNING then StreamStarted else StreamStopped]
  {
    match Decide(requested, false, state)
    case Keep => []
    case Select => [StreamStarted]
    case Deselect => [StreamStopped]
  }

  /** The MENewStream events Start queues for the first n requests, when
      request j names stream j and stream j was in state states[j]. */
  function Announced(entries: seq<Requested>, states: seq<int>, n: nat): (evs: seq<SourceEvent>)
    requires n <= |entries| && n <= |states|
    ensures |evs| <= n
    ensures forall k :: 0 <= k < |evs| ==> evs[k].NewStream? && evs[k].index < n
  {
    if n == 0 then []
    else
      Announced(entries, states, n - 1) +
      (if entries[n - 1].selected && states[n - 1] == STOPPED then [NewStream(n - 1)] else [])
  }

  /** `after` is `before` followed by MENewStream events only. */
  predicate AnnouncedOnly(before: seq<SourceEvent>, after: seq<SourceEvent>) {
    |before| <= |after| && after[..|before|] == before &&
    forall k :: |before| <= k < |after| ==> after[k].NewStream?
  }

  lemma AnnouncedOnlyTrans(a: seq<SourceEvent>, b: seq<SourceEvent>, c: seq<SourceEvent>)
    requires AnnouncedOnly(a, b) && AnnouncedOnly(b, c)
    ensures AnnouncedOnly(a, c)
  {
    assert c[..|a|] == b[..|b|][..|a|];
  }

  /** The streams' states `now`, the flags `sel` and the events `evs` are
      those Start reaches after its first n requests, when request j names
      stream j; `states` and `flags` are the states and flags before Start. */
  ghost predicate Reached(entries: seq<Requested>, states: seq<int>, flags: seq<bool>,
                          evs0: seq<SourceEvent>, logs0: seq<seq<Event>>, n: nat,
                          now: seq<int>, sel: seq<bool>, evs: seq<SourceEvent>, logs: seq<seq<Event>>)
    requires n <= |entries| == |states| == |flags| == |now| == |sel| == |logs0| == |logs|
  {
    IdsArePositions(entries) ==>
      && evs == evs0 + Announced(entries, states, n)
      && (forall j :: 0 <= j < n ==> logs[j] == logs0[j] + StartedEvents(entries[j].selected, states[j]))
      && (forall j :: n <= j < |logs| ==> logs[j] == logs0[j])
      && (forall j :: 0 <= j < |now| ==>
            now[j] == if j < n then StartedState(entries[j].selected, states[j]) else states[j])
      && (forall j :: 0 <= j < |sel| ==>
            sel[j] == if j < n then StartedSelection(entries[j].selected, flags[j], states[j]) else flags[j])
  }

  /** Handling request n, which names stream n, takes Start from the first n
      requests to the first n + 1. */
  lemma ReachedStep(entries: seq<Requested>, states: seq<int>, flags: seq<bool>,
                    evs0: seq<SourceEvent>, logs0: seq<seq<Event>>, n: nat,
                    now: seq<int>, sel: seq<bool>, evs: seq<SourceEvent>, logs: seq<seq<Event>>,
                    now': seq<int>, sel': seq<bool>, evs': seq<SourceEvent>, logs': seq<seq<Event>>)
    requires n < |entries| == |states| == |flags| == |now| == |sel| == |now'| == |sel'|
    requires |logs0| == |logs| == |logs'| == |entries|
    requires Reached(entries, states, flags, evs0, logs0, n, now, sel, evs, logs)
    requires IdsArePositions(entries) ==>
               && logs'[n] == logs[n] + StartedEvents(entries[n].selected, now[n])
               && (forall j :: 0 <= j < |logs'| && j != n ==> logs'[j] == logs[j])
               && (forall j :: 0 <= j < |now'| ==>
                     now'[j] == if j == n then StartedState(entries[n].selected, now[n]) else now[j])
               && sel' == sel[n := StartedSelection(entries[n].selected, sel[n], now[n])]
               && evs' == evs + (if entries[n].selected && now[n] == STOPPED then [NewStream(n)] else [])
    ensures Reached(entries, states, flags, evs0, logs0, n + 1, now', sel', evs', logs')
  {
    if IdsArePositions(entries) {
      assert now[n] == states[n] && sel[n] == flags[n];
    }
  }

  /** Makes `|init|` streams, stream i initialised against the source with
      index i; what each Initialize returns is ignored. */
  method CreateStreams(init: seq<InitCalls>) returns (made: seq<MediaStream>)
    ensures |made| == |init|
    ensures forall j :: 0 <= j < |made| ==> fresh(made[j])
    ensures forall j, k :: 0 <= j < k < |made| ==> made[j] != made[k]
    ensures forall j :: 0 <= j < |made| ==>
              made[j].Valid() && made[j].hasSource && made[j].index == j &&
              made[j].state == STOPPED && made[j].events == [] && !made[j].hasAllocator &&
              made[j].url == [] && (made[j].hasDescriptor ==> made[j].descriptorId == j)
  {
    made := [];
    var i := 0;
    while i < |init|
      invariant i == |made| <= |init|
      invariant forall j :: 0 <= j < i ==> fresh(made[j])
      invariant forall j, k :: 0 <= j < k < i ==> made[j] != made[k]
      invariant forall j :: 0 <= j < i ==>
                  made[j].Valid() && made[j].hasSource && made[j].index == j &&
                  made[j].state == STOPPED && made[j].events == [] && !made[j].hasAllocator &&
                  made[j].url == [] && (made[j].hasDescriptor ==> made[j].descriptorId == j)
    {
      var stream := new MediaStream();
      var _ := stream.Initialize(true, i, init[i]);
      made := made + [stream];
      i := i + 1;
    }
  }

  class MediaSource {
    var streams: seq<MediaStream>
    var hasQueue: bool
    var hasDescriptor: bool
    var hasAttributes: bool
    /** The presentation descriptor's selection flag of each stream. */
    var selection: seq<bool>
    /** Every event queued on the source's queue, oldest first. */
    var events: seq<SourceEvent>
    var mjpegUrl: string
    var configWidth: nat
    var configHeight: nat

    /** Distinct, valid streams, one selection flag each, and stream i's
        descriptor carrying identifier i. */
    ghost predicate Valid()
      reads this, streams`state, streams`hasDescriptor, streams`hasQueue, streams`hasSource,
            streams`allocatorSamples, streams`hasAllocator, streams`descriptorId
    {
      && |selection| == |streams|
      && Distinct()
      && StreamsValid()
      && Identified()
    }

    ghost predicate Distinct()
      reads this`streams
    {
      forall j, k :: 0 <= j < k < |streams| ==> streams[j] != streams[k]
    }

    ghost predicate StreamsValid()
      reads this`streams, streams`state, streams`hasDescriptor, streams`hasQueue, streams`hasSource,
            streams`allocatorSamples, streams`hasAllocator
    {
      forall j :: 0 <= j < |streams| ==> streams[j].Valid()
    }

    ghost predicate Identified()
      reads this`streams, streams`hasDescriptor, streams`descriptorId
    {
      forall j :: 0 <= j < |streams| && streams[j].hasDescriptor ==> streams[j].descriptorId == j
    }

    /** The position GetStreamIndexById returns for `id`. */
    ghost function IndexOf(id: int): (r: int)
      reads this, streams
      ensures -1 <= r < |streams|
    {
      FirstMatch(IdsOf(streams), id)
    }

    /** Creates the streams, stream i initialised with index i (their
        results are ignored), reads the configuration and pushes it to every
        stream: the URL only when it is not empty, the resolution always. */
    constructor (key: Key, init: seq<InitCalls>)
      requires |init| == NUM_STREAMS
      ensures Valid()
      ensures |streams| == NUM_STREAMS
      ensures forall j :: 0 <= j < |streams| ==> fresh(streams[j])
      ensures forall j :: 0 <= j < |streams| ==>
                streams[j].hasSource && streams[j].index == j && streams[j].state == STOPPED &&
                streams[j].events == [] && !streams[j].hasAllocator
      ensures !hasQueue && !hasDescriptor && hasAttributes && events == []
      ensures key.status == ERROR_SUCCESS ==>
                && mjpegUrl == (if key.url.Ok() && key.url.kind == REG_SZ then CString(key.url.data) else "")
                && configWidth == (if key.width.Ok() && key.width.kind == REG_DWORD then key.width.data
                                   else DEFAULT_WIDTH)
                && configHeight == (if key.height.Ok() && key.height.kind == REG_DWORD then key.height.data
                                    else DEFAULT_HEIGHT)
      ensures key.status != ERROR_SUCCESS ==>
                mjpegUrl == "" && configWidth == DEFAULT_WIDTH && configHeight == DEFAULT_HEIGHT
      ensures forall j :: 0 <= j < |streams| ==>
                streams[j].url == mjpegUrl && streams[j].resolution == Some((configWidth, configHeight))
    {
      var made := CreateStreams(init);
      var url: string;
      var width, height: nat;
      if key.status == ERROR_SUCCESS {
        if key.url.Ok() && key.url.kind == REG_SZ {
          url := CString(key.url.data);
        } else {
          url := "";
        }
        width := key.width.data;
        if !key.width.Ok() || key.width.kind != REG_DWORD {
          width := DEFAULT_WIDTH;
        }
        height := key.height.data;
        if !key.height.Ok() || key.height.kind != REG_DWORD {
          height := DEFAULT_HEIGHT;
        }
      } else {
        url, width, height := "", DEFAULT_WIDTH, DEFAULT_HEIGHT;
      }
      streams := made;
      hasQueue, hasDescriptor, hasAttributes := false, false, true;
      selection := seq(|made|, _ => false);
      events := [];
      mjpegUrl, configWidth, configHeight := url, width, height;
      new;
      PushConfiguration();
    }

    /** Applies the configuration to every stream, so that streams need not
        ask the source during Start: the URL only when it is not empty,
        the resolution always. Nothing else of a stream changes. */
    method PushConfiguration()
      requires Valid()
      requires forall j :: 0 <= j < |streams| ==> streams[j].url == []
      modifies streams`url, streams`resolution
      ensures Valid()
      ensures forall j :: 0 <= j < |streams| ==>
                streams[j].url == mjpegUrl && streams[j].resolution == Some((configWidth, configHeight))
    {
      var i := 0;
      while i < |streams|
        invariant 0 <= i <= |streams|
        invariant Valid()
        invariant forall j :: 0 <= j < i ==>
                    streams[j].url == mjpegUrl && streams[j].resolution == Some((configWidth, configHeight))
        invariant forall j :: i <= j < |streams| ==> streams[j].url == []
      {
        if mjpegUrl != "" {
          streams[i].SetMjpegUrl(mjpegUrl);
        }
        streams[i].SetResolution(configWidth, configHeight);
        i := i + 1;
      }
    }

    /** The end of the source's initialisation: collects every stream's
        descriptor, builds the presentation descriptor (every stream
        deselected) and the event queue. `profiles` stands for the
        attribute copy, sensor profiles and package name set up before. */
    method Initialize(profiles: HResult, descriptor: HResult, queue: HResult) returns (hr: HResult)
      requires Valid()
      modifies this`hasDescriptor, this`hasQueue, this`selection
      ensures Valid()
      ensures Failed(profiles) ==> hr == profiles && unchanged(this)
      ensures Succeeded(profiles) && (exists j :: 0 <= j < |streams| && !streams[j].hasDescriptor) ==>
                hr == MF_E_SHUTDOWN && unchanged(this)
      ensures Succeeded(profiles) && (forall j :: 0 <= j < |streams| ==> streams[j].hasDescriptor) ==>
                hr == FirstFailed([descriptor, queue])
                && (hasDescriptor <==> Succeeded(descriptor) || old(hasDescriptor))
                && (Succeeded(descriptor) ==> forall j :: 0 <= j < |selection| ==> !selection[j])
                && (hasQueue <==> (Succeeded(descriptor) && Succeeded(queue)) || old(hasQueue))
    {
      if Failed(profiles) {
        return profiles;
      }
      var i := 0;
      while i < |streams|
        invariant 0 <= i <= |streams|
        invariant forall j :: 0 <= j < i ==> streams[j].hasDescriptor
      {
        if !streams[i].hasDescriptor {
          return MF_E_SHUTDOWN;
        }
        i := i + 1;
      }
      if Failed(descriptor) {
        return descriptor;
      }
      hasDescriptor := true;
      selection := seq(|streams|, _ => false);
      if Failed(queue) {
        return queue;
      }
      hasQueue := true;
      return S_OK;
    }

    /** Finds the position of the stream whose descriptor has identifier
        `id`; -1 when none has, or when a descriptor is missing first. */
    method GetStreamIndexById(id: int) returns (r: int)
      ensures r == FirstMatch(IdsOf(streams), id)
    {
      ghost var ids := IdsOf(streams);
      var i := 0;
      while i < |streams|
        invariant 0 <= i <= |streams|
        invariant forall j :: 0 <= j < i ==> ids[j].Some? && ids[j].value != id
      {
        if !streams[i].hasDescriptor {
          FirstMatchMissing(ids, id, i);
          return -1;
        }
        if streams[i].descriptorId == id {
          FirstMatchFound(ids, id, i);
          return i;
        }
        i := i + 1;
      }
      FirstMatchMissing(ids, id, i);
      return -1;
    }

    /** Since stream j's descriptor carries identifier j, a lookup that
        succeeds finds the stream whose position is the identifier, and it
        succeeds exactly when every stream up to that one has a descriptor. */
    lemma IndexIsIdentifier(id: int)
      requires Valid()
      ensures IndexOf(id) >= 0 ==> IndexOf(id) == id
      ensures IndexOf(id) >= 0 <==>
                0 <= id < |streams| && forall j :: 0 <= j <= id ==> streams[j].hasDescriptor
    {
      var ids := IdsOf(streams);
      if 0 <= id < |streams| && forall j :: 0 <= j <= id ==> streams[j].hasDescriptor {
        assert ids[id] == Some(id);
      }
    }

    /** Start's argument and state checks, before any request is read. */
    ghost function StartChecks(descriptorPresent: bool, positionPresent: bool, format: TimeFormat,
                               countResult: HResult, count: nat): HResult
      reads this, streams
    {
      if !descriptorPresent || !positionPresent then E_POINTER
      else if format == OtherTimeFormat then E_INVALIDARG
      else if !hasQueue || !hasDescriptor then MF_E_SHUTDOWN
      else if Failed(countResult) then countResult
      else if count != |streams| then E_INVALIDARG
      else S_OK
    }

    /** Start's argument checks, in the order Start makes them. */
    method CheckStart(descriptorPresent: bool, positionPresent: bool, format: TimeFormat,
                      countResult: HResult, count: nat) returns (hr: HResult)
      ensures hr == StartChecks(descriptorPresent, positionPresent, format, countResult, count)
    {
      if !descriptorPresent || !positionPresent {
        return E_POINTER;
      }
      if format == OtherTimeFormat {
        return E_INVALIDARG;
      }
      if !hasQueue || !hasDescriptor {
        return MF_E_SHUTDOWN;
      }
      if Failed(countResult) {
        return countResult;
      }
      if count != |streams| {
        return E_INVALIDARG;
      }
      return S_OK;
    }

    /** Selects stream k in the descriptor, queues MENewStream for it, reads
        its media type and starts it. */
    method SelectAndStart(k: nat, e: Requested) returns (hr: HResult)
      requires Valid() && k < |streams|
      modifies this`selection, this`events, {streams[k]}`state, {streams[k]}`events, {streams[k]}`allocatorSamples
      ensures Valid()
      ensures streams[k].hasDescriptor == old(streams[k].hasDescriptor) &&
              streams[k].descriptorId == old(streams[k].descriptorId)
      ensures hr == (if Failed(e.change) then e.change
                     else if Failed(e.announce) then e.announce
                     else if Failed(e.mediaType) then e.mediaType
                     else old(streams[k].LifecycleResult(e.stream)))
      ensures selection == (if Succeeded(e.change) then old(selection)[k := true] else old(selection))
      ensures events == old(events) + (if Succeeded(e.change) && Succeeded(e.announce)
                                       then [NewStream(k)] else [])
      ensures hr == S_OK ==> streams[k].state == RUNNING &&
                             streams[k].events == old(streams[k].events) + [StreamStarted]
      ensures hr != S_OK ==> streams[k].state == old(streams[k].state) &&
                             streams[k].events == old(streams[k].events)
    {
      if Failed(e.change) {
        return e.change;
      }
      selection := selection[k := true];
      if Failed(e.announce) {
        return e.announce;
      }
      events := events + [NewStream(k)];
      if Failed(e.mediaType) {
        return e.mediaType;
      }
      var r := streams[k].Start(e.stream);
      return Forward(r);
    }

    /** Deselects stream k in the descriptor and stops it. */
    method DeselectAndStop(k: nat, e: Requested) returns (hr: HResult)
      requires Valid() && k < |streams|
      modifies this`selection, {streams[k]}`state, {streams[k]}`events, {streams[k]}`allocatorSamples
      ensures Valid()
      ensures streams[k].hasDescriptor == old(streams[k].hasDescriptor) &&
              streams[k].descriptorId == old(streams[k].descriptorId)
      ensures hr == (if Failed(e.change) then e.change else old(streams[k].LifecycleResult(e.stream)))
      ensures selection == (if Succeeded(e.change) then old(selection)[k := false] else old(selection))
      ensures hr == S_OK ==> streams[k].state == STOPPED &&
                             streams[k].events == old(streams[k].events) + [StreamStopped]
      ensures hr != S_OK ==> streams[k].state == old(streams[k].state) &&
                             streams[k].events == old(streams[k].events)
    {
      if Failed(e.change) {
        return e.change;
      }
      selection := selection[k := false];
      var r := streams[k].Stop(e.stream);
      return Forward(r);
    }

    /** The lookups of one turn of Start's loop: the request's descriptor,
        its identifier, the position of the stream with that identifier, and
        the source's own descriptor entry for it. */
    method Locate(e: Requested) returns (hr: HResult, index: int)
      requires Valid()
      ensures hr == (if Failed(e.lookup) then e.lookup
                     else if Failed(e.identify) then e.identify
                     else if IndexOf(e.id) < 0 then E_FAIL
                     else Forward(e.current))
      ensures hr == S_OK ==> index == IndexOf(e.id) && 0 <= index < |streams|
    {
      if Failed(e.lookup) {
        return e.lookup, -1;
      }
      if Failed(e.identify) {
        return e.identify, -1;
      }
      index := GetStreamIndexById(e.id);
      if index < 0 {
        return E_FAIL, -1;
      }
      if Failed(e.current) {
        return e.current, -1;
      }
      return S_OK, index;
    }

    /** The decision part of one turn of Start's loop: reconciles the
        source's flag for stream k with the state of stream i and, where they
        differ from the request, selects and starts, or deselects and stops,
        stream k. */
    method Reconcile(i: nat, k: nat, e: Requested) returns (hr: HResult)
      requires Valid() && i < |streams| && k < |streams|
      modifies this`selection, this`events, {streams[k]}`state, {streams[k]}`events, {streams[k]}`allocatorSamples
      ensures Valid()
      ensures old(Decide(e.selected, selection[k], streams[i].state)) == Select ==>
                && hr == (if Failed(e.change) then e.change
                          else if Failed(e.announce) then e.announce
                          else if Failed(e.mediaType) then e.mediaType
                          else old(streams[k].LifecycleResult(e.stream)))
                && selection == (if Succeeded(e.change) then old(selection)[k := true] else old(selection))
                && events == old(events) + (if Succeeded(e.change) && Succeeded(e.announce)
                                            then [NewStream(k)] else [])
                && (hr == S_OK ==> streams[k].events == old(streams[k].events) + [StreamStarted])
      ensures old(Decide(e.selected, selection[k], streams[i].state)) == Deselect ==>
                && hr == (if Failed(e.change) then e.change else old(streams[k].LifecycleResult(e.stream)))
                && selection == (if Succeeded(e.change) then old(selection)[k := false] else old(selection))
                && events == old(events)
                && (hr == S_OK ==> streams[k].events == old(streams[k].events) + [StreamStopped])
      ensures old(Decide(e.selected, selection[k], streams[i].state)) == Keep ==>
                hr == S_OK && selection == old(selection) && events == old(events) && unchanged(streams[k])
      ensures hr == S_OK || Failed(hr)
      ensures hr != S_OK ==> streams[k].state == old(streams[k].state) && streams[k].events == old(streams[k].events)
      ensures hr == S_OK ==>
                && streams[k].state == (if e.selected == (old(streams[i].state) != STOPPED) then old(streams[k].state)
                                        else if e.selected then RUNNING else STOPPED)
                && selection == old(selection)[k := StartedSelection(e.selected, old(selection[k]), old(streams[i].state))]
                && events == old(events) + (if e.selected && old(streams[i].state) == STOPPED then [NewStream(k)] else [])
                && streams[k].events == old(streams[k].events) + StartedEvents(e.selected, old(streams[i].state))
      ensures forall j :: 0 <= j < |streams| && j != k ==>
                streams[j].state == old(streams[j].state) && streams[j].events == old(streams[j].events)
    {
      var thisSelected := selection[k];
      var _, state := streams[i].GetStreamState(true);
      if thisSelected && state == STOPPED {
        thisSelected := false;
      } else if !thisSelected && state != STOPPED {
        thisSelected := true;
      }
      if e.selected != thisSelected {
        if e.selected {
          hr := SelectAndStart(k, e);
        } else {
          hr := DeselectAndStop(k, e);
        }
        return hr;
      }
      return S_OK;
    }

    /** One turn of Start's loop: looks request `e` up, then reconciles the
        stream it names. Only stream events are queued, a failure leaves
        every stream's state as it was, and a request naming its own
        position changes that stream alone. `states` are the streams'
        states before the turn. */
    method StartEntry(i: nat, e: Requested, ghost states: seq<int>, ghost logs: seq<seq<Event>>)
      returns (hr: HResult)
      requires Valid() && i < |streams| == |states| == |logs|
      requires forall j :: 0 <= j < |streams| ==> streams[j].state == states[j]
      requires forall j :: 0 <= j < |streams| ==> streams[j].events == logs[j]
      modifies this`selection, this`events, streams`state, streams`events, streams`allocatorSamples
      ensures Valid()
      ensures hr == S_OK || Failed(hr)
      ensures AnnouncedOnly(old(events), events)
      ensures hr != S_OK ==> forall j :: 0 <= j < |streams| ==> streams[j].state == states[j]
      ensures e.id == i && hr == S_OK ==>
                && (forall j :: 0 <= j < |streams| ==>
                      streams[j].state == if j == i then StartedState(e.selected, states[i]) else states[j])
                && selection == old(selection)[i := StartedSelection(e.selected, old(selection[i]), states[i])]
                && events == old(events) + (if e.selected && states[i] == STOPPED then [NewStream(i)] else [])
                && streams[i].events == logs[i] + StartedEvents(e.selected, states[i])
                && (forall j :: 0 <= j < |streams| && j != i ==> streams[j].events == logs[j])
    {
      var index;
      hr, index := Locate(e);
      if hr == S_OK {
        IndexIsIdentifier(e.id);
        hr := Reconcile(i, index, e);
      }
    }

    /** How far Start's loop has come after n requests: when request j
        names stream j, the events, states and flags are those of the first
        n requests handled, the later streams still in `states` and `flags`. */
    ghost predicate Progress(entries: seq<Requested>, states: seq<int>, flags: seq<bool>,
                             evs0: seq<SourceEvent>, logs0: seq<seq<Event>>, n: nat)
      reads this, streams
    {
      && n <= |entries| == |states| == |flags| == |streams| == |selection| == |logs0|
      && AnnouncedOnly(evs0, events)
      && (IdsArePositions(entries) ==>
            && events == evs0 + Announced(entries, states, n)
            && (forall j :: 0 <= j < |streams| ==>
                  streams[j].state == if j < n then StartedState(entries[j].selected, states[j]) else states[j])
            && (forall j :: 0 <= j < |streams| ==>
                  selection[j] == if j < n then StartedSelection(entries[j].selected, flags[j], states[j])
                                  else flags[j])
            && (forall j :: 0 <= j < n ==>
                  streams[j].events == logs0[j] + StartedEvents(entries[j].selected, states[j]))
            && (forall j :: n <= j < |streams| ==> streams[j].events == logs0[j]))
    }

    /** Reached of the streams' states, flags, events and logs is Progress
        read off the streams. */
    lemma ProgressOf(entries: seq<Requested>, states: seq<int>, flags: seq<bool>,
                     evs0: seq<SourceEvent>, logs0: seq<seq<Event>>, n: nat)
      requires n <= |entries| == |states| == |flags| == |streams| == |selection| == |logs0|
      requires AnnouncedOnly(evs0, events)
      requires Reached(entries, states, flags, evs0, logs0, n, StatesOf(streams), selection, events, EventsOf(streams))
      ensures Progress(entries, states, flags, evs0, logs0, n)
    {
    }

    /** What one successful turn of Start's loop leaves behind, request i
        having been handled as StartEntry describes, takes Start from i
        requests to i + 1. `current`, `flagsBefore`, `before` and `logs`
        are the states, flags, events and stream logs before the turn. */
    lemma ProgressStep(entries: seq<Requested>, states: seq<int>, flags: seq<bool>,
                       evs0: seq<SourceEvent>, logs0: seq<seq<Event>>, i: nat,
                       current: seq<int>, flagsBefore: seq<bool>, before: seq<SourceEvent>,
                       logs: seq<seq<Event>>)
      requires i < |entries| == |states| == |flags| == |streams| == |selection| == |logs0|
      requires |current| == |flagsBefore| == |logs| == |streams|
      requires AnnouncedOnly(evs0, events)
      requires Reached(entries, states, flags, evs0, logs0, i, current, flagsBefore, before, logs)
      requires entries[i].id == i ==>
                 && (forall j :: 0 <= j < |streams| ==>
                       streams[j].state == if j == i then StartedState(entries[i].selected, current[i]) else current[j])
                 && selection == flagsBefore[i := StartedSelection(entries[i].selected, flagsBefore[i], current[i])]
                 && events == before + (if entries[i].selected && current[i] == STOPPED then [NewStream(i)] else [])
                 && streams[i].events == logs[i] + StartedEvents(entries[i].selected, current[i])
                 && (forall j :: 0 <= j < |streams| && j != i ==> streams[j].events == logs[j])
      ensures Reached(entries, states, flags, evs0, logs0, i + 1, StatesOf(streams), selection, events, EventsOf(streams))
    {
      ghost var after := StatesOf(streams);
      ghost var logsAfter := EventsOf(streams);
      if IdsArePositions(entries) {
        assert entries[i].id == i;
        assert forall j :: 0 <= j < |after| ==>
                 after[j] == if j == i then StartedState(entries[i].selected, current[i]) else current[j];
        assert logsAfter[i] == logs[i] + StartedEvents(entries[i].selected, current[i]);
        assert forall j :: 0 <= j < |logsAfter| && j != i ==> logsAfter[j] == logs[j];
      }
      ReachedStep(entries, states, flags, evs0, logs0, i, current, flagsBefore, before, logs,
                  after, selection, events, logsAfter);
    }

    /** One turn of Start's loop, seen against the whole loop's progress. */
    method StartStep(entries: seq<Requested>, ghost states: seq<int>, ghost flags: seq<bool>,
                     ghost evs0: seq<SourceEvent>, ghost logs0: seq<seq<Event>>, i: nat)
      returns (hr: HResult)
      requires Valid() && i < |entries| == |states| == |flags| == |streams| == |logs0|
      requires AnnouncedOnly(evs0, events)
      requires Reached(entries, states, flags, evs0, logs0, i, StatesOf(streams), selection, events, EventsOf(streams))
      modifies this`selection, this`events, streams`state, streams`events, streams`allocatorSamples
      ensures Valid()
      ensures hr == S_OK || Failed(hr)
      ensures AnnouncedOnly(evs0, events)
      ensures hr == S_OK ==>
                Reached(entries, states, flags, evs0, logs0, i + 1, StatesOf(streams), selection, events, EventsOf(streams))
    {
      ghost var before := events;
      ghost var flagsBefore := selection;
      ghost var current := StatesOf(streams);
      ghost var logs := EventsOf(streams);
      hr := StartEntry(i, entries[i], current, logs);
      AnnouncedOnlyTrans(evs0, before, events);
      if hr == S_OK {
        ProgressStep(entries, states, flags, evs0, logs0, i, current, flagsBefore, before, logs);
      }
    }

    /** Start's loop: handles every request in turn and returns the first
        failure, or S_OK; `states` are the streams' states before it. */
    method StartRequests(entries: seq<Requested>, ghost states: seq<int>, ghost logs: seq<seq<Event>>)
      returns (hr: HResult)
      requires Valid() && |entries| == |streams| == |states| == |logs|
      requires forall j :: 0 <= j < |streams| ==> streams[j].state == states[j]
      requires forall j :: 0 <= j < |streams| ==> streams[j].events == logs[j]
      modifies this`selection, this`events, streams`state, streams`events, streams`allocatorSamples
      ensures Valid()
      ensures hr == S_OK || Failed(hr)
      ensures AnnouncedOnly(old(events), events)
      ensures hr == S_OK ==> Progress(entries, states, old(selection), old(events), logs, |entries|)
    {
      ghost var flags := selection;
      ghost var evs0 := events;
      assert events == evs0 + Announced(entries, states, 0);
      hr := S_OK;
      var i := 0;
      while i < |entries| && hr == S_OK
        invariant i <= |entries|
        invariant Valid()
        invariant hr == S_OK || Failed(hr)
        invariant AnnouncedOnly(evs0, events)
        invariant hr == S_OK ==>
                    Reached(entries, states, flags, evs0, logs, i, StatesOf(streams), selection, events, EventsOf(streams))
      {
        hr := StartStep(entries, states, flags, evs0, logs, i);
        i := i + 1;
      }
      if hr == S_OK {
        ProgressOf(entries, states, flags, evs0, logs, |entries|);
      }
    }

    /** Start once its arguments have been checked: reconciles every
        request, then queues MESourceStarted. */
    method StartRunning(entries: seq<Requested>, ghost states: seq<int>, ghost logs: seq<seq<Event>>,
                        queue: HResult, now: int)
      returns (hr: HResult)
      requires Valid() && |entries| == |streams| == |states| == |logs|
      requires forall j :: 0 <= j < |streams| ==> streams[j].state == states[j]
      requires forall j :: 0 <= j < |streams| ==> streams[j].events == logs[j]
      modifies this`selection, this`events, streams`state, streams`events, streams`allocatorSamples
      ensures Valid()
      ensures hr != S_OK ==> AnnouncedOnly(old(events), events)
      ensures hr == S_OK ==>
                && |events| > |old(events)| && events[|events| - 1] == SourceStarted(now)
                && AnnouncedOnly(old(events), events[..|events| - 1])
      ensures hr == S_OK ==> Succeeded(queue)
      ensures hr == S_OK && IdsArePositions(entries) ==>
                events == old(events) + Announced(entries, states, |entries|) + [SourceStarted(now)]
      ensures hr == S_OK && IdsArePositions(entries) ==> forall j :: 0 <= j < |streams| ==>
                && streams[j].state == StartedState(entries[j].selected, states[j])
                && selection[j] == StartedSelection(entries[j].selected, old(selection)[j], states[j])
                && streams[j].events == logs[j] + StartedEvents(entries[j].selected, states[j])
      ensures forall j :: 0 <= j < |streams| ==>
                && streams[j].hasQueue == old(streams[j].hasQueue)
                && streams[j].hasAllocator == old(streams[j].hasAllocator)
                && streams[j].hasDescriptor == old(streams[j].hasDescriptor)
    {
      hr := StartRequests(entries, states, logs);
      if Failed(hr) {
        return hr;
      }
      if Failed(queue) {
        return queue;
      }
      ghost var announced := events;
      events := events + [SourceStarted(now)];
      assert events[..|events| - 1] == announced;
      return S_OK;
    }

    /** Starts the streams the descriptor selects and stops the others.
        After the argument checks, each request is looked up and reconciled
        in turn, the first failure returned; MESourceStarted is queued last.
        When request j names stream j, the outcome for every stream is
        stated outright. */
    method Start(descriptorPresent: bool, positionPresent: bool, format: TimeFormat,
                 countResult: HResult, entries: seq<Requested>, queue: HResult, now: int)
      returns (hr: HResult)
      requires Valid()
      modifies this`selection, this`events, streams`state, streams`events, streams`allocatorSamples
      ensures Valid()
      ensures old(StartChecks(descriptorPresent, positionPresent, format, countResult, |entries|)) != S_OK ==>
                && hr == old(StartChecks(descriptorPresent, positionPresent, format, countResult, |entries|))
                && unchanged(this)
                && forall j :: 0 <= j < |streams| ==> unchanged(streams[j])
      ensures hr != S_OK ==> AnnouncedOnly(old(events), events)
      ensures hr == S_OK ==>
                && |events| > |old(events)| && events[|events| - 1] == SourceStarted(now)
                && AnnouncedOnly(old(events), events[..|events| - 1])
      ensures hr == S_OK ==> Succeeded(queue) && |entries| == |streams|
      ensures hr == S_OK && IdsArePositions(entries) ==>
                events == old(events) + Announced(entries, old(StatesOf(streams)), |entries|) + [SourceStarted(now)]
      ensures hr == S_OK && IdsArePositions(entries) ==> forall j :: 0 <= j < |streams| ==>
                && streams[j].state == StartedState(entries[j].selected, old(streams[j].state))
                && selection[j] == StartedSelection(entries[j].selected, old(selection[j]), old(streams[j].state))
                && streams[j].events == old(streams[j].events) + StartedEvents(entries[j].selected, old(streams[j].state))
      ensures forall j :: 0 <= j < |streams| ==>
                && streams[j].hasQueue == old(streams[j].hasQueue)
                && streams[j].hasAllocator == old(streams[j].hasAllocator)
                && streams[j].hasDescriptor == old(streams[j].hasDescriptor)
    {
      ghost var states, logs := StatesOf(streams), EventsOf(streams);
      assert forall j :: 0 <= j < |streams| ==> states[j] == streams[j].state && logs[j] == streams[j].events;
      hr := CheckStart(descriptorPresent, positionPresent, format, countResult, |entries|);
      if hr != S_OK {
        return hr;
      }
      hr := StartRunning(entries, states, logs, queue, now);
    }

    /** How far Stop's loop has come after n streams: the first 2 * n
        calls succeeded and those streams are stopped, deselected, with an
        uninitialised allocator and MEStreamStopped queued on top of their
        log `logs`, while the rest still have that log and would give the
        results `rs` names for them. */
    ghost predicate StopProgress(calls: seq<StopCalls>, rs: seq<HResult>, logs: seq<seq<Event>>, n: nat)
      reads this, streams
    {
      && n <= |streams| == |calls| == |selection| == |logs| && |rs| == 2 * |streams|
      && (forall j :: 0 <= j < 2 * n ==> Succeeded(rs[j]))
      && (forall j :: n <= j < |streams| ==> streams[j].LifecycleResult(calls[j].stream) == rs[2 * j])
      && (forall j :: n <= j < |streams| ==> rs[2 * j + 1] == calls[j].deselect)
      && (forall j :: 0 <= j < n ==> streams[j].state == STOPPED && !selection[j] && streams[j].allocatorSamples == 0)
      && (forall j :: 0 <= j < |streams| ==>
            streams[j].events == if j < n then logs[j] + [StreamStopped] else logs[j])
    }

    /** Stops stream i alone; every other stream keeps its state, log and
        allocator. */
    method StopAt(i: nat, c: Calls) returns (r: HResult)
      requires Valid() && i < |streams|
      modifies {streams[i]}`state, {streams[i]}`events, {streams[i]}`allocatorSamples
      ensures Valid()
      ensures r == old(streams[i].LifecycleResult(c))
      ensures r == S_OK ==> streams[i].state == STOPPED && streams[i].allocatorSamples == 0 &&
                            streams[i].events == old(streams[i].events) + [StreamStopped]
      ensures r != S_OK ==> streams[i].events == old(streams[i].events)
      ensures forall j :: 0 <= j < |streams| && j != i ==>
                streams[j].state == old(streams[j].state) && streams[j].events == old(streams[j].events) &&
                streams[j].allocatorSamples == old(streams[j].allocatorSamples)
    {
      r := streams[i].Stop(c);
    }

    /** One turn of Stop's loop: stops stream i, then deselects it. */
    method StopStep(calls: seq<StopCalls>, ghost rs: seq<HResult>, ghost logs: seq<seq<Event>>, i: nat)
      returns (hr: HResult)
      requires Valid() && i < |streams| && StopProgress(calls, rs, logs, i)
      modifies this`selection, {streams[i]}`state, {streams[i]}`events, {streams[i]}`allocatorSamples
      ensures Valid()
      ensures hr == S_OK ==> StopProgress(calls, rs, logs, i + 1)
      ensures hr != S_OK ==> hr == FirstFailed(rs)
    {
      assert forall j :: 0 <= j < 2 * i ==> Succeeded(rs[j]);
      var r := StopAt(i, calls[i].stream);
      if Failed(r) {
        FirstFailedAt(rs, 2 * i);
        hr := r;
      } else if Failed(calls[i].deselect) {
        FirstFailedAt(rs, 2 * i + 1);
        hr := calls[i].deselect;
      } else {
        selection := selection[i := false];
        hr := S_OK;
      }
    }

    /** Stop's loop: stops and deselects every stream in turn and returns
        the first failure, or S_OK. */
    method StopStreams(calls: seq<StopCalls>, ghost rs: seq<HResult>) returns (hr: HResult)
      requires Valid() && |calls| == |streams| && rs == StopResults(streams, calls)
      modifies this`selection, streams`state, streams`events, streams`allocatorSamples
      ensures Valid()
      ensures hr == FirstFailed(rs)
      ensures hr == S_OK ==> forall j :: 0 <= j < |streams| ==>
                && streams[j].state == STOPPED && !selection[j] && streams[j].allocatorSamples == 0
                && streams[j].events == old(streams[j].events) + [StreamStopped]
    {
      ghost var logs := EventsOf(streams);
      var i := 0;
      while i < |streams|
        invariant 0 <= i <= |streams|
        invariant Valid()
        invariant StopProgress(calls, rs, logs, i)
      {
        hr := StopStep(calls, rs, logs, i);
        if hr != S_OK {
          return hr;
        }
        i := i + 1;
      }
      return S_OK;
    }

    /** Stop once the queue and the descriptor are known to be there. */
    method StopRunning(calls: seq<StopCalls>, ghost rs: seq<HResult>, queue: HResult, now: int)
      returns (hr: HResult)
      requires Valid() && |calls| == |streams| && rs == StopResults(streams, calls)
      modifies this`selection, this`events, streams`state, streams`events, streams`allocatorSamples
      ensures Valid()
      ensures hr == FirstFailed(rs + [queue])
      ensures hr == S_OK ==>
                && events == old(events) + [SourceStopped(now)]
                && forall j :: 0 <= j < |streams| ==>
                     && streams[j].state == STOPPED && !selection[j] && streams[j].allocatorSamples == 0
                     && streams[j].events == old(streams[j].events) + [StreamStopped]
      ensures hr != S_OK ==> events == old(events)
    {
      FirstFailedAppend(rs, [queue]);
      hr := StopStreams(calls, rs);
      if Failed(hr) {
        return hr;
      }
      if Failed(queue) {
        FirstFailedAt([queue], 0);
        return queue;
      }
      events := events + [SourceStopped(now)];
      return S_OK;
    }

    /** Stops every stream and deselects it, then queues MESourceStopped;
        the first failure is returned as is. Without a queue or a
        descriptor (after shutdown) it fails and changes nothing. Only the
        streams' states, event logs and allocators change: each keeps its
        queue, allocator, descriptor and configuration. */
    method Stop(calls: seq<StopCalls>, queue: HResult, now: int) returns (hr: HResult)
      requires Valid() && |calls| == |streams|
      modifies this`selection, this`events, streams`state, streams`events, streams`allocatorSamples
      ensures Valid()
      ensures !old(hasQueue) || !old(hasDescriptor) ==>
                hr == MF_E_SHUTDOWN && unchanged(this) && forall j :: 0 <= j < |streams| ==> unchanged(streams[j])
      ensures old(hasQueue) && old(hasDescriptor) ==>
                hr == FirstFailed(old(StopResults(streams, calls)) + [queue])
      ensures hr == S_OK ==>
                && events == old(events) + [SourceStopped(now)]
                && forall j :: 0 <= j < |streams| ==>
                     && streams[j].state == STOPPED && !selection[j] && streams[j].allocatorSamples == 0
                     && streams[j].events == old(streams[j].events) + [StreamStopped]
      ensures old(hasQueue) && old(hasDescriptor) && hr != S_OK ==> events == old(events)
      ensures forall j :: 0 <= j < |streams| ==>
                && streams[j].hasQueue == old(streams[j].hasQueue)
                && streams[j].hasAllocator == old(streams[j].hasAllocator)
                && streams[j].hasDescriptor == old(streams[j].hasDescriptor)
    {
      if !hasQueue || !hasDescriptor {
        return MF_E_SHUTDOWN;
      }
      hr := StopRunning(calls, StopResults(streams, calls), queue, now);
    }

    /* IMFMediaEventGenerator and the descriptor: guards in front of the
       queue and the descriptor, whose own results are `queue` and `clone`. */

    method BeginGetEvent(queue: HResult) returns (hr: HResult)
      ensures hr == (if !hasQueue then MF_E_SHUTDOWN else Forward(queue))
    {
      if !hasQueue {
        return MF_E_SHUTDOWN;
      }
      return Forward(queue);
    }

    method EndGetEvent(outPresent: bool, queue: HResult) returns (hr: HResult)
      ensures hr == (if !outPresent then E_POINTER
                     else if !hasQueue then MF_E_SHUTDOWN
                     else Forward(queue))
    {
      if !outPresent {
        return E_POINTER;
      }
      if !hasQueue {
        return MF_E_SHUTDOWN;
      }
      return Forward(queue);
    }

    method GetEvent(outPresent: bool, queue: HResult) returns (hr: HResult)
      ensures hr == (if !outPresent then E_POINTER
                     else if !hasQueue then MF_E_SHUTDOWN
                     else Forward(queue))
    {
      if !outPresent {
        return E_POINTER;
      }
      if !hasQueue {
        return MF_E_SHUTDOWN;
      }
      return Forward(queue);
    }

    method QueueEvent(kind: int, status: HResult, queue: HResult) returns (hr: HResult)
      modifies this`events
      ensures hr == (if !hasQueue then MF_E_SHUTDOWN else Forward(queue))
      ensures events == old(events) + (if hr == S_OK then [SourceQueued(kind, status)] else [])
    {
      if !hasQueue {
        return MF_E_SHUTDOWN;
      }
      if Failed(queue) {
        return queue;
      }
      events := events + [SourceQueued(kind, status)];
      return S_OK;
    }

    method CreatePresentationDescriptor(outPresent: bool, clone: HResult) returns (hr: HResult)
      ensures hr == (if !outPresent then E_POINTER
                     else if !hasDescriptor then MF_E_SHUTDOWN
                     else Forward(clone))
    {
      if !outPresent {
        return E_POINTER;
      }
      if !hasDescriptor {
        return MF_E_SHUTDOWN;
      }
      return Forward(clone);
    }

    /** Pausing is not supported. */
    method Pause() returns (hr: HResult)
      ensures hr == MF_E_INVALID_STATE_TRANSITION
    {
      return MF_E_INVALID_STATE_TRANSITION;
    }

    /** Shuts the queue down and releases it, shuts every stream down, and
        releases the descriptor and the attribute store. Without a queue
        (already shut down) it fails and changes nothing. */
    method Shutdown() returns (hr: HResult)
      requires Valid()
      modifies this`hasQueue, this`hasDescriptor, this`hasAttributes, streams
      ensures Valid()
      ensures hr == (if old(hasQueue) then S_OK else MF_E_SHUTDOWN)
      ensures !old(hasQueue) ==> unchanged(this) && forall j :: 0 <= j < |streams| ==> unchanged(streams[j])
      ensures old(hasQueue) ==> !hasQueue && !hasDescriptor && !hasAttributes
      ensures old(hasQueue) ==> forall j :: 0 <= j < |streams| ==>
                !streams[j].hasQueue && !streams[j].hasDescriptor &&
                !streams[j].hasSource && !streams[j].hasAttributes &&
                streams[j].state == old(streams[j].state) && streams[j].events == old(streams[j].events)
    {
      if !hasQueue {
        return MF_E_SHUTDOWN;
      }
      hasQueue := false;
      var i := 0;
      while i < |streams|
        invariant 0 <= i <= |streams|
        invariant Valid() && !hasQueue
        invariant forall j :: 0 <= j < i ==>
                    !streams[j].hasQueue && !streams[j].hasDescriptor &&
                    !streams[j].hasSource && !streams[j].hasAttributes &&
                    streams[j].state == old(streams[j].state) && streams[j].events == old(streams[j].events)
        invariant forall j :: i <= j < |streams| ==> unchanged(streams[j])
      {
        streams[i].Shutdown();
        i := i + 1;
      }
      hasDescriptor := false;
      hasAttributes := false;
      return S_OK;
    }

    /** Attributes of the stream at position `id`. */
    method GetStreamAttributes(id: nat, outPresent: bool) returns (hr: HResult)
      ensures hr == (if !outPresent then E_POINTER else if id >= |streams| then E_FAIL else S_OK)
    {
      if !outPresent {
        return E_POINTER;
      }
      if id >= |streams| {
        return E_FAIL;
      }
      return S_OK;
    }

    /** Hands an allocator to the stream whose identifier is `id`. */
    method SetDefaultAllocator(id: int, allocatorPresent: bool, query: HResult) returns (hr: HResult)
      requires Valid()
      modifies streams
      ensures Valid()
      ensures hr == (if !allocatorPresent then E_POINTER
                     else if old(IndexOf(id)) < 0 then E_FAIL
                     else query)
      ensures forall j :: 0 <= j < |streams| && (!allocatorPresent || old(IndexOf(id)) < 0 || j != old(IndexOf(id))) ==>
                unchanged(streams[j])
      ensures allocatorPresent && old(IndexOf(id)) >= 0 ==>
                var s := streams[old(IndexOf(id))];
                (s.hasAllocator <==> Succeeded(query)) && s.allocatorSamples == 0
    {
      if !allocatorPresent {
        return E_POINTER;
      }
      var index := GetStreamIndexById(id);
      if index < 0 {
        return E_FAIL;
      }
      hr := AllocateAt(index, query);
    }

    /** Hands the allocator to the stream at position `index`; no other
        stream changes. */
    method AllocateAt(index: nat, query: HResult) returns (hr: HResult)
      requires Valid() && index < |streams|
      modifies streams[index]
      ensures Valid()
      ensures hr == query
      ensures forall j :: 0 <= j < |streams| && j != index ==> unchanged(streams[j])
      ensures (streams[index].hasAllocator <==> Succeeded(query)) && streams[index].allocatorSamples == 0
    {
      hr := streams[index].SetAllocator(true, query);
    }

    /** Reports, for the stream whose identifier is `id`, that it uses the
        allocator it is given, and names that same identifier as input. */
    method GetAllocatorUsage(id: int, usagePresent: bool, inputPresent: bool)
      returns (hr: HResult, inputId: int, usage: AllocatorUsage)
      requires Valid()
      ensures hr == (if !usagePresent || !inputPresent then E_POINTER
                     else if IndexOf(id) < 0 then E_FAIL
                     else S_OK)
      ensures hr == S_OK ==> inputId == id && usage == UsesProvidedAllocator
    {
      if !usagePresent || !inputPresent {
        return E_POINTER, 0, UsesProvidedAllocator;
      }
      var index := GetStreamIndexById(id);
      if index < 0 {
        return E_FAIL, 0, UsesProvidedAllocator;
      }
      return S_OK, id, streams[index].GetAllocatorUsage();
    }

    /* IKsControl: no property, method or event set is supported. */

    method KsProperty(propertyPresent: bool, length: nat, bytesReturnedPresent: bool) returns (hr: HResult)
      ensures Failed(hr)
      ensures hr == E_POINTER <==> !propertyPresent || !bytesReturnedPresent
      ensures hr == E_INVALIDARG <==> propertyPresent && bytesReturnedPresent && length < KSPROPERTY_SIZE
      ensures propertyPresent && bytesReturnedPresent && length >= KSPROPERTY_SIZE ==>
                hr == FromWin32(ERROR_SET_NOT_FOUND)
    {
      if !propertyPresent || !bytesReturnedPresent {
        return E_POINTER;
      }
      if length < KSPROPERTY_SIZE {
        return E_INVALIDARG;
      }
      return FromWin32(ERROR_SET_NOT_FOUND);
    }

    method KsMethod(methodPresent: bool, bytesReturnedPresent: bool) returns (hr: HResult)
      ensures Failed(hr)
      ensures hr == E_POINTER <==> !methodPresent || !bytesReturnedPresent
      ensures methodPresent && bytesReturnedPresent ==> hr == FromWin32(ERROR_SET_NOT_FOUND)
    {
      if !methodPresent || !bytesReturnedPresent {
        return E_POINTER;
      }
      return FromWin32(ERROR_SET_NOT_FOUND);
    }

    method KsEvent(bytesReturnedPresent: bool) returns (hr: HResult)
      ensures Failed(hr)
      ensures hr == (if bytesReturnedPresent then FromWin32(ERROR_SET_NOT_FOUND) else E_POINTER)
    {
      if !bytesReturnedPresent {
        return E_POINTER;
      }
      return FromWin32(ERROR_SET_NOT_FOUND);
    }
  }
}
