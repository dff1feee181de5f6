# VCamSample virtual camera: a Dafny model of its core

This project models, in Dafny, the core of a Windows virtual camera. It
covers four parts and proves properties of each:

- **The RGB32 to NV12 colour converter.** It uses the 8-bit fixed-point
  BT.601 equations with studio-range quantisation. It converts a packed
  RGB32 image two rows at a time into a full-size luma plane, followed by
  a half-height plane of interleaved U/V pairs that starts at output row
  `height`.
- **The media stream** (`MediaStream`). It holds a lifecycle state
  (STOPPED, PAUSED, RUNNING). It also holds the Media Foundation objects
  it owns (event queue, sample allocator, stream descriptor, owning
  source, attribute store), modelled by presence, and the events it
  queues.
- **The media source** (`MediaSource`). It looks streams up by
  identifier and starts and stops them against a presentation
  descriptor, modelled as one selection flag per stream. It also covers
  shutdown, the MF_E_SHUTDOWN guards, the allocator hand-off, the
  IKsControl stubs, and the constructor. The constructor creates the
  streams, reads the configuration from the `SOFTWARE\VCamSample`
  registry key and pushes it down to the streams.
- **The tray application.** It loads its settings from the
  `SOFTWARE\WinCamHTTP` registry key. It registers the virtual camera
  only when the settings are present, and removes the camera at exit only
  if it was started.

Modelling choices:

- Every call into Media Foundation, the registry or the virtual-camera
  API is an input to the model: the HRESULT (or registry status and data)
  that the call returned. HRESULTs are symbolic (`HResults.HResult`).
- Event queues are kept as logs of the events queued, oldest first.
- The media source's streams are a `seq<MediaStream>` of objects that the
  source's methods change in place.
- The converter works in place on an `array<Byte>`. Its result is
  specified by the function `Nv12Image`. Lemmas then state what each
  luma and chroma byte of `Nv12Image` holds.

Files:

- `common.dfy`: HRESULTs, `RETURN_IF_FAILED` chains and registry reads.
- `tools.dfy`: the colour converter.
- `media_stream.dfy`: the stream.
- `media_source.dfy`: the source.
- `wincamhttp.dfy`: the tray application.

Three behaviours of the code worth noting:

- Each 2x2 block's U/V pair comes from the lower-left pixel. The write
  from the upper-left pixel is overwritten.
- `MediaStream::RequestSample` does not look at the stream's state.
- `MediaStream::SetStreamState` assigns instead of comparing (see Findings).

Two registry readers differ, and the model keeps both as written:

- **The media source** reads `SOFTWARE\VCamSample`. It checks the value
  types (REG_SZ, REG_DWORD) and defaults to 1920x1080.
- **The tray application** reads `SOFTWARE\WinCamHTTP`. It checks no
  type, defaults to 640x480, and keeps the caller's URL when that read
  fails.

`MediaSource::Start` reads the state of the stream at the loop position
`i`, not at the looked-up `index`. `Sources.MediaSource.Reconcile` keeps
that distinction: it decides from stream `i` and acts on stream `k`.

## Model

| member | source | states |
|---|---|---|
| ColorConversion.LumaRounding | VCamSampleSource/Tools.cpp:164-174 | Luma lies in [16, 235]. `y - 16` is 66R + 129G + 25B rounded to the nearest multiple of 256, with the shift taken as floor division. |
| ColorConversion.ChromaRounding | VCamSampleSource/Tools.cpp:164-169 | U and V each lie in [16, 240], each the rounded value of its BT.601 row offset by 128. The Y that RGB24ToYUY2 writes is RGB24ToY's. |
| ColorConversion.GreyIsNeutral | VCamSampleSource/Tools.cpp:167-168 | A pixel with R = G = B has U = V = 128. |
| ColorConversion.LumaExtremes | VCamSampleSource/Tools.cpp:171-174 | Black gives luma 16 and white gives 235. |
| ColorConversion.LumaMonotone | VCamSampleSource/Tools.cpp:171-174 | Luma never decreases when any one channel grows. |
| ColorConversion.ConvertBlock | VCamSampleSource/Tools.cpp:176-182 | One 2x2 block writes exactly six output bytes: four lumas, then the U/V pair of the lower-left pixel (the pair from the upper-left pixel is overwritten). It reads the pixel bytes as B, G, R, X. |
| ColorConversion.ConvertBlockAt | VCamSampleSource/Tools.cpp:197-205 | One turn of the inner loop advances the partially converted frame by exactly one block at the offsets the loop keeps. |
| ColorConversion.ConvertRowPair | VCamSampleSource/Tools.cpp:191-206 | One pass of the row loop converts source rows h and h + 1 completely, addressing the source at `r * inputStride` and the output at `r * outputStride`. |
| ColorConversion.ConvertFrame | VCamSampleSource/Tools.cpp:191-207 | The row loop leaves the output equal to `Nv12Image` of the input over the old output. |
| ColorConversion.RGB32ToNV12 | VCamSampleSource/Tools.cpp:184-209 | A null buffer gives E_INVALIDARG (both directions). Failing size checks give E_UNEXPECTED (both directions). Either failure writes nothing. On S_OK the output is `Nv12Image`, and the input is only read. |
| ColorConversion.LumaOfPixel | VCamSampleSource/Tools.cpp:171-195 | Luma byte (r, c) of the converted frame is the luma of source pixel (r, c). This holds for every row of a complete row pair and every written column, and the two strides are independent. |
| ColorConversion.ChromaOfPixel | VCamSampleSource/Tools.cpp:176-197 | At each even column c, chroma row j (output row `height + j`) holds the U and then the V of source pixel (2j + 1, c), the lower-left pixel of its block. |
| ColorConversion.OutsideUntouched | VCamSampleSource/Tools.cpp:191-207 | Stride padding right of the written columns, an odd last source row, and everything below the chroma plane keep their old bytes. |
| ColorConversion.GreyLuma | VCamSampleSource/Tools.cpp:164-207 | A uniformly grey image converts to luma Rgb24ToY(g, g, g) in every luma cell. |
| ColorConversion.GreyChroma | VCamSampleSource/Tools.cpp:164-207 | A uniformly grey image converts to chroma 128 in every chroma cell. |
| ColorConversion.ZeroHeightUnchanged | VCamSampleSource/Tools.cpp:191 | With the intended loop bound, a zero height converts nothing. |
| ColorConversion.SizesAcceptedAsWritten | VCamSampleSource/Tools.cpp:188-189 | The two size checks on 32-bit unsigned products, the second scaled by 1.5 and truncated. |
| ColorConversion.RowLoopBoundAsWritten | VCamSampleSource/Tools.cpp:191 | The loop bound `height - 1` on an unsigned int equals height - 1 for every positive height. |
| ColorConversion.GuardWrapAsWritten | VCamSampleSource/Tools.cpp:188 | A 32768 x 32768 image with a declared input size of 0 passes the checks as written, but not the intended ones. |
| ColorConversion.GuardAgreesBelowWrap | VCamSampleSource/Tools.cpp:188-189 | While `width * 4 * height` fits in 32 bits, the checks as written and the intended checks agree. |
| ColorConversion.ZeroHeightAsWritten | VCamSampleSource/Tools.cpp:188-191 | Height 0 passes both checks whatever the buffers, and the loop bound as written is then 2^32 - 1. |
| ColorConversion.RowLoopAgrees | VCamSampleSource/Tools.cpp:191 | For every positive height, the model's loop test `h + 1 < height` is the source's `h < height - 1`. |
| HResults.FromWin32 | VCamSampleSource/MediaSource.cpp:361 | HRESULT_FROM_WIN32 succeeds exactly for ERROR_SUCCESS. |
| HResults.Forward | VCamSampleSource/MediaStream.cpp:149-150 | A guarded call hands back its failure unchanged, and any success becomes S_OK. |
| HResults.FirstFailed | VCamSampleSource/MediaStream.cpp:51-55 | A chain of guarded calls returns S_OK exactly when every call succeeded, and otherwise one of the failures. |
| HResults.FirstFailedAt | VCamSampleSource/MediaStream.cpp:51-55 | The failure returned is the first one, with only successes before it. |
| HResults.FirstFailedAppend | VCamSampleSource/MediaSource.cpp:246-253 | Two chains run one after the other fail where the first fails, and otherwise where the second does. |
| Registry.CString | VCamSampleSource/MediaSource.h:75 | A wide-character buffer read as a C string is its longest NUL-free prefix. |
| Streams.MediaStream.constructor | VCamSampleSource/MediaStream.h:22-27 | A new stream is STOPPED with index 0, holds no queue, allocator, descriptor or source, and has queued nothing. |
| Streams.MediaStream.Initialize | VCamSampleSource/MediaStream.cpp:8-47 | A null source gives E_POINTER. Otherwise the result is the first failing creation step. The queue exists exactly when its creation was reached and succeeded, and the descriptor likewise, carrying the stream's index as its identifier. |
| Streams.MediaStream.LifecycleResult | VCamSampleSource/MediaStream.cpp:49-66 | Start and Stop return S_OK exactly when the queue and the allocator are present and both foreign calls succeed. A missing queue or allocator gives MF_E_SHUTDOWN, and otherwise the first failing call's result. |
| Streams.MediaStream.Start | VCamSampleSource/MediaStream.cpp:49-56 | Initialises the allocator with 10 samples and queues MEStreamStarted, and only then enters RUNNING. On any failure the state and events are unchanged. |
| Streams.MediaStream.Stop | VCamSampleSource/MediaStream.cpp:58-66 | Uninitialises the allocator and queues MEStreamStopped, and only then enters STOPPED. On any failure the state and events are unchanged. |
| Streams.MediaStream.GetAllocatorUsage | VCamSampleSource/MediaStream.cpp:68-71 | Always UsesProvidedAllocator. |
| Streams.MediaStream.SetAllocator | VCamSampleSource/MediaStream.cpp:73-78 | A null allocator gives E_POINTER and changes nothing. Otherwise the old allocator is dropped, the result is QueryInterface's, and the stream holds an uninitialised allocator exactly when that succeeded. |
| Streams.MediaStream.Shutdown | VCamSampleSource/MediaStream.cpp:129-140 | Releases the queue, descriptor, source and attributes, and keeps the state and the allocator. A second call is harmless. |
| Streams.MediaStream.BeginGetEvent | VCamSampleSource/MediaStream.cpp:143-151 | MF_E_SHUTDOWN without a queue, otherwise the queue's result. |
| Streams.MediaStream.EndGetEvent | VCamSampleSource/MediaStream.cpp:153-163 | E_POINTER for a null out-pointer, then MF_E_SHUTDOWN without a queue, otherwise the queue's result. |
| Streams.MediaStream.GetEvent | VCamSampleSource/MediaStream.cpp:165-175 | E_POINTER for a null out-pointer, then MF_E_SHUTDOWN without a queue, otherwise the queue's result. |
| Streams.MediaStream.QueueEvent | VCamSampleSource/MediaStream.cpp:177-185 | MF_E_SHUTDOWN without a queue. The client's event is logged exactly when the result is S_OK. |
| Streams.MediaStream.GetMediaSource | VCamSampleSource/MediaStream.cpp:188-197 | E_POINTER for a null out-pointer, then MF_E_SHUTDOWN without a source, otherwise S_OK. |
| Streams.MediaStream.GetStreamDescriptor | VCamSampleSource/MediaStream.cpp:199-209 | E_POINTER for a null out-pointer, then MF_E_SHUTDOWN without a descriptor, otherwise S_OK. |
| Streams.MediaStream.RequestSample | VCamSampleSource/MediaStream.cpp:211-243 | MF_E_SHUTDOWN without an allocator or a queue. Otherwise the first failing call, where setting the token counts only for a non-null token. On S_OK exactly one MEMediaSample is queued, stamped with the time, duration 333333 and the token. The state is not consulted. |
| Streams.MediaStream.SetStreamState | VCamSampleSource/MediaStream.cpp:246-273 | As written, the value is always stored, and a legal state value keeps the stream valid. A non-zero value returns S_OK at once with nothing else changed. STOPPED goes on to Stop and returns Stop's result: MEStreamStopped is queued exactly on S_OK, and the allocator is uninitialised exactly when the queue and allocator are there and its Uninitialize succeeds, even if the queueing then fails. |
| Streams.MediaStream.SetStreamStateCorrected | VCamSampleSource/MediaStream.cpp:249-272 | With a comparison, the switch applies: PAUSED only from RUNNING, RUNNING through Start, STOPPED through Stop, anything else MF_E_INVALID_STATE_TRANSITION. The state changes only on S_OK. |
| Streams.MediaStream.GetStreamState | VCamSampleSource/MediaStream.cpp:275-281 | E_POINTER for a null out-pointer, otherwise S_OK with the current state. |
| Streams.PauseFromStoppedAsWritten | VCamSampleSource/MediaStream.cpp:249-250 | As written, a new stream accepts PAUSED and is left in it. |
| Streams.PauseFromStoppedCorrected | VCamSampleSource/MediaStream.cpp:253-255 | With the comparison, the same request is refused and the stream stays STOPPED. |
| Streams.RunningWithoutStartAsWritten | VCamSampleSource/MediaStream.cpp:249-261 | As written, asking a ready stream for RUNNING returns S_OK without starting it: no MEStreamStarted and no allocator pool. |
| Streams.RunningStartsCorrected | VCamSampleSource/MediaStream.cpp:260-262 | With the comparison, RUNNING succeeds exactly when Start does, and then the pool is allocated and MEStreamStarted queued. |
| Sources.Reconciled | VCamSampleSource/MediaSource.cpp:198-205 | Once the selection is reconciled with the state, a stream counts as selected exactly when it is not STOPPED. |
| Sources.Decide | VCamSampleSource/MediaSource.cpp:198-230 | Start keeps a stream exactly when the request matches the reconciled selection. It selects exactly when a STOPPED stream is requested, and deselects exactly when a running or paused one is not. |
| Sources.FirstMatch | VCamSampleSource/MediaSource.cpp:54-70 | The lookup result is the first position whose identifier matches, with only other identifiers before it. It is -1 only when there is no match or a descriptor-less stream comes before it. |
| Sources.FirstMatchFound | VCamSampleSource/MediaSource.cpp:66-67 | A match preceded only by other identifiers is the result. |
| Sources.FirstMatchMissing | VCamSampleSource/MediaSource.cpp:59-69 | A failing descriptor read before any match, or no match at all, gives -1. |
| Sources.StartedState | VCamSampleSource/MediaSource.cpp:208-229 | After Start, an unrequested stream is STOPPED, a requested STOPPED stream is RUNNING, and a requested running or paused stream is as it was. |
| Sources.StartedSelection | VCamSampleSource/MediaSource.cpp:208-229 | After Start, a stream's descriptor flag is the request where the stream had to change, and the old flag otherwise. |
| Sources.StartedEvents | VCamSampleSource/MediaSource.cpp:208-229 | A stream whose state Start leaves alone gets no event; one it moves to RUNNING gets MEStreamStarted and one it moves to STOPPED gets MEStreamStopped. |
| Sources.StopResults | VCamSampleSource/MediaSource.cpp:246-250 | The results Stop meets, in order: each stream's Stop result, then its deselection. |
| Sources.CreateStreams | VCamSampleSource/MediaSource.h:57-62 | Makes distinct fresh streams. Stream i is initialised with index i and its own source, and is STOPPED with no allocator. Any descriptor carries identifier i. |
| Sources.MediaSource.constructor | VCamSampleSource/MediaSource.h:53-121 | Creates NUM_STREAMS = 1 streams. If the key opens, the URL is the REG_SZ value (else ""), and width and height are the REG_DWORD values (else 1920 and 1080). If the key does not open, the configuration is ("", 1920, 1080). Every stream receives the configuration. |
| Sources.MediaSource.PushConfiguration | VCamSampleSource/MediaSource.h:113-120 | Every stream receives the URL (only when it is non-empty, since a stream starts with none) and the resolution, and nothing else of the stream changes. |
| Sources.MediaSource.Initialize | VCamSampleSource/MediaSource.cpp:42-51 | A stream without a descriptor gives MF_E_SHUTDOWN and changes nothing. Otherwise the result is that of the descriptor creation then the queue creation. A new descriptor has every stream deselected. |
| Sources.MediaSource.GetStreamIndexById | VCamSampleSource/MediaSource.cpp:54-70 | The search loop returns exactly FirstMatch of the streams' identifiers. |
| Sources.MediaSource.IndexIsIdentifier | VCamSampleSource/MediaSource.cpp:54-70 | Since stream j's descriptor carries identifier j, a successful lookup returns the identifier itself. It succeeds exactly when that stream and every one before it has a descriptor. |
| Sources.MediaSource.SelectAndStart | VCamSampleSource/MediaSource.cpp:210-224 | Selects the stream, queues MENewStream, reads its media type and starts it, each step only after the previous one succeeded. The result is the first failure or the stream's Start result. |
| Sources.MediaSource.DeselectAndStop | VCamSampleSource/MediaSource.cpp:225-229 | Deselects the stream and then stops it. The result is the first failure. |
| Sources.MediaSource.Locate | VCamSampleSource/MediaSource.cpp:182-194 | The lookups of one request, failing in order. An unknown identifier gives E_FAIL. On success, the index is the lookup's result. |
| Sources.MediaSource.Reconcile | VCamSampleSource/MediaSource.cpp:196-230 | Selects, deselects or keeps stream k as Decide says, judging from the flag of k and the state of stream i. On S_OK stream k gets MEStreamStarted when it was started, MEStreamStopped when it was stopped, and nothing when kept. A failure leaves k's state and events as they were. No other stream's state or events change, and only k's state, events and allocator may change. |
| Sources.MediaSource.StartEntry | VCamSampleSource/MediaSource.cpp:180-231 | One request adds only MENewStream events to the source, and a failure leaves every stream's state as it was. A request naming its own position changes exactly that stream's state, flag and event log, as StartedState, StartedSelection and StartedEvents say; every other stream keeps its state and log. |
| Sources.ReachedStep | VCamSampleSource/MediaSource.cpp:180-231 | Handling request n advances the outcome of the first n requests to that of the first n + 1. |
| Sources.MediaSource.ProgressStep | VCamSampleSource/MediaSource.cpp:180-231 | The streams after one successful request are the loop's progress advanced by that request: the stream it names has the state, flag and log the request gives, and every other stream its earlier ones. |
| Sources.MediaSource.StartStep | VCamSampleSource/MediaSource.cpp:180-231 | One turn of the loop preserves the loop's progress invariant. |
| Sources.MediaSource.StartRequests | VCamSampleSource/MediaSource.cpp:180-231 | The loop returns the first failure, or S_OK with every request handled. |
| Sources.MediaSource.StartRunning | VCamSampleSource/MediaSource.cpp:180-234 | On S_OK exactly one MESourceStarted is queued, after every MENewStream. When request j names stream j, every stream's state, flag and event log are those StartedState, StartedSelection and StartedEvents give. Every stream keeps its queue, allocator and descriptor. |
| Sources.MediaSource.Start | VCamSampleSource/MediaSource.cpp:164-235 | A null descriptor or position gives E_POINTER, a foreign time format E_INVALIDARG, a shut-down source MF_E_SHUTDOWN, and a wrong stream count E_INVALIDARG, each with nothing changed. Before MESourceStarted only MENewStream events are queued. Every stream keeps its queue, allocator and descriptor. When request j names stream j, every stream's final state, flag, MENewStream event and MEStreamStarted or MEStreamStopped event are stated outright. |
| Sources.MediaSource.StopAt | VCamSampleSource/MediaSource.cpp:248 | Stops stream i through its own Stop: the result is that stream's Stop result, on S_OK it is STOPPED with an uninitialised allocator and MEStreamStopped added, on failure its log is unchanged, and no other stream's state, log or allocator changes. |
| Sources.MediaSource.StopStep | VCamSampleSource/MediaSource.cpp:246-250 | One turn stops stream i and then deselects it: on S_OK it is STOPPED, deselected, with an uninitialised allocator and MEStreamStopped on its log, while the later streams keep their logs and the Stop results they would give. A failure is the first failure of the whole chain. |
| Sources.MediaSource.StopStreams | VCamSampleSource/MediaSource.cpp:246-250 | The loop returns the first failure of the chain. On S_OK every stream is STOPPED and deselected, its allocator uninitialised and exactly one MEStreamStopped added to its log. |
| Sources.MediaSource.StopRunning | VCamSampleSource/MediaSource.cpp:243-253 | MESourceStopped is queued exactly when every stream stopped and was deselected and the queueing succeeded, and no source event is queued on failure. On S_OK each stream's allocator is uninitialised and its log gains MEStreamStopped. |
| Sources.MediaSource.Stop | VCamSampleSource/MediaSource.cpp:237-254 | MF_E_SHUTDOWN with nothing changed after shutdown. Otherwise the result is the first failure in index order. On S_OK every stream is STOPPED and deselected, its allocator uninitialised and MEStreamStopped queued on it, and MESourceStopped is queued on the source. Every stream keeps its queue, allocator and descriptor, and only states, logs, allocators and flags may change. |
| Sources.MediaSource.BeginGetEvent | VCamSampleSource/MediaSource.cpp:73-81 | MF_E_SHUTDOWN without a queue, otherwise the queue's result. |
| Sources.MediaSource.EndGetEvent | VCamSampleSource/MediaSource.cpp:83-93 | E_POINTER for a null out-pointer, then MF_E_SHUTDOWN without a queue. |
| Sources.MediaSource.GetEvent | VCamSampleSource/MediaSource.cpp:95-105 | E_POINTER for a null out-pointer, then MF_E_SHUTDOWN without a queue. |
| Sources.MediaSource.QueueEvent | VCamSampleSource/MediaSource.cpp:107-115 | MF_E_SHUTDOWN without a queue. The event is logged exactly on S_OK. |
| Sources.MediaSource.CreatePresentationDescriptor | VCamSampleSource/MediaSource.cpp:118-128 | E_POINTER for a null out-pointer, then MF_E_SHUTDOWN without a descriptor, otherwise the clone's result. |
| Sources.MediaSource.Pause | VCamSampleSource/MediaSource.cpp:139-143 | Always MF_E_INVALID_STATE_TRANSITION, with nothing changed. |
| Sources.MediaSource.Shutdown | VCamSampleSource/MediaSource.cpp:145-162 | Without a queue, MF_E_SHUTDOWN with nothing changed, so a second call is an error. Otherwise it releases the queue, descriptor and attributes, shuts every stream down (keeping its state and events), and returns S_OK. |
| Sources.MediaSource.GetStreamAttributes | VCamSampleSource/MediaSource.cpp:278-288 | E_POINTER for a null out-pointer, then E_FAIL for a position past the streams, otherwise S_OK. |
| Sources.MediaSource.SetDefaultAllocator | VCamSampleSource/MediaSource.cpp:314-325 | E_POINTER for a null allocator, then E_FAIL for an unknown identifier, otherwise the stream's SetAllocator result. Only the identified stream changes. |
| Sources.MediaSource.AllocateAt | VCamSampleSource/MediaSource.cpp:324 | Hands the allocator to one stream, and no other stream changes. |
| Sources.MediaSource.GetAllocatorUsage | VCamSampleSource/MediaSource.cpp:327-341 | E_POINTER for either null out-pointer, then E_FAIL for an unknown identifier. Otherwise S_OK, the same identifier as input, and UsesProvidedAllocator. |
| Sources.MediaSource.KsProperty | VCamSampleSource/MediaSource.cpp:344-362 | Always a failure: E_POINTER for a null property or byte count (both directions), E_INVALIDARG for a property shorter than KSPROPERTY (both directions), and otherwise HRESULT_FROM_WIN32(ERROR_SET_NOT_FOUND). |
| Sources.MediaSource.KsMethod | VCamSampleSource/MediaSource.cpp:364-372 | Always a failure: E_POINTER for a null method or byte count (both directions), and otherwise ERROR_SET_NOT_FOUND. |
| Sources.MediaSource.KsEvent | VCamSampleSource/MediaSource.cpp:374-385 | Always a failure: E_POINTER for a null byte count, and otherwise ERROR_SET_NOT_FOUND, whatever the event. |
| TrayApp.LoadSettingsFromRegistry | WinCamHTTP/WinCamHTTP.cpp:134-178 | A key that does not open gives HRESULT_FROM_WIN32 of its status and touches no setting. Otherwise the result is S_OK. The URL is kept when its read fails, width and height default to 640 and 480, and the name defaults to "WinCamHTTP Virtual Camera". No value type is checked. |
| TrayApp.RegistrationSteps | WinCamHTTP/WinCamHTTP.cpp:219-237 | The camera is created exactly when creation succeeds, and started exactly when both calls do. |
| TrayApp.ExitSteps | WinCamHTTP/WinCamHTTP.cpp:118-125 | The camera is removed exactly when it was started and is held, and released exactly when it is held. Media Foundation is shut down last. |
| TrayApp.Application.constructor | WinCamHTTP/WinCamHTTP.cpp:30 | The process starts with no camera, not started, and nothing done. |
| TrayApp.Application.RegisterVirtualCamera | WinCamHTTP/WinCamHTTP.cpp:219-237 | Creation and then start. The result is the first failure, and the camera is held exactly when its creation succeeded. |
| TrayApp.Application.UnregisterVirtualCamera | WinCamHTTP/WinCamHTTP.cpp:239-251 | Always S_OK, with or without a camera and whatever Remove returns. Removal happens exactly when a camera is held. |
| TrayApp.Application.CleanUp | WinCamHTTP/WinCamHTTP.cpp:118-125 | Unregisters only a started camera, removes the tray icon, releases the camera and shuts Media Foundation down. |
| TrayApp.Application.Session | WinCamHTTP/WinCamHTTP.cpp:82-125 | `_cameraStarted` becomes true exactly when registration succeeds, and removal at exit happens only then. |
| TrayApp.Application.WinMain | WinCamHTTP/WinCamHTTP.cpp:30-132 | No window, or Media Foundation failing to start, exits with -1 having done nothing. A settings failure exits with -1 after shutting Media Foundation down and before any registration. Otherwise the exit code is the quit message's. |

## Left out

- The MJPEG framer, the network reader, the JPEG decoder and the scaler.
  Their bodies are not part of this model. `MediaStream::SetMjpegUrl`
  and `SetResolution` are modelled only as storing their arguments.
- `MediaStream::SetD3DManager`, the frame generator and the drawing branch
  of `RequestSample` (Direct3D and Direct2D calls). `RequestSample` is
  modelled with that branch skipped.
- `HSL2RGB` and `HUE2RGB` (floating point), the string, GUID, window and
  registry-write helpers of both `Tools.cpp` files, `CBaseAttributes`, and
  all tracing.
- COM activation, the DLL entry points, the activator, the sensor
  profiles and the AppInfo lookup of `MediaSource::Initialize`. These
  collapse into one input result (`profiles`) of
  `Sources.MediaSource.Initialize`. `GetCharacteristics`, `GetService`,
  `SetMediaType`, `GetSourceAttributes` and `SetD3DManager` of the source
  are not part of this model.
- Locking: every method is taken to run atomically.
- The window, the tray icon's menu and tooltip, message boxes and the
  message loop of the tray application. These reduce to the `Step`
  values they produce, and the loop to one `MessagesPumped` step ending
  in the quit code.
- Clock reads (`MFGetSystemTime`) are a parameter `now`.
- `InitPropVariantFromInt64` in `Start` and `Stop`
  (VCamSampleSource/MediaSource.cpp:178 and :244) is taken to succeed.
- The three COM calls of one turn of `Start`'s loop are inputs of the
  request `Requested`:
  - `GetStreamDescriptorByIndex` on the caller's descriptor (:184) is
    `lookup`;
  - `GetStreamIdentifier` on that descriptor (:187) is `identify`;
  - `GetStreamDescriptorByIndex` on the source's own descriptor (:194) is
    `current`.
- `copy_to` in `Start` (:215) and in `GetStreamAttributes` (:286), and
  `GetStreamIdentifier` inside `GetStreamIndexById` (:63), are taken to
  succeed. A stream without a descriptor still ends the lookup with -1.
- Object identity beyond presence: a queue, allocator, descriptor or
  source is a boolean. The presentation descriptor is one selection flag
  per stream, and MFCreatePresentationDescriptor is taken to start with
  every stream deselected.
- Sources.MediaSource.Start: the final state, flag, MENewStream event and
  MEStreamStarted/MEStreamStopped event of every stream are stated only
  when request j names stream j. That is always so for the single stream
  the source creates. For other request orders the model proves less:
  - a failed argument check changes nothing;
  - a failed request leaves every stream's state as it was before that
    request (StartEntry);
  - only MENewStream events precede MESourceStarted.
- Sources.MediaSource.Start: when the requests succeed but queueing
  MESourceStarted fails, the streams stay started and selected. The
  model states that outcome only through the per-stream ensures under
  the same request-order condition.
- Sources.MediaSource.StartEntry: the outcome is stated per stream only
  for a request naming its own position, for the same reason.
- ColorConversion.RGB32ToNV12: integer widths are unbounded. The size
  checks are modelled without the 32-bit wrap (that wrap is a finding
  below). The converter also requires the buffer layout its addressing
  needs (`Layout`):
  - input rows at least `4 * width` bytes apart (rounded up to an even
    width);
  - output rows at least `width` bytes apart;
  - the last source row inside the input;
  - `height + height / 2` output rows inside the output.
- ColorConversion.RGB32ToNV12: the input and output buffers are taken to
  be distinct. Overlapping buffers are not modelled.

## Findings

| source | as written | input that shows it | evidently intended | confidence | as-written member | corrected member |
|---|---|---|---|---|---|---|
| VCamSampleSource/Tools.cpp:188-191 | The loop bound `height - 1` is computed on an unsigned int, and height 0 passes both size checks | width 2, height 0, input and output sizes 0: the bound wraps to 2^32 - 1, and the first pass reads source rows 0 and 1 of an empty image | a zero-height image converts nothing | not executed | ColorConversion.ZeroHeightAsWritten | ColorConversion.ZeroHeightUnchanged |
| VCamSampleSource/Tools.cpp:188 | `width * 4 * height` is a 32-bit unsigned product, so the input-size check wraps | width 32768, height 32768, input size 0, output size 1610612736: the product is 2^32 and wraps to 0, so the check passes | reject an input smaller than 4 * width * height bytes | not executed | ColorConversion.GuardWrapAsWritten | ColorConversion.RGB32ToNV12 |
| VCamSampleSource/MediaStream.cpp:249 | The test `_state = value` assigns instead of comparing | a new STOPPED stream asked for PAUSED returns S_OK and is left PAUSED; a ready stream asked for RUNNING returns S_OK without Start | compare, then apply the switch's transitions | not executed | Streams.PauseFromStoppedAsWritten | Streams.MediaStream.SetStreamStateCorrected |
