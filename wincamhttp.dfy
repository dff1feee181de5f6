/** The tray application: it loads its settings from the registry, and
    registers the virtual camera only when they are present; at exit it
    removes the camera only if it was started. Windows, the tray icon's
    text and the message loop are reduced to the steps the application
    takes, in order. */
module TrayApp {
  import opened HResults
  import opened Registry

  /** Settings used when the registry does not give them. */
  const DEFAULT_WIDTH: nat := 640
  const DEFAULT_HEIGHT: nat := 480
  const DEFAULT_FRIENDLY_NAME: string := "WinCamHTTP Virtual Camera"

  /** What the process exits with when it cannot run. */
  const EXIT_FAILURE: int := -1

  /** The externally visible steps the application takes. */
  datatype Step =
    | MediaFoundationStarted
    | MediaFoundationShutdown
    | TrayIconAdded
    | TrayIconRemoved
    | CameraCreated
    | CameraStarted
    | CameraRemoved
    | CameraReleased
    | MessagesPumped

  /** Fills the settings from the registry key, one read at a time. A key
      that cannot be opened fails with its Win32 error and leaves every
      setting as it was; otherwise every read that fails is replaced by
      its default (the URL keeps its prior value) and the result is S_OK.
      The value types are not checked. */
  method LoadSettingsFromRegistry(key: Key, url: string, width: nat, height: nat, friendlyName: string)
    returns (hr: HResult, url': string, width': nat, height': nat, friendlyName': string)
    ensures key.status != ERROR_SUCCESS ==>
              && hr == FromWin32(key.status) && Failed(hr)
              && url' == url && width' == width && height' == height && friendlyName' == friendlyName
    ensures key.status == ERROR_SUCCESS ==>
              && hr == S_OK
              && url' == (if key.url.Ok() then CString(key.url.data) else url)
              && width' == (if key.width.Ok() then key.width.data else DEFAULT_WIDTH)
              && height' == (if key.height.Ok() then key.height.data else DEFAULT_HEIGHT)
              && friendlyName' == (if key.friendlyName.Ok() then CString(key.friendlyName.data)
                                   else DEFAULT_FRIENDLY_NAME)
  {
    url', width', height', friendlyName' := url, width, height, friendlyName;
    if key.status != ERROR_SUCCESS {
      return FromWin32(key.status), url', width', height', friendlyName';
    }
    if key.url.Ok() {
      url' := CString(key.url.data);
    }
    width' := key.width.data;
    if !key.width.Ok() {
      width' := DEFAULT_WIDTH;
    }
    height' := key.height.data;
    if !key.height.Ok() {
      height' := DEFAULT_HEIGHT;
    }
    if key.friendlyName.Ok() {
      friendlyName' := CString(key.friendlyName.data);
    } else {
      friendlyName' := DEFAULT_FRIENDLY_NAME;
    }
    return S_OK, url', width', height', friendlyName';
  }

  /** The steps RegisterVirtualCamera takes: creation, then start, each
      only if everything before it succeeded. */
  function RegistrationSteps(create: HResult, start: HResult): (s: seq<Step>)
    ensures CameraCreated in s <==> Succeeded(create)
    ensures CameraStarted in s <==> Succeeded(create) && Succeeded(start)
  {
    if Failed(create) then []
    else if Failed(start) then [CameraCreated]
    else [CameraCreated, CameraStarted]
  }

  /** The clean-up steps at exit: the camera is removed only if it was
      started (and is held), the tray icon always, the camera released if
      it is held. */
  function ExitSteps(started: bool, held: bool): (s: seq<Step>)
    ensures CameraRemoved in s <==> started && held
    ensures CameraReleased in s <==> held
    ensures |s| >= 2 && s[|s| - 1] == MediaFoundationShutdown
  {
    (if started && held then [CameraRemoved] else []) + [TrayIconRemoved]
    + (if held then [CameraReleased] else []) + [MediaFoundationShutdown]
  }

  /** The application's global state: whether it holds a virtual camera,
      whether the camera was started, and the steps taken so far. */
  class Application {
    var hasCamera: bool
    var cameraStarted: bool
    var steps: seq<Step>

    /** The state at process start: no camera, not started, nothing done. */
    constructor ()
      ensures !hasCamera && !cameraStarted && steps == []
    {
      hasCamera, cameraStarted, steps := false, false, [];
    }

    /** Creates the virtual camera, then starts it; each failure is
        returned as is. A camera whose creation failed is not held. */
    method RegisterVirtualCamera(create: HResult, start: HResult) returns (hr: HResult)
      modifies this`hasCamera, this`steps
      ensures hr == FirstFailed([create, start])
      ensures hasCamera == (Succeeded(create) || old(hasCamera))
      ensures steps == old(steps) + RegistrationSteps(create, start)
    {
      ghost var rs := [create, start];
      if Failed(create) {
        assert Failed(rs[0]);
        return create;
      }
      hasCamera := true;
      steps := steps + [CameraCreated];
      if Failed(start) {
        assert Failed(rs[1]) && Succeeded(rs[0]);
        return start;
      }
      steps := steps + [CameraStarted];
      return S_OK;
    }

    /** Removes the camera if one is held; the removal's own result is
        dropped, so this always succeeds. */
    method UnregisterVirtualCamera(remove: HResult) returns (hr: HResult)
      modifies this`steps
      ensures hr == S_OK
      ensures steps == old(steps) + (if hasCamera then [CameraRemoved] else [])
    {
      if !hasCamera {
        return S_OK;
      }
      steps := steps + [CameraRemoved];
      return S_OK;
    }

    /** The clean-up once the message loop has ended: unregisters the
        camera if it was started, removes the tray icon, releases the camera
        and shuts Media Foundation down. */
    method CleanUp(remove: HResult)
      modifies this`hasCamera, this`steps
      ensures !hasCamera
      ensures steps == old(steps) + ExitSteps(cameraStarted, old(hasCamera))
    {
      ghost var before := steps;
      if cameraStarted {
        var _ := UnregisterVirtualCamera(remove);
      }
      steps := steps + [TrayIconRemoved];
      if hasCamera {
        hasCamera := false;
        steps := steps + [CameraReleased];
      }
      steps := steps + [MediaFoundationShutdown];
      assert steps == before + ExitSteps(cameraStarted, old(hasCamera));
    }

    /** What the application does once its settings are loaded: adds the
        tray icon, registers the camera and records whether that succeeded,
        pumps messages, and cleans up. */
    method Session(create: HResult, start: HResult, remove: HResult)
      requires !hasCamera && !cameraStarted
      modifies this
      ensures cameraStarted <==> Succeeded(create) && Succeeded(start)
      ensures !hasCamera
      ensures steps == old(steps) + [TrayIconAdded] + RegistrationSteps(create, start)
                       + [MessagesPumped] + ExitSteps(cameraStarted, Succeeded(create))
    {
      steps := steps + [TrayIconAdded];
      var hr := RegisterVirtualCamera(create, start);
      if Succeeded(hr) {
        cameraStarted := true;
      }
      steps := steps + [MessagesPumped];
      ghost var running := steps;
      CleanUp(remove);
      assert steps == running + ExitSteps(cameraStarted, Succeeded(create));
    }

    /** The application's main function. It fails with -1 when the window
        cannot be made, when Media Foundation does not start, or when the
        settings cannot be loaded (shutting Media Foundation down first);
        otherwise it adds the tray icon, registers the camera, remembers
        whether that succeeded, pumps messages until `quit`, removes the
        camera only if it was started, and exits with the quit message's
        code. */
    method WinMain(windowMade: bool, startup: HResult, key: Key, create: HResult, start: HResult,
                remove: HResult, quit: int)
      returns (code: int)
      requires !hasCamera && !cameraStarted && steps == []
      modifies this
      ensures !windowMade || Failed(startup) ==> code == EXIT_FAILURE && steps == [] && !hasCamera
      ensures windowMade && Succeeded(startup) && key.status != ERROR_SUCCESS ==>
                code == EXIT_FAILURE && steps == [MediaFoundationStarted, MediaFoundationShutdown] &&
                !hasCamera && !cameraStarted
      ensures windowMade && Succeeded(startup) && key.status == ERROR_SUCCESS ==>
                && code == quit
                && (cameraStarted <==> Succeeded(create) && Succeeded(start))
                && !hasCamera
                && steps == [MediaFoundationStarted, TrayIconAdded] + RegistrationSteps(create, start)
                            + [MessagesPumped] + ExitSteps(cameraStarted, Succeeded(create))
    {
      if !windowMade {
        return EXIT_FAILURE;
      }
      if Failed(startup) {
        return EXIT_FAILURE;
      }
      steps := steps + [MediaFoundationStarted];
      var settings, _, _, _, _ := LoadSettingsFromRegistry(key, "", 0, 0, "");
      if Failed(settings) {
        steps := steps + [MediaFoundationShutdown];
        return EXIT_FAILURE;
      }
      Session(create, start, remove);
      return quit;
    }
  }
}
