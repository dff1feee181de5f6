/** HRESULT values that the virtual-camera code returns or passes through. */
module HResults {

  /** The HRESULTs named by the source, symbolically; `Win32` is
      HRESULT_FROM_WIN32 of a non-zero Win32 error code and `Foreign` a
      result handed back unchanged from a call outside the model. */
  datatype HResult =
    | S_OK
    | E_POINTER
    | E_INVALIDARG
    | E_UNEXPECTED
    | E_FAIL
    | MF_E_SHUTDOWN
    | MF_E_INVALID_STATE_TRANSITION
    | Win32(error: int)
    | Foreign(code: int)

  /** SUCCEEDED(hr): the severity bit is clear. */
  predicate Succeeded(hr: HResult) {
    match hr
    case S_OK => true
    case Win32(e) => e == 0
    case Foreign(c) => c >= 0
    case _ => false
  }

  predicate Failed(hr: HResult) {
    !Succeeded(hr)
  }

  /** HRESULT_FROM_WIN32: ERROR_SUCCESS maps to S_OK, every other code to a failure. */
  function FromWin32(error: int): (hr: HResult)
    ensures Succeeded(hr) <==> error == 0
    ensures error != 0 ==> hr == Win32(error)
  {
    if error == 0 then S_OK else Win32(error)
  }

  /** `RETURN_IF_FAILED(r); ... return S_OK;`: a failure is handed back
      unchanged, any success becomes S_OK. */
  function Forward(r: HResult): (hr: HResult)
    ensures Succeeded(hr) <==> Succeeded(r)
    ensures Failed(r) ==> hr == r
  {
    if Failed(r) then r else S_OK
  }

  /** The result of a run of calls each guarded by RETURN_IF_FAILED: the
      first failure, or S_OK when every call succeeded. */
  function FirstFailed(rs: seq<HResult>): (hr: HResult)
    ensures hr == S_OK <==> forall i :: 0 <= i < |rs| ==> Succeeded(rs[i])
    ensures hr == S_OK || (Failed(hr) && hr in rs)
  {
    if rs == [] then S_OK
    else if Failed(rs[0]) then rs[0]
    else FirstFailed(rs[1..])
  }

  /** A failing call with only successes before it is the one whose result
      comes back. */
  lemma {:induction false} FirstFailedAt(rs: seq<HResult>, i: nat)
    requires i < |rs| && Failed(rs[i])
    requires forall j :: 0 <= j < i ==> Succeeded(rs[j])
    ensures FirstFailed(rs) == rs[i]
  {
    if i > 0 {
      assert forall j :: 0 <= j < i - 1 ==> rs[1..][j] == rs[j + 1];
      FirstFailedAt(rs[1..], i - 1);
    }
  }

  /** Running two sequences of calls one after the other fails where the
      first fails, and otherwise where the second does. */
  lemma {:induction false} FirstFailedAppend(a: seq<HResult>, b: seq<HResult>)
    ensures FirstFailed(a + b) == if FirstFailed(a) != S_OK then FirstFailed(a) else FirstFailed(b)
  {
    if a != [] {
      assert (a + b)[1..] == a[1..] + b;
      FirstFailedAppend(a[1..], b);
    } else {
      assert a + b == b;
    }
  }

  /** The Win32 error code ERROR_SET_NOT_FOUND. */
  const ERROR_SET_NOT_FOUND: int := 1170

  datatype Option<+T> = None | Some(value: T)
}

/** What a registry query hands back to its caller. */
module Registry {

  const ERROR_SUCCESS: int := 0

  datatype ValueType = REG_SZ | REG_DWORD | OtherType

  /** The outcome of one RegQueryValueExW call: its status, the type it
      reported and the data it left in the caller's buffer. */
  datatype Read<T> = Read(status: int, kind: ValueType, data: T) {
    predicate Ok() { status == ERROR_SUCCESS }
  }

  /** A string read and the key it belongs to, as seen by a caller that
      opened the key (`status` is RegOpenKeyExW's result). */
  datatype Key = Key(
    status: int,
    url: Read<string>,
    width: Read<nat>,
    height: Read<nat>,
    friendlyName: Read<string>)

  /** The string a wide-character buffer holds: everything before its first NUL. */
  function CString(buffer: string): (s: string)
    ensures |s| <= |buffer| && s == buffer[..|s|]
    ensures forall i :: 0 <= i < |s| ==> s[i] != '\0'
    ensures |s| < |buffer| ==> buffer[|s|] == '\0'
  {
    if buffer == [] || buffer[0] == '\0' then []
    else [buffer[0]] + CString(buffer[1..])
  }
}
