/**
 * Serial-number registration (app/devices/add/serial/page.tsx): input
 * validation, then either a local provisional record (no backend configured
 * or no ID token) or a registration request whose outcome is either an
 * error message or an append to the `/api/devices` cache.
 */
module SerialRegistration {
  import opened Wrappers
  import opened Storage
  import Text
  import opened DeviceQueue

  const MsgEnterSerial := "시리얼 번호를 입력해주세요."
  const MsgBadFormat := "시리얼 번호 형식이 올바르지 않습니다."
  const MsgInvalidSerial := "시리얼 번호가 유효하지 않습니다."
  const MsgAlreadyRegistered := "이미 등록된 기기입니다."
  const MsgRegisterFailed := "기기 등록 중 오류가 발생했습니다."
  const MsgNetwork := "네트워크 오류가 발생했습니다. 잠시 후 다시 시도해주세요."
  const SuccessPath := "/devices/add/serial/success"
  const MinSerialLength := 6
  const IdPrefix := "serial-"
  const SubtitlePrefix := "온라인 · 자동 모드 · 약풍 (목업) · S/N "

  datatype Validation = Accepted(trimmed: string) | Rejected(message: string)

  /** The two checks on the trimmed serial: present, then at least six UTF-16 units long. */
  function Validate(serial: string): (v: Validation)
    ensures v.Accepted? <==> Text.Trim(serial) != "" && Text.Utf16Length(Text.Trim(serial)) >= MinSerialLength
    ensures v.Accepted? ==> v.trimmed == Text.Trim(serial)
    ensures Text.Trim(serial) == "" ==> v == Rejected(MsgEnterSerial)
    ensures Text.Trim(serial) != "" && Text.Utf16Length(Text.Trim(serial)) < MinSerialLength ==>
              v == Rejected(MsgBadFormat)
  {
    var trimmed := Text.Trim(serial);
    if trimmed == "" then Rejected(MsgEnterSerial)
    else if Text.Utf16Length(trimmed) < MinSerialLength then Rejected(MsgBadFormat)
    else Accepted(trimmed)
  }

  /** Only whitespace (or nothing) gets the "enter serial" message. */
  lemma BlankSerialIff(serial: string)
    ensures Validate(serial) == Rejected(MsgEnterSerial) <==> Text.AllWhitespace(serial)
  {
    Text.TrimEmptyIff(serial);
  }

  /** Surrounding whitespace never changes the verdict. */
  lemma ValidateIgnoresPadding(serial: string)
    ensures Validate(Text.Trim(serial)) == Validate(serial)
  {
    Text.TrimIdempotent(serial);
  }

  /** An accepted serial has at least three code points (each counts at most twice) and at most its UTF-16 length. */
  lemma AcceptedLengthBounds(serial: string)
    requires Validate(serial).Accepted?
    ensures 3 <= |Validate(serial).trimmed| <= |serial|
  {
  }

  /** The local record: id `serial-<now>`, subtitle ending in `S/N <serial>`. */
  function NewDevice(trimmed: string, roomType: RoomType, now: nat, nowIso: string): (d: RoomSummary)
    ensures IdPrefix <= d.id
    ensures d.name == NewDeviceName && d.aqi == MockAqi && d.aqiLabel == MockAqiLabel
    ensures d.roomType == Some(roomType) && d.lastUpdated == nowIso
    ensures |d.subtitle| >= |trimmed| + 4
    ensures d.subtitle[|d.subtitle| - |trimmed| - 4..] == "S/N " + trimmed
  {
    var d := MockDevice(IdPrefix, SubtitlePrefix + trimmed, roomType, now, nowIso);
    assert d.subtitle == SubtitlePrefix[..|SubtitlePrefix| - 4] + ("S/N " + trimmed);
    d
  }

  /** The message for a rejected request: the body's truthy `error`, else by status. */
  function ErrorMessage(status: int, bodyError: Option<string>): (msg: string)
    ensures Truthy(bodyError) ==> msg == bodyError.value
    ensures !Truthy(bodyError) && status == 400 ==> msg == MsgInvalidSerial
    ensures !Truthy(bodyError) && status == 409 ==> msg == MsgAlreadyRegistered
    ensures !Truthy(bodyError) && status != 400 && status != 409 ==> msg == MsgRegisterFailed
    ensures msg != ""
  {
    if Truthy(bodyError) then bodyError.value
    else if status == 400 then MsgInvalidSerial
    else if status == 409 then MsgAlreadyRegistered
    else MsgRegisterFailed
  }

  /** The `/api/devices` cache update: `Array.isArray(prev) ? [...prev, d] : [d]` (`None`: not an array). */
  function AppendToCache(prev: Option<seq<RoomSummary>>, d: RoomSummary): (next: seq<RoomSummary>)
    ensures |next| >= 1 && next[|next| - 1] == d
    ensures prev.Some? ==> next[..|next| - 1] == prev.value
    ensures prev.None? ==> next == [d]
  {
    match prev
    case Some(list) => assert (list + [d])[..|list|] == list; list + [d]
    case None => [d]
  }

  /** The registration request's outcome, as far as the page looks at it. */
  datatype Response =
    | FetchFailed
      /** `errorField`: the body's `error` when the body is JSON; `device`: the body as a record, `None` when it is not JSON. */
    | Replied(ok: bool, status: int, errorField: Option<string>, device: Option<RoomSummary>)

  /** The form's own state. */
  datatype Form = Form(serial: string, roomType: RoomType, error: Option<string>, loading: bool)

  /** What the page changes outside itself: the store, the SWR cache for `/api/devices`, and navigation. */
  datatype Effects = Effects(store: Store, cache: Option<seq<RoomSummary>>, nav: Option<string>)

  /** Configuration, session and the values the page would read from the clock and the network. */
  datatype Env = Env(apiBaseUrl: Option<string>, idToken: Option<string>, now: nat, nowIso: string, response: Response)

  const InitialForm := Form("", Living, None, false)

  /** `API_BASE_URL && auth?.idToken`. */
  predicate CanCallBackend(env: Env) {
    Truthy(env.apiBaseUrl) && Truthy(env.idToken)
  }

  /** `handleSubmit`, with the request's outcome given. */
  function Submit(f: Form, fx: Effects, env: Env, c: Codec<seq<RoomSummary>>): (r: (Form, Effects))
    ensures f.loading ==> r == (f, fx)
    ensures !f.loading && Validate(f.serial).Rejected? ==>
              r == (f.(error := Some(Validate(f.serial).message)), fx)
    ensures !f.loading && Validate(f.serial).Accepted? && !CanCallBackend(env) ==>
              r.0 == f.(error := None) &&
              r.1 == Effects(AppendLocal(fx.store, c, NewDevice(Text.Trim(f.serial), f.roomType, env.now, env.nowIso)),
                             fx.cache, Some(SuccessPath))
    ensures !f.loading && Validate(f.serial).Accepted? && CanCallBackend(env) ==> r.1.store == fx.store
    ensures !f.loading && Validate(f.serial).Accepted? && CanCallBackend(env) &&
            env.response.Replied? && !env.response.ok ==>
              r == (f.(error := Some(ErrorMessage(env.response.status, env.response.errorField)), loading := false), fx)
    ensures !f.loading && Validate(f.serial).Accepted? && CanCallBackend(env) &&
            (env.response.FetchFailed? || (env.response.ok && env.response.device.None?)) ==>
              r == (f.(error := Some(MsgNetwork), loading := false), fx)
    ensures r.1.nav != fx.nav ==> r.1.nav == Some(SuccessPath)
    ensures r.1.cache != fx.cache ==>
              env.response.Replied? && env.response.ok && env.response.device.Some? &&
              r.1.cache == Some(AppendToCache(fx.cache, env.response.device.value))
  {
    if f.loading then (f, fx)
    else match Validate(f.serial)
      case Rejected(msg) => (f.(error := Some(msg)), fx)
      case Accepted(trimmed) =>
        if !CanCallBackend(env) then
          var dev := NewDevice(trimmed, f.roomType, env.now, env.nowIso);
          (f.(error := None), Effects(AppendLocal(fx.store, c, dev), fx.cache, Some(SuccessPath)))
        else
          var sent := f.(error := None, loading := true);
          match env.response
          case FetchFailed => (sent.(error := Some(MsgNetwork), loading := false), fx)
          case Replied(ok, status, errorField, device) =>
            if !ok then (sent.(error := Some(ErrorMessage(status, errorField)), loading := false), fx)
            else match device
              case None => (sent.(error := Some(MsgNetwork), loading := false), fx)
              case Some(d) => (sent, fx.(cache := Some(AppendToCache(fx.cache, d)), nav := Some(SuccessPath)))
  }

  /**
   * A failed request ends with a non-empty message, `loading` cleared, and
   * nothing else changed: a rejected request shows the body's `error` (else
   * the status message), and a fetch failure or an ok reply without a JSON
   * body shows the network message.
   */
  lemma FailedRequestReportsError(f: Form, fx: Effects, env: Env, c: Codec<seq<RoomSummary>>)
    requires !f.loading && Validate(f.serial).Accepted? && CanCallBackend(env)
    requires env.response.FetchFailed? || !env.response.ok || env.response.device.None?
    ensures var r := Submit(f, fx, env, c);
            r.1 == fx && !r.0.loading && r.0.error.Some? && r.0.error.value != "" &&
            r.0.serial == f.serial && r.0.roomType == f.roomType
    ensures var r := Submit(f, fx, env, c);
            env.response.Replied? && !env.response.ok ==>
              r.0.error == Some(ErrorMessage(env.response.status, env.response.errorField))
    ensures var r := Submit(f, fx, env, c);
            env.response.Replied? && !env.response.ok && Truthy(env.response.errorField) ==>
              r.0.error == env.response.errorField
    ensures var r := Submit(f, fx, env, c);
            env.response.FetchFailed? || env.response.ok ==> r.0.error == Some(MsgNetwork)
  {
  }

  /** A successful request appends the returned record to the cache and navigates; `loading` stays set. */
  lemma SuccessfulRequestUpdatesCache(f: Form, fx: Effects, env: Env, c: Codec<seq<RoomSummary>>)
    requires !f.loading && Validate(f.serial).Accepted? && CanCallBackend(env)
    requires env.response.Replied? && env.response.ok && env.response.device.Some?
    ensures var r := Submit(f, fx, env, c);
            r.0.loading && r.0.error == None && r.1.nav == Some(SuccessPath) &&
            r.1.cache == Some(AppendToCache(fx.cache, env.response.device.value))
  {
  }

  /** Without a backend, a valid submit queues exactly one record carrying the trimmed serial. */
  lemma LocalSubmitQueuesOne(f: Form, fx: Effects, env: Env, c: Codec<seq<RoomSummary>>)
    requires Lawful(c) && StoredList(fx.store, c).Some?
    requires !f.loading && Validate(f.serial).Accepted? && !CanCallBackend(env)
    ensures var before := StoredList(fx.store, c).value;
            var after := StoredList(Submit(f, fx, env, c).1.store, c);
            after == Some(before + [NewDevice(Text.Trim(f.serial), f.roomType, env.now, env.nowIso)])
  {
    var dev := NewDevice(Text.Trim(f.serial), f.roomType, env.now, env.nowIso);
    AppendLocalGrowsByOne(fx.store, c, dev);
    var after := StoredList(AppendLocal(fx.store, c, dev), c).value;
    var before := StoredList(fx.store, c).value;
    assert after == after[..|before|] + [after[|before|]];
  }

  /**
   * The `loading` guard does not cover the local path: `loading` is never set
   * there, so a second submit before navigation completes queues a second record.
   */
  lemma LocalResubmitQueuesAgain(f: Form, fx: Effects, env: Env, c: Codec<seq<RoomSummary>>)
    requires Lawful(c) && StoredList(fx.store, c).Some?
    requires !f.loading && Validate(f.serial).Accepted? && !CanCallBackend(env)
    ensures var r1 := Submit(f, fx, env, c);
            var r2 := Submit(r1.0, r1.1, env, c);
            !r1.0.loading &&
            StoredList(r2.1.store, c).Some? &&
            |StoredList(r2.1.store, c).value| == |StoredList(fx.store, c).value| + 2
  {
    var r1 := Submit(f, fx, env, c);
    LocalSubmitQueuesOne(f, fx, env, c);
    assert Validate(r1.0.serial) == Validate(f.serial);
    LocalSubmitQueuesOne(r1.0, r1.1, env, c);
  }
}
