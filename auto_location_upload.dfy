/**
 * The auto location upload screen: starting periodic background uploads after validating
 * the interval, stopping them, and a poll that logs the ten most recent uploads the
 * background task reported.
 */
module AutoLocationUpload {
  import opened Wrappers
  import opened Json
  import opened Tracking
  import JsText
  import Seqs
  import ApiClient

  const LogCap := 10
  const MsPerMinute := 60000

  datatype StartOutcome = NotUser | InvalidMinutes | LoginRequired | PermissionNeeded | StartFailed | Started

  /** `{ id: ts.toString(), ts }` */
  datatype UploadEntry = UploadEntry(id: string, ts: int)

  /** The module variable and the `global.__…__` slots the screen shares with its background task. */
  class UploadGlobals {
    var currentIntervalMs: int
    /** `global.__AUTO_UPLOAD_STATE__`: the token the task uploads with, once started. */
    var uploadToken: Option<string>
    /** `global.__LAST_AUTO_UPLOAD__` */
    var lastAutoUpload: Option<int>
    /** `global.__LAST_AUTO_UPLOAD_RECORDED_AT__` */
    var lastRecordedAt: Option<Json>

    constructor ()
      ensures currentIntervalMs == 0 && uploadToken == None && lastAutoUpload == None && lastRecordedAt == None
    {
      currentIntervalMs, uploadToken, lastAutoUpload, lastRecordedAt := 0, None, None, None;
    }

    /**
     * The background task: it needs no error, a stored token and a location; a failed upload
     * records nothing, a successful one records the time and, when the server sent one,
     * its `recorded_at`.
     */
    method BackgroundUpload(now: int, taskError: bool, hasLocation: bool, uploaded: Result<Json, ApiClient.ApiError>)
      modifies this
      ensures var ran := !taskError && old(uploadToken).Some? && old(uploadToken).value != "" && hasLocation
                         && uploaded.Success?;
              && lastAutoUpload == (if ran then Some(now) else old(lastAutoUpload))
              && lastRecordedAt == (if ran && HasTruthy(uploaded.value, "recorded_at")
                                    then Some(Get(uploaded.value, "recorded_at").value) else old(lastRecordedAt))
      ensures currentIntervalMs == old(currentIntervalMs) && uploadToken == old(uploadToken)
    {
      if taskError || uploadToken.None? || uploadToken.value == "" || !hasLocation || uploaded.Failure? {
        return;
      }
      lastAutoUpload := Some(now);
      if HasTruthy(uploaded.value, "recorded_at") {
        lastRecordedAt := Some(Get(uploaded.value, "recorded_at").value);
      }
    }
  }

  /** `g && g !== lastTs`: a truthy upload time not yet logged. */
  predicate NewUpload(global: Option<int>, shown: Option<int>) {
    global.Some? && global.value != 0 && global != shown
  }

  /** `[entry, ...p].slice(0, 10)` */
  function LogUpload(ts: int, log: seq<UploadEntry>): (r: seq<UploadEntry>)
    ensures |r| == if |log| < LogCap then |log| + 1 else LogCap
    ensures r[0] == UploadEntry(JsText.IntToString(ts), ts)
    ensures r[1..] == log[..|r| - 1]
  {
    Seqs.PrependCapped(UploadEntry(JsText.IntToString(ts), ts), log, LogCap)
  }

  /** The hint "Uploads every N min(s)": the running interval in minutes, else the typed text or "?". */
  function IntervalHint(active: bool, currentIntervalMs: int, minutes: string): (hint: string)
    ensures active ==> hint == JsText.IntToString(currentIntervalMs / MsPerMinute)
    ensures !active && minutes == "" ==> hint == "?"
    ensures !active && minutes != "" ==> hint == minutes
  {
    if active then JsText.IntToString(currentIntervalMs / MsPerMinute)
    else if minutes == "" then "?" else minutes
  }

  /** The running interval, written in milliseconds, reads back as the minutes it was started with. */
  lemma HintShowsStartedMinutes(m: int, minutes: string)
    requires m > 0
    ensures IntervalHint(true, m * MsPerMinute, minutes) == JsText.IntToString(m)
  {
    assert m * MsPerMinute / MsPerMinute == m;
  }

  class AutoLocationUploadScreen {
    var minutes: string
    var active: bool
    var lastTs: Option<int>
    var log: seq<UploadEntry>
    const globals: UploadGlobals

    /** The log holds at most ten entries; while active, the shared interval is the typed minutes in ms. */
    predicate Valid()
      reads this, globals
    {
      |log| <= LogCap &&
      (active ==> JsText.PositiveInt(minutes) && globals.currentIntervalMs == JsText.ParseInt(minutes).value * MsPerMinute)
    }

    constructor (globals: UploadGlobals)
      ensures Valid() && this.globals == globals
      ensures minutes == "5" && !active && lastTs == None && log == []
    {
      minutes, active, lastTs, log := "5", false, None, [];
      this.globals := globals;
    }

    /** Typing into the minutes field, which is editable only while inactive. */
    method EditMinutes(text: string)
      requires Valid()
      modifies this
      ensures Valid()
      ensures minutes == if old(active) then old(minutes) else text
      ensures active == old(active) && lastTs == old(lastTs) && log == old(log)
    {
      if !active {
        minutes := text;
      }
    }

    /**
     * `start`: silently nothing for a non-user; an error and no change for minutes that do
     * not parse above zero, for a missing token, or for a denied permission. Past those
     * checks the interval and token are stored; only a successful start activates, with
     * an empty log and no last upload.
     */
    method Start(role: Role, token: string, permissionsGranted: bool, startFails: bool) returns (outcome: StartOutcome)
      requires Valid()
      modifies this, globals
      ensures Valid()
      ensures outcome == NotUser <==> role != RoleUser
      ensures outcome == InvalidMinutes <==> role == RoleUser && !JsText.PositiveInt(minutes)
      ensures outcome == LoginRequired <==> role == RoleUser && JsText.PositiveInt(minutes) && token == ""
      ensures outcome == PermissionNeeded <==>
                role == RoleUser && JsText.PositiveInt(minutes) && token != "" && !permissionsGranted
      ensures outcome in {NotUser, InvalidMinutes, LoginRequired, PermissionNeeded} ==>
                unchanged(this) && unchanged(globals)
      ensures outcome in {StartFailed, Started} ==>
                globals.currentIntervalMs == JsText.ParseInt(minutes).value * MsPerMinute &&
                globals.uploadToken == Some(token)
      ensures outcome == Started <==>
                role == RoleUser && JsText.PositiveInt(minutes) && token != "" && permissionsGranted && !startFails
      ensures outcome == StartFailed ==> unchanged(this)
      ensures outcome == Started ==> active && log == [] && lastTs == None
      ensures minutes == old(minutes)
      ensures globals.lastAutoUpload == old(globals.lastAutoUpload) && globals.lastRecordedAt == old(globals.lastRecordedAt)
    {
      if role != RoleUser {
        outcome := NotUser;
      } else if !JsText.PositiveInt(minutes) {
        outcome := InvalidMinutes;
      } else if token == "" {
        outcome := LoginRequired;
      } else if !permissionsGranted {
        outcome := PermissionNeeded;
      } else {
        globals.currentIntervalMs, globals.uploadToken := JsText.ParseInt(minutes).value * MsPerMinute, Some(token);
        if startFails {
          outcome := StartFailed;
        } else {
          active, log, lastTs := true, [], None;
          outcome := Started;
        }
      }
    }

    /** `stop`: inactive whether or not stopping the location updates threw. */
    method Stop(stopThrows: bool)
      requires Valid()
      modifies this
      ensures Valid()
      ensures !active
      ensures minutes == old(minutes) && lastTs == old(lastTs) && log == old(log)
    {
      active := false;
    }

    /** The two-second poll: a new upload time is remembered and logged at the head. */
    method Poll()
      requires Valid()
      modifies this
      ensures Valid()
      ensures NewUpload(globals.lastAutoUpload, old(lastTs)) ==>
                lastTs == globals.lastAutoUpload && log == LogUpload(globals.lastAutoUpload.value, old(log))
      ensures !NewUpload(globals.lastAutoUpload, old(lastTs)) ==> lastTs == old(lastTs) && log == old(log)
      ensures minutes == old(minutes) && active == old(active)
    {
      if NewUpload(globals.lastAutoUpload, lastTs) {
        lastTs := globals.lastAutoUpload;
        log := LogUpload(globals.lastAutoUpload.value, log);
      }
    }

    /** The hint line under the status. */
    function Hint(): (hint: string)
      requires Valid()
      reads this, globals
      ensures active ==> hint == JsText.IntToString(JsText.ParseInt(minutes).value)
      ensures !active ==> hint == IntervalHint(false, globals.currentIntervalMs, minutes)
    {
      if active then HintShowsStartedMinutes(JsText.ParseInt(minutes).value, minutes); IntervalHint(active, globals.currentIntervalMs, minutes)
      else IntervalHint(active, globals.currentIntervalMs, minutes)
    }
  }
}
