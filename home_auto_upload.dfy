/**
 * The home screen's automatic location upload: a minutes field, a start/stop toggle, a
 * once-per-second countdown that triggers an upload at zero, and a guard that keeps two
 * uploads from running at once.
 */
module HomeAutoUpload {
  import opened Wrappers
  import opened Json
  import opened Tracking
  import JsText
  import ApiClient

  /** `parseInt(autoMinutes) || 1`: NaN and 0 fall back to one minute. */
  function MinutesOrOne(text: string): (mins: int)
    ensures JsText.PositiveInt(text) ==> mins == JsText.ParseInt(text).value
    ensures JsText.ParseInt(text) == None || JsText.ParseInt(text) == Some(0) ==> mins == 1
  {
    match JsText.ParseInt(text)
    case None => 1
    case Some(m) => if m == 0 then 1 else m
  }

  /** The once-per-second update `(c) => (c > 0 ? c - 1 : 0)`. */
  function CountDown(c: int): (next: int)
    ensures next >= 0
    ensures c > 0 ==> next == c - 1
    ensures c <= 0 ==> next == 0
  {
    if c > 0 then c - 1 else 0
  }

  class AutoUpload {
    var autoMinutes: string
    var autoEnabled: bool
    var autoCountdown: int
    /** `autoUploadingRef.current` */
    var uploading: bool
    /** `lastUploadAt`, an ISO time string once an upload succeeded. */
    var lastUploadAt: Option<string>

    /** The countdown never goes negative, and while enabled the minutes field is valid. */
    predicate Valid()
      reads this
    {
      autoCountdown >= 0 && (autoEnabled ==> JsText.PositiveInt(autoMinutes))
    }

    constructor ()
      ensures Valid()
      ensures autoMinutes == "10" && !autoEnabled && autoCountdown == 0 && !uploading && lastUploadAt == None
    {
      autoMinutes, autoEnabled, autoCountdown, uploading, lastUploadAt := "10", false, 0, false, None;
    }

    /** Typing into the minutes field, which is editable only while stopped. */
    method EditMinutes(text: string)
      requires Valid()
      modifies this
      ensures Valid()
      ensures autoMinutes == if old(autoEnabled) then old(autoMinutes) else text
      ensures autoEnabled == old(autoEnabled) && autoCountdown == old(autoCountdown)
      ensures uploading == old(uploading) && lastUploadAt == old(lastUploadAt)
    {
      if !autoEnabled {
        autoMinutes := text;
      }
    }

    /**
     * `toggleAuto`: starting needs minutes that parse to a number above zero and sets the
     * countdown to that many seconds; stopping disables and zeroes the countdown.
     */
    method ToggleAuto()
      requires Valid()
      modifies this
      ensures Valid()
      ensures old(autoEnabled) ==> !autoEnabled && autoCountdown == 0
      ensures !old(autoEnabled) && !JsText.PositiveInt(autoMinutes) ==> !autoEnabled && autoCountdown == old(autoCountdown)
      ensures !old(autoEnabled) && JsText.PositiveInt(autoMinutes) ==>
                autoEnabled && autoCountdown == JsText.ParseInt(autoMinutes).value * 60
      ensures autoMinutes == old(autoMinutes) && uploading == old(uploading) && lastUploadAt == old(lastUploadAt)
    {
      if !autoEnabled {
        var mins := JsText.ParseInt(autoMinutes);
        if mins.None? || mins.value <= 0 {
          return;
        }
        autoCountdown := mins.value * 60;
        autoEnabled := true;
      } else {
        autoEnabled := false;
        autoCountdown := 0;
      }
    }

    /**
     * The countdown effect: when enabled and at zero it triggers an upload and restarts the
     * countdown from the minutes field. Returns whether an upload was triggered.
     */
    method CountdownEffect() returns (trigger: bool)
      requires Valid()
      modifies this
      ensures Valid()
      ensures trigger <==> old(autoEnabled) && old(autoCountdown) == 0
      ensures trigger ==> autoCountdown == MinutesOrOne(autoMinutes) * 60 && autoCountdown > 0
      ensures !trigger ==> autoCountdown == old(autoCountdown)
      ensures autoMinutes == old(autoMinutes) && autoEnabled == old(autoEnabled)
      ensures uploading == old(uploading) && lastUploadAt == old(lastUploadAt)
    {
      trigger := autoEnabled && autoCountdown == 0;
      if trigger {
        autoCountdown := MinutesOrOne(autoMinutes) * 60;
      }
    }

    /** One tick of the interval, which runs only while enabled. */
    method Tick()
      requires Valid()
      modifies this
      ensures Valid()
      ensures autoCountdown == if old(autoEnabled) then CountDown(old(autoCountdown)) else old(autoCountdown)
      ensures autoMinutes == old(autoMinutes) && autoEnabled == old(autoEnabled)
      ensures uploading == old(uploading) && lastUploadAt == old(lastUploadAt)
    {
      if autoEnabled {
        autoCountdown := CountDown(autoCountdown);
      }
    }

    /**
     * The start of `autoUploadOnce`: nothing for a guest or a non-user, nothing while an
     * upload is in flight; otherwise the guard is raised.
     */
    method BeginAutoUpload(token: string, role: Role) returns (started: bool)
      modifies this
      ensures started <==> token != "" && role == RoleUser && !old(uploading)
      ensures uploading == (old(uploading) || started)
      ensures autoMinutes == old(autoMinutes) && autoEnabled == old(autoEnabled)
      ensures autoCountdown == old(autoCountdown) && lastUploadAt == old(lastUploadAt)
    {
      if token == "" || role != RoleUser || uploading {
        return false;
      }
      uploading := true;
      started := true;
    }

    /**
     * The rest of `autoUploadOnce`: a denied permission disables auto upload; a position
     * without coordinates ends quietly; a successful upload records the time. The guard
     * is lowered in every case.
     */
    method FinishAutoUpload(permissionGranted: bool, hasCoords: bool,
                            uploaded: Result<Json, ApiClient.ApiError>, isoNow: string)
      requires Valid()
      modifies this
      ensures Valid()
      ensures !uploading
      ensures autoEnabled == (old(autoEnabled) && permissionGranted)
      ensures lastUploadAt == if permissionGranted && hasCoords && uploaded.Success? then Some(isoNow) else old(lastUploadAt)
      ensures autoMinutes == old(autoMinutes) && autoCountdown == old(autoCountdown)
    {
      if !permissionGranted {
        autoEnabled := false;
      } else if hasCoords && uploaded.Success? {
        lastUploadAt := Some(isoNow);
      }
      uploading := false;
    }
  }

  /**
   * A minutes field holding the decimal text of n > 0 (the initial "10" is n = 10) lets
   * `ToggleAuto` start, and `CountdownEffect` restart, a countdown of n * 60 seconds.
   */
  lemma TypedMinutesCountdown(n: nat)
    requires n > 0
    ensures JsText.PositiveInt(JsText.NatToString(n))
    ensures JsText.ParseInt(JsText.NatToString(n)).value * 60 == n * 60
    ensures MinutesOrOne(JsText.NatToString(n)) * 60 == n * 60
    ensures JsText.NatToString(10) == "10"
  {
    JsText.ParseIntOfNatToString(n);
    assert JsText.NatToString(10) == "10";
  }
}
