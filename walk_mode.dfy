/**
 * Emergency walk mode: a journey started with a trusted contact and a send interval,
 * paused, resumed and stopped; a per-second countdown to the next background send, and a
 * log of the five most recent sends the background task reported.
 */
module WalkMode {
  import opened Wrappers
  import JsText
  import Seqs

  const LogCap := 5

  /** The five encouragement lines a journey starts with one of. */
  const Quotes: seq<string> := [
    "You are strong. Keep moving forward.",
    "Every step is protected. You are not alone.",
    "Your safety matters. Stay aware & confident.",
    "Courage is your silent companion tonight.",
    "Breathe. Focus. You are in control."
  ]

  /** `{ ts, label }`; the label is the locale time text, supplied by the caller. */
  datatype SendEntry = SendEntry(ts: int, text: string)

  datatype StartOutcome = MissingInput | InvalidInterval | PermissionDenied | Started

  /** A leading zero does not change the value of a digit string. */
  lemma {:induction false} LeadingZero(s: string)
    requires JsText.AllDecimal(s)
    ensures JsText.AllDecimal("0" + s)
    ensures JsText.DecimalValue("0" + s) == JsText.DecimalValue(s)
    decreases |s|
  {
    if s != [] {
      LeadingZero(s[..|s| - 1]);
      assert ("0" + s)[..|s|] == "0" + s[..|s| - 1];
    }
  }

  /** `n.toString().padStart(2, "0")` for a number below 100: two digits of the same value. */
  lemma PaddedDigits(n: nat)
    requires n < 100
    ensures |JsText.PadStart2(JsText.NatToString(n))| == 2
    ensures JsText.AllDecimal(JsText.PadStart2(JsText.NatToString(n)))
    ensures JsText.DecimalValue(JsText.PadStart2(JsText.NatToString(n))) == n
  {
    var s := JsText.NatToString(n);
    JsText.DecimalRoundTrip(n);
    if n < 10 {
      LeadingZero(s);
      assert JsText.PadStart2(s) == "0" + s;
    } else {
      assert |s| == 2;
    }
  }

  /** `n.toString().padStart(2, "0")` for any number: at least two digits of the same value. */
  lemma PaddedValue(n: nat)
    ensures |JsText.PadStart2(JsText.NatToString(n))| >= 2
    ensures JsText.AllDecimal(JsText.PadStart2(JsText.NatToString(n)))
    ensures JsText.DecimalValue(JsText.PadStart2(JsText.NatToString(n))) == n
  {
    if n < 100 {
      PaddedDigits(n);
    } else {
      JsText.DecimalRoundTrip(n);
      assert |JsText.NatToString(n / 10)| >= 1;
    }
  }

  /** `formatMMSS(sec)`: zero-padded minutes, a colon, zero-padded seconds. */
  function FormatMMSS(sec: nat): (r: string)
    ensures |r| >= 5 && r[|r| - 3] == ':'
    ensures JsText.AllDecimal(r[..|r| - 3]) && JsText.AllDecimal(r[|r| - 2..])
  {
    var mm := JsText.PadStart2(JsText.NatToString(sec / 60));
    var ss := JsText.PadStart2(JsText.NatToString(sec % 60));
    PaddedValue(sec / 60);
    PaddedDigits(sec % 60);
    assert (mm + ":" + ss)[..|mm|] == mm && (mm + ":" + ss)[|mm| + 1..] == ss;
    mm + ":" + ss
  }

  /** The text reads back: the part before the colon is `sec / 60`, the two digits after it `sec % 60`. */
  lemma FormatMMSSReadsBack(sec: nat)
    ensures var r := FormatMMSS(sec);
      && JsText.DecimalValue(r[..|r| - 3]) == sec / 60
      && JsText.DecimalValue(r[|r| - 2..]) == sec % 60
      && (sec < 6000 <==> |r| == 5)
  {
    var mm := JsText.PadStart2(JsText.NatToString(sec / 60));
    var ss := JsText.PadStart2(JsText.NatToString(sec % 60));
    PaddedValue(sec / 60);
    PaddedDigits(sec % 60);
    var r := mm + ":" + ss;
    assert r[..|r| - 3] == mm;
    assert r[|r| - 2..] == ss;
    if sec < 6000 {
      PaddedDigits(sec / 60);
    } else {
      LongMinutes(sec / 60);
    }
  }

  /** The minutes carry a leading zero only below ten minutes, so no text starts "00" from 6000 s on. */
  lemma FormatMMSSLeadingZero(sec: nat)
    ensures FormatMMSS(sec)[0] == '0' <==> sec < 600
  {
    var mm := JsText.PadStart2(JsText.NatToString(sec / 60));
    PaddedLeadingZero(sec / 60);
    assert FormatMMSS(sec)[0] == mm[0];
    MinuteBounds(sec);
  }

  /** Whole minutes below 100 and below 10, in seconds. */
  lemma MinuteBounds(sec: nat)
    ensures sec < 6000 <==> sec / 60 < 100
    ensures sec < 600 <==> sec / 60 < 10
  {
  }

  /** The padded text of a number starts with '0' exactly when the number is a single digit. */
  lemma PaddedLeadingZero(n: nat)
    ensures JsText.PadStart2(JsText.NatToString(n))[0] == '0' <==> n < 10
  {
    if n >= 10 {
      assert JsText.NatToString(n) == JsText.NatToString(n / 10) + [JsText.DigitChar(n % 10)];
    }
  }

  /** A hundred minutes or more print with at least three digits. */
  lemma LongMinutes(n: nat)
    requires n >= 100
    ensures |JsText.PadStart2(JsText.NatToString(n))| >= 3
  {
    assert JsText.NatToString(n) == JsText.NatToString(n / 10) + [JsText.DigitChar(n % 10)];
    assert n / 10 >= 10;
    assert |JsText.NatToString(n / 10)| >= 2;
  }

  /** The module-level variables the screen shares with its background location task. */
  class WalkGlobals {
    var trustedContact: string
    var interval: int
    /** `globalLastSentAt`, the time of the last location SMS. */
    var lastSentAt: Option<int>

    constructor ()
      ensures trustedContact == "" && interval == 5 && lastSentAt == None
    {
      trustedContact, interval, lastSentAt := "", 5, None;
    }

    /** `globalTrustedContact = trustedContact; globalInterval = interval;` */
    method Configure(contact: string, minutes: int)
      modifies this
      ensures trustedContact == contact && interval == minutes && lastSentAt == old(lastSentAt)
    {
      trustedContact, interval := contact, minutes;
    }

    /**
     * The background task: with no error, a location and a trusted contact, it sends the
     * SMS and records the time; a failed send records nothing.
     */
    method RecordBackgroundSend(now: int, taskError: bool, hasLocation: bool, smsFails: bool)
      modifies this
      ensures lastSentAt == if !taskError && hasLocation && trustedContact != "" && !smsFails
                            then Some(now) else old(lastSentAt)
      ensures trustedContact == old(trustedContact) && interval == old(interval)
    {
      if !taskError && hasLocation && trustedContact != "" && !smsFails {
        lastSentAt := Some(now);
      }
    }
  }

  /** `globalLastSentAt && globalLastSentAt !== lastSentAt`: a truthy time not yet shown. */
  predicate NewSend(global: Option<int>, shown: Option<int>) {
    global.Some? && global.value != 0 && global != shown
  }

  /** `[entry, ...prev].slice(0, 5)` */
  function LogSend(entry: SendEntry, log: seq<SendEntry>): (r: seq<SendEntry>)
    ensures |r| == if |log| < LogCap then |log| + 1 else LogCap
    ensures r[0] == entry && r[1..] == log[..|r| - 1]
  {
    Seqs.PrependCapped(entry, log, LogCap)
  }

  datatype StartCheck = Missing | Invalid | Ok(minutes: int)

  /** The checks `startJourney` makes before it touches anything: both inputs present, then a positive interval. */
  function CheckStart(contact: string, intervalText: string): (check: StartCheck)
    ensures check.Missing? <==> contact == "" || intervalText == ""
    ensures check.Invalid? <==> contact != "" && intervalText != "" && !JsText.PositiveInt(intervalText)
    ensures check.Ok? ==> JsText.PositiveInt(intervalText) && check.minutes == JsText.ParseInt(intervalText).value
    ensures check.Ok? ==> check.minutes >= 1
  {
    if contact == "" || intervalText == "" then Missing
    else if !JsText.PositiveInt(intervalText) then Invalid
    else Ok(JsText.ParseInt(intervalText).value)
  }

  class WalkModeScreen {
    var isActive: bool
    var isPaused: bool
    var timer: nat
    var trustedContact: string
    var intervalMinutes: string
    var nextSendIn: int
    var lastSentAt: Option<int>
    var log: seq<SendEntry>
    var quote: string
    const globals: WalkGlobals

    /** The log holds at most five entries, the countdown is never negative, the shared interval is positive. */
    predicate Valid()
      reads this, globals
    {
      |log| <= LogCap && nextSendIn >= 0 && globals.interval >= 1
    }

    constructor (globals: WalkGlobals)
      requires globals.interval >= 1
      ensures Valid() && this.globals == globals
      ensures !isActive && !isPaused && timer == 0 && trustedContact == "" && intervalMinutes == "5"
      ensures nextSendIn == 0 && lastSentAt == None && log == [] && quote == ""
    {
      isActive, isPaused, timer := false, false, 0;
      trustedContact, intervalMinutes := "", "5";
      nextSendIn, lastSentAt, log, quote := 0, None, [], "";
      this.globals := globals;
    }

    /**
     * `startJourney`. Empty inputs and an interval that does not parse above zero are
     * refused with nothing changed. Otherwise the shared contact and interval are set
     * before the permission check, so a denied permission leaves them updated.
     */
    method StartJourney(permissionsGranted: bool, quoteIndex: nat) returns (outcome: StartOutcome)
      requires Valid() && quoteIndex < |Quotes|
      modifies this, globals
      ensures Valid()
      ensures var check := CheckStart(old(trustedContact), old(intervalMinutes));
        && (check.Missing? <==> outcome == MissingInput)
        && (check.Invalid? <==> outcome == InvalidInterval)
        && (check.Ok? && !permissionsGranted <==> outcome == PermissionDenied)
        && (check.Ok? && permissionsGranted <==> outcome == Started)
        && (!check.Ok? ==> unchanged(this) && unchanged(globals))
        && (check.Ok? ==> globals.trustedContact == old(trustedContact) && globals.interval == check.minutes)
        && (outcome == PermissionDenied ==> unchanged(this))
        && (outcome == Started ==>
              isActive && !isPaused && nextSendIn == check.minutes * 60 && lastSentAt == None &&
              log == [] && quote == Quotes[quoteIndex] && timer == old(timer))
      ensures globals.lastSentAt == old(globals.lastSentAt)
      ensures trustedContact == old(trustedContact) && intervalMinutes == old(intervalMinutes)
    {
      var check := CheckStart(trustedContact, intervalMinutes);
      if check.Missing? {
        outcome := MissingInput;
      } else if check.Invalid? {
        outcome := InvalidInterval;
      } else {
        globals.Configure(trustedContact, check.minutes);
        if !permissionsGranted {
          outcome := PermissionDenied;
        } else {
          Launch(check.minutes, Quotes[quoteIndex]);
          outcome := Started;
        }
      }
    }

    /** The state a successful start sets: running, a full countdown, a fresh log. */
    method Launch(minutes: int, chosen: string)
      modifies this
      ensures isActive && !isPaused && nextSendIn == minutes * 60 && lastSentAt == None
      ensures log == [] && quote == chosen && timer == old(timer)
      ensures trustedContact == old(trustedContact) && intervalMinutes == old(intervalMinutes)
    {
      isActive, isPaused := true, false;
      quote := chosen;
      nextSendIn := minutes * 60;
      lastSentAt, log := None, [];
    }

    method PauseJourney()
      modifies this
      ensures isPaused
      ensures isActive == old(isActive) && timer == old(timer) && nextSendIn == old(nextSendIn)
      ensures log == old(log) && lastSentAt == old(lastSentAt) && quote == old(quote)
      ensures trustedContact == old(trustedContact) && intervalMinutes == old(intervalMinutes)
    {
      isPaused := true;
    }

    method ResumeJourney()
      modifies this
      ensures !isPaused
      ensures isActive == old(isActive) && timer == old(timer) && nextSendIn == old(nextSendIn)
      ensures log == old(log) && lastSentAt == old(lastSentAt) && quote == old(quote)
      ensures trustedContact == old(trustedContact) && intervalMinutes == old(intervalMinutes)
    {
      isPaused := false;
    }

    /**
     * `stopJourney`: inactive, unpaused and timer zero; the countdown and the quote are cleared
     * only when stopping the location task succeeds. The log stays.
     */
    method StopJourney(stopFails: bool)
      requires Valid()
      modifies this
      ensures Valid()
      ensures !isActive && !isPaused && timer == 0
      ensures !stopFails ==> nextSendIn == 0 && quote == ""
      ensures stopFails ==> nextSendIn == old(nextSendIn) && quote == old(quote)
      ensures log == old(log) && lastSentAt == old(lastSentAt)
      ensures trustedContact == old(trustedContact) && intervalMinutes == old(intervalMinutes)
    {
      isActive := false;
      isPaused := false;
      timer := 0;
      // The awaited stop of the location task is not guarded: when it rejects, the
      // quote and the countdown keep their values.
      if !stopFails {
        quote := "";
        nextSendIn := 0;
      }
    }

    /** The elapsed-time interval, running from start or resume until pause or stop. */
    method TimerTick()
      modifies this
      ensures timer == if old(isActive) && !old(isPaused) then old(timer) + 1 else old(timer)
      ensures isActive == old(isActive) && isPaused == old(isPaused) && nextSendIn == old(nextSendIn)
      ensures log == old(log) && lastSentAt == old(lastSentAt) && quote == old(quote)
      ensures trustedContact == old(trustedContact) && intervalMinutes == old(intervalMinutes)
    {
      if isActive && !isPaused {
        timer := timer + 1;
      }
    }

    /**
     * One second of the countdown effect while active and unpaused: the countdown wraps
     * to a full interval at 1 or below, and a send the background task recorded since the
     * last one shown is prepended to the log.
     */
    method CountdownTick(labelText: string)
      requires Valid()
      modifies this
      ensures Valid()
      ensures !(old(isActive) && !old(isPaused)) ==> unchanged(this)
      ensures old(isActive) && !old(isPaused) ==>
                nextSendIn >= 1 &&
                nextSendIn == (if old(nextSendIn) <= 1 then globals.interval * 60 else old(nextSendIn) - 1)
      ensures old(isActive) && !old(isPaused) && NewSend(globals.lastSentAt, old(lastSentAt)) ==>
                lastSentAt == globals.lastSentAt &&
                log == LogSend(SendEntry(globals.lastSentAt.value, labelText), old(log))
      ensures !NewSend(globals.lastSentAt, old(lastSentAt)) ==> lastSentAt == old(lastSentAt) && log == old(log)
      ensures isActive == old(isActive) && isPaused == old(isPaused) && timer == old(timer) && quote == old(quote)
      ensures trustedContact == old(trustedContact) && intervalMinutes == old(intervalMinutes)
    {
      if !isActive || isPaused {
        return;
      }
      nextSendIn := if nextSendIn <= 1 then globals.interval * 60 else nextSendIn - 1;
      if NewSend(globals.lastSentAt, lastSentAt) {
        lastSentAt := globals.lastSentAt;
        log := LogSend(SendEntry(globals.lastSentAt.value, labelText), log);
      }
    }
  }
}
