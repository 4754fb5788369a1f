/**
 * The guardian/NGO panel of the home screen: an inline track-request form, the
 * optimistic pending overlay, and the approved/pending counters.
 */
module HomeTracking {
  import opened Wrappers
  import opened Json
  import opened Tracking
  import JsText
  import Seqs
  import ApiClient

  const FailedToSend := "Failed to send request"

  /** `e.resolvedId`: entries are built as `{email, ts}`, so the field reads as `undefined`. */
  function ResolvedId(e: PendingEntry): Option<Json> {
    None
  }

  predicate SomeIdIs(ids: seq<Json>, resolved: Option<Json>) {
    exists i :: 0 <= i < |ids| && Some(ids[i]) == resolved
  }

  /** `prev.filter((e) => !list.some((id) => id === e.resolvedId))`, as written. */
  function PruneResolved(pending: seq<PendingEntry>, ids: seq<Json>): (r: seq<PendingEntry>)
    ensures forall e :: e in r <==> e in pending && !SomeIdIs(ids, ResolvedId(e))
    ensures forall e :: multiset(r)[e] == if !SomeIdIs(ids, ResolvedId(e)) then multiset(pending)[e] else 0
    ensures Seqs.IsSubsequence(r, pending)
  {
    Seqs.Filter(pending, e => !SomeIdIs(ids, ResolvedId(e)))
  }

  /** Because no entry ever carries a `resolvedId`, the prune removes nothing, whatever the server returns. */
  lemma PruneNeverRemoves(pending: seq<PendingEntry>, ids: seq<Json>)
    ensures PruneResolved(pending, ids) == pending
  {
    Seqs.FilterKeepsAll(pending, e => !SomeIdIs(ids, ResolvedId(e)));
  }

  /** The three kinds of inline error: the network message, `"<status>: <message>"`, or a fixed fallback. */
  function InlineErrorMessage(err: ApiClient.ApiError): (msg: string)
    ensures err.NetworkError? ==> msg == err.message
    ensures err.HttpError? ==> msg != ""
    ensures err.HttpError? && err.status != 0
            ==> msg == JsText.IntToString(err.status) + ": " + ToText(err.backendMessage)
    ensures err.HttpError? && err.status == 0 ==> msg == FailedToSend
  {
    match err
    case NetworkError(m, _) => m
    case HttpError(status, m, _) =>
      if status != 0 then JsText.IntToString(status) + ": " + ToText(m) else FailedToSend
  }

  /** The normalised target of an inline request: trimmed, then lower-cased. */
  function NormalizeEmail(typed: string): (email: string)
    ensures email == [] <==> JsText.AllSpace(typed)
    ensures |email| == |JsText.Trim(typed)| <= |typed|
    ensures forall k :: 0 <= k < |email| ==> email[k] == JsText.LowerChar(JsText.Trim(typed)[k])
    ensures forall k :: 0 <= k < |email| ==> !('A' <= email[k] <= 'Z')
  {
    JsText.ToLowerAscii(JsText.Trim(typed))
  }

  class GuardianPanel {
    var trackEmail: string
    var pendingLocal: seq<PendingEntry>
    /** `accessStats.canAccess` */
    var approvedCount: nat
    /** `accessStats.pending` */
    var pendingCount: nat
    var inlineErr: Option<string>

    constructor ()
      ensures trackEmail == "" && pendingLocal == [] && approvedCount == 0 && pendingCount == 0 && inlineErr == None
    {
      trackEmail := "";
      pendingLocal := [];
      approvedCount := 0;
      pendingCount := 0;
      inlineErr := None;
    }

    /**
     * `refreshAccess` as run from a render whose `pendingLocal` had `seenPending` entries:
     * a failed fetch changes nothing; otherwise the prune runs and both counters are set.
     */
    method RefreshWith(fetched: Result<Json, ApiClient.ApiError>, seenPending: nat)
      modifies this
      ensures fetched.Failure? ==> unchanged(this)
      ensures fetched.Success? ==>
        && pendingLocal == PruneResolved(old(pendingLocal), CanAccessList(fetched.value))
        && pendingLocal == old(pendingLocal)
        && approvedCount == |CanAccessList(fetched.value)|
        && pendingCount == seenPending
      ensures trackEmail == old(trackEmail) && inlineErr == old(inlineErr)
    {
      if fetched.Success? {
        var list := CanAccessList(fetched.value);
        PruneNeverRemoves(pendingLocal, list);
        pendingLocal := PruneResolved(pendingLocal, list);
        approvedCount, pendingCount := |list|, seenPending;
      }
    }

    /** The "Refresh Access" button: the render's `pendingLocal` is the current one. */
    method RefreshAccess(fetched: Result<Json, ApiClient.ApiError>)
      modifies this
      ensures fetched.Failure? ==> unchanged(this)
      ensures fetched.Success? ==>
        && pendingLocal == old(pendingLocal)
        && approvedCount == |CanAccessList(fetched.value)|
        && pendingCount == |old(pendingLocal)|
      ensures trackEmail == old(trackEmail) && inlineErr == old(inlineErr)
    {
      RefreshWith(fetched, |pendingLocal|);
    }

    /**
     * `submitTrackRequestInline` at time `now`; `posted` is what the POST resolved to and
     * `refreshed` what the `refreshAccess` it then starts receives. Returns the body sent, if any.
     * The chained refresh still sees the render's old `pendingLocal`, so it counts the
     * entries from before the new one.
     */
    method SubmitTrackRequestInline(now: int, posted: Result<Json, ApiClient.ApiError>, refreshed: Result<Json, ApiClient.ApiError>)
      returns (sent: Option<Json>)
      modifies this
      ensures var email := NormalizeEmail(old(trackEmail));
        && (email == "" ==> sent == None && unchanged(this))
        && (email != "" ==> sent == Some(JObj(map["targetEmail" := JStr(email)])))
        && (email != "" && posted.Success? ==>
              && pendingLocal == [PendingEntry(email, now)] + old(pendingLocal)
              && trackEmail == ""
              && inlineErr == None
              && (refreshed.Success? ==> approvedCount == |CanAccessList(refreshed.value)| && pendingCount == |old(pendingLocal)|)
              && (refreshed.Failure? ==> approvedCount == old(approvedCount) && pendingCount == old(pendingCount)))
        && (email != "" && posted.Failure? ==>
              && pendingLocal == old(pendingLocal)
              && trackEmail == old(trackEmail)
              && inlineErr == Some(InlineErrorMessage(posted.error))
              && approvedCount == old(approvedCount) && pendingCount == old(pendingCount))
    {
      var email := NormalizeEmail(trackEmail);
      if email == "" {
        sent := None;
      } else {
        sent := Some(JObj(map["targetEmail" := JStr(email)]));
        if posted.Success? {
          var seen := |pendingLocal|;
          pendingLocal, trackEmail, inlineErr := [PendingEntry(email, now)] + pendingLocal, "", None;
          RefreshWith(refreshed, seen);
        } else {
          inlineErr := Some(InlineErrorMessage(posted.error));
        }
      }
    }
  }
}
