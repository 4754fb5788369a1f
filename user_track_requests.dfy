/**
 * The ward's list of incoming track requests, with approve/reject on pending ones. One
 * in-flight action key disables every action button until that action settles.
 */
module UserTrackRequests {
  import opened Wrappers
  import opened Json
  import opened Tracking
  import ApiClient

  const LoadFailed := "Failed to load requests"

  /** The colour of the status chip. */
  datatype Chip = ChipApproved | ChipRejected | ChipPending

  function Status(item: Json): Option<Json> {
    Get(item, "status")
  }

  /** Only users see the list; everyone else sees "Not authorized.". */
  function Render(role: Role): (v: View)
    ensures v.Content? <==> role == RoleUser
    ensures v.Warning? ==> v.text == "Not authorized."
  {
    if role == RoleUser then Content else Warning("Not authorized.")
  }

  /** "approved" and "rejected" get their own chip; every other status, known or not, gets the pending chip. */
  function StatusChip(item: Json): (chip: Chip)
    ensures chip == ChipApproved <==> Status(item) == Some(JStr("approved"))
    ensures chip == ChipRejected <==> Status(item) == Some(JStr("rejected"))
    ensures chip == ChipPending <==> Status(item) != Some(JStr("approved")) && Status(item) != Some(JStr("rejected"))
  {
    if Status(item) == Some(JStr("approved")) then ChipApproved
    else if Status(item) == Some(JStr("rejected")) then ChipRejected
    else ChipPending
  }

  /** Approve and reject are rendered only for an item whose status is exactly "pending". */
  predicate ActionsOffered(item: Json) {
    Status(item) == Some(JStr("pending"))
  }

  /** An item that offers actions wears the pending chip; the converse fails for unknown statuses. */
  lemma OfferedItemsArePendingChips(item: Json)
    ensures ActionsOffered(item) ==> StatusChip(item) == ChipPending
    ensures StatusChip(JObj(map["status" := JStr("expired")])) == ChipPending
    ensures !ActionsOffered(JObj(map["status" := JStr("expired")]))
  {
    var expired := JObj(map["status" := JStr("expired")]);
    assert Status(expired) == Some(JStr("expired"));
  }

  /** `id + action`, where a missing id prints as "undefined". */
  function ActionKey(id: Option<Json>, action: string): (key: string)
    ensures |key| >= |action| && key[|key| - |action|..] == action
    ensures key[..|key| - |action|] == if id.Some? then ToText(id.value) else "undefined"
  {
    (if id.Some? then ToText(id.value) else "undefined") + action
  }

  /**
   * A row's approve and reject buttons compare `loadingAct` with the key of their own action,
   * so for one id the spinner shows on a button exactly when that button's action is in flight.
   */
  lemma {:induction false} SpinnerOnPressedButton(id: Option<Json>, pressed: string, shown: string)
    ensures ActionKey(id, pressed) == ActionKey(id, shown) <==> pressed == shown
  {
    var k1 := ActionKey(id, pressed);
    var k2 := ActionKey(id, shown);
    if k1 == k2 {
      assert |pressed| == |shown|;
      assert pressed == k1[|k1| - |pressed|..] == k2[|k2| - |shown|..] == shown;
    }
  }

  /** `Array.isArray(data) ? data : []` */
  function ItemsOf(data: Json): (items: seq<Json>)
    ensures data.JArr? ==> items == data.items
    ensures !data.JArr? ==> items == []
  {
    if data.JArr? then data.items else []
  }

  class UserTrackRequestsScreen {
    var items: seq<Json>
    var refreshing: bool
    var loadingAct: Option<string>
    var loadError: Option<string>

    constructor ()
      ensures items == [] && !refreshing && loadingAct == None && loadError == None
    {
      items, refreshing, loadingAct, loadError := [], false, None, None;
    }

    /** `disabled={!!loadingAct}`: while an action key is set, every action button is disabled. */
    predicate ButtonsEnabled()
      reads this
    {
      loadingAct.None? || loadingAct.value == ""
    }

    /**
     * `load`: a no-op unless there is a token and the role is "user". A success replaces the
     * items (with [] for a non-array); a failure keeps them and sets the load error.
     */
    method Load(token: string, role: Role, fetched: Result<Json, ApiClient.ApiError>)
      modifies this
      ensures token == "" || role != RoleUser ==> unchanged(this)
      ensures token != "" && role == RoleUser ==>
        && !refreshing
        && (fetched.Success? ==> items == ItemsOf(fetched.value) && loadError == None)
        && (fetched.Failure? ==> items == old(items) && loadError == Some(LoadFailed))
      ensures loadingAct == old(loadingAct)
    {
      if token == "" || role != RoleUser {
        return;
      }
      refreshing := true;
      loadError := None;
      if fetched.Success? {
        items := ItemsOf(fetched.value);
      } else {
        loadError := Some(LoadFailed);
      }
      refreshing := false;
    }

    /**
     * A press on Approve or Reject for `item`: ignored unless the item offers actions and no
     * action is in flight; otherwise the key `id + action` is set and `{action}` is sent.
     */
    method BeginAct(item: Json, action: string) returns (sent: Option<Json>)
      requires action == "approve" || action == "reject"
      modifies this
      ensures sent.Some? <==> old(ButtonsEnabled()) && ActionsOffered(item)
      ensures sent.Some? ==>
        && sent.value == JObj(map["action" := JStr(action)])
        && loadingAct == Some(ActionKey(Get(item, "id"), action))
        && !ButtonsEnabled()
      ensures sent.None? ==> unchanged(this)
      ensures items == old(items) && refreshing == old(refreshing) && loadError == old(loadError)
    {
      if !ButtonsEnabled() || !ActionsOffered(item) {
        return None;
      }
      loadingAct := Some(ActionKey(Get(item, "id"), action));
      sent := Some(JObj(map["action" := JStr(action)]));
    }

    /**
     * The rest of `act` once the PUT settled: a success reloads the list (with `reloaded`
     * as the reload's fetch), a failure does not; the action key is cleared either way.
     */
    method FinishAct(token: string, role: Role, acted: Result<Json, ApiClient.ApiError>, reloaded: Result<Json, ApiClient.ApiError>)
      modifies this
      ensures loadingAct == None && ButtonsEnabled()
      ensures acted.Failure? ==> items == old(items) && loadError == old(loadError) && refreshing == old(refreshing)
      ensures acted.Success? && (token == "" || role != RoleUser) ==>
        items == old(items) && loadError == old(loadError) && refreshing == old(refreshing)
      ensures acted.Success? && token != "" && role == RoleUser ==>
        && !refreshing
        && (reloaded.Success? ==> items == ItemsOf(reloaded.value) && loadError == None)
        && (reloaded.Failure? ==> items == old(items) && loadError == Some(LoadFailed))
    {
      if acted.Success? {
        Load(token, role, reloaded);
      }
      loadingAct := None;
    }
  }
}
