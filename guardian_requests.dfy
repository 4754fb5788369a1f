/** The guardian's look-up-then-request screen. */
module GuardianRequests {
  import opened Wrappers
  import opened Json
  import opened Tracking
  import JsText
  import ApiClient

  /** What the raw look-up `fetch` did: threw (also when the body was not JSON), answered non-ok, or answered ok with a body. */
  datatype LookupResponse = LookupThrew | LookupNotOk | LookupOk(data: Json)

  /** Guardians and NGOs see the screen; everyone else sees the warning text. */
  function Render(role: Role): (v: View)
    ensures v.Content? <==> IsGuardianOrNgo(role)
    ensures v.Warning? ==> v.text == "Only guardians and NGOs can access this screen."
  {
    if IsGuardianOrNgo(role) then Content else Warning("Only guardians and NGOs can access this screen.")
  }

  /**
   * The request body: the looked-up user's id when a look-up result exists, otherwise the
   * trimmed e-mail. A result without an `id` serialises to `{}`, as `JSON.stringify` drops
   * `undefined` fields.
   */
  function TargetBody(lookupResult: Json, email: string): (body: Json)
    ensures Truthy(lookupResult) && Get(lookupResult, "id").Some?
            ==> body == JObj(map["targetUserId" := Get(lookupResult, "id").value])
    ensures Truthy(lookupResult) && Get(lookupResult, "id").None? ==> body == JObj(map[])
    ensures !Truthy(lookupResult) ==> body == JObj(map["targetEmail" := JStr(JsText.Trim(email))])
  {
    if Truthy(lookupResult) then
      match Get(lookupResult, "id")
      case Some(id) => JObj(map["targetUserId" := id])
      case None => JObj(map[])
    else JObj(map["targetEmail" := JStr(JsText.Trim(email))])
  }

  class GuardianRequestsScreen {
    var email: string
    var lookupResult: Json
    var sending: bool

    constructor ()
      ensures email == "" && lookupResult == JNull && !sending
    {
      email, lookupResult, sending := "", JNull, false;
    }

    /**
     * `lookup`: a blank e-mail does nothing. Otherwise the trimmed e-mail is queried; an ok
     * answer stores its body, a non-ok answer clears the result, a thrown error keeps it.
     */
    method Lookup(response: LookupResponse) returns (queried: Option<string>)
      modifies this
      ensures JsText.Trim(old(email)) == "" ==> queried == None && unchanged(this)
      ensures JsText.Trim(old(email)) != "" ==>
        && queried == Some(JsText.Trim(old(email)))
        && (response.LookupOk? ==> lookupResult == response.data)
        && (response.LookupNotOk? ==> lookupResult == JNull)
        && (response.LookupThrew? ==> lookupResult == old(lookupResult))
      ensures email == old(email) && sending == old(sending)
    {
      var trimmed := JsText.Trim(email);
      if trimmed == "" {
        return None;
      }
      queried := Some(trimmed);
      match response {
        case LookupOk(data) => lookupResult := data;
        case LookupNotOk => lookupResult := JNull;
        case LookupThrew =>
      }
    }

    /**
     * `sendRequest`: nothing is sent when there is neither a look-up result nor a non-blank
     * e-mail; otherwise the body is posted and `sending` is false again. The reply only
     * chooses an alert, so it is not a parameter.
     */
    method SendRequest() returns (sent: Option<Json>)
      modifies this
      ensures !Truthy(old(lookupResult)) && JsText.Trim(old(email)) == "" ==> sent == None && unchanged(this)
      ensures Truthy(old(lookupResult)) || JsText.Trim(old(email)) != "" ==>
        sent == Some(TargetBody(old(lookupResult), old(email))) && !sending
      ensures email == old(email) && lookupResult == old(lookupResult)
    {
      if !Truthy(lookupResult) && JsText.Trim(email) == "" {
        return None;
      }
      sending := true;
      sent := Some(TargetBody(lookupResult, email));
      sending := false;
    }
  }
}
