/**
 * The guardian's tracking centre: the approved ids, the latest location of each, and a
 * request form with its own optimistic pending list.
 */
module AccessList {
  import opened Wrappers
  import opened Json
  import opened Tracking
  import JsText
  import Seqs
  import ApiClient

  /** Guardians and NGOs see the screen; everyone else sees "Not authorized.". */
  function Render(role: Role): (v: View)
    ensures v.Content? <==> IsGuardianOrNgo(role)
    ensures v.Warning? ==> v.text == "Not authorized."
  {
    if IsGuardianOrNgo(role) then Content else Warning("Not authorized.")
  }

  /** `p.filter((pr) => !list.includes(pr.email))`: an e-mail is looked up among the ids as written. */
  function PruneApproved(pending: seq<PendingEntry>, ids: seq<Json>): (r: seq<PendingEntry>)
    ensures forall e :: e in r <==> e in pending && JStr(e.email) !in ids
    ensures forall e :: multiset(r)[e] == if JStr(e.email) !in ids then multiset(pending)[e] else 0
    ensures Seqs.IsSubsequence(r, pending)
  {
    Seqs.Filter(pending, (pr: PendingEntry) => JStr(pr.email) !in ids)
  }

  /** Pruning again against the same ids removes nothing more. */
  lemma {:induction false} PruneApprovedIdempotent(pending: seq<PendingEntry>, ids: seq<Json>)
    ensures PruneApproved(PruneApproved(pending, ids), ids) == PruneApproved(pending, ids)
  {
    var once := PruneApproved(pending, ids);
    Seqs.FilterKeepsAll(once, (pr: PendingEntry) => JStr(pr.email) !in ids);
  }

  /** The value stored for one id: what its location fetch resolved to, or `null` when it threw. */
  function LocationValue(outcome: Result<Json, ApiClient.ApiError>): Json {
    if outcome.Success? then outcome.value else JNull
  }

  /** `list[i]` is not repeated later in the list, so its entry is the one that stays in the map. */
  predicate LastOccurrence(list: seq<Json>, i: nat)
    requires i < |list|
  {
    forall j :: i < j < |list| ==> list[j] != list[i]
  }

  /**
   * `locPairs` has one key per id, and the key of an id holds the outcome of that id's
   * last `/location/latest/<uid>` fetch (call number `i` is `latestOf(i, uid)`), `null` on failure.
   */
  predicate LocationsOf(list: seq<Json>, locPairs: map<Json, Json>, latestOf: (nat, Json) -> Result<Json, ApiClient.ApiError>) {
    && locPairs.Keys == (set x | x in list)
    && forall i :: 0 <= i < |list| && LastOccurrence(list, i) ==> list[i] in locPairs && locPairs[list[i]] == LocationValue(latestOf(i, list[i]))
  }

  /** The `for` loop that fills `locPairs`, one fetch per id in list order. */
  method FetchLocations(list: seq<Json>, latestOf: (nat, Json) -> Result<Json, ApiClient.ApiError>)
    returns (locPairs: map<Json, Json>)
    ensures LocationsOf(list, locPairs, latestOf)
  {
    locPairs := map[];
    var i := 0;
    while i < |list|
      invariant 0 <= i <= |list|
      invariant locPairs.Keys == set x | x in list[..i]
      invariant forall k :: 0 <= k < i && (forall j :: k < j < i ==> list[j] != list[k])
                  ==> locPairs[list[k]] == LocationValue(latestOf(k, list[k]))
    {
      assert list[..i + 1] == list[..i] + [list[i]];
      locPairs := locPairs[list[i] := LocationValue(latestOf(i, list[i]))];
      i := i + 1;
    }
    assert list[..i] == list;
  }

  class AccessListScreen {
    var ids: seq<Json>
    var locations: map<Json, Json>
    var refreshing: bool
    var email: string
    var pending: seq<PendingEntry>
    var loadingReq: bool

    constructor ()
      ensures ids == [] && locations == map[] && !refreshing && email == "" && pending == [] && !loadingReq
    {
      ids, locations, refreshing := [], map[], false;
      email, pending, loadingReq := "", [], false;
    }

    /**
     * `sendRequest` at time `now`: the target is trimmed but keeps its case; an empty target
     * sends nothing. Returns the body sent, if any.
     */
    method SendRequest(now: int, posted: Result<Json, ApiClient.ApiError>) returns (sent: Option<Json>)
      modifies this
      ensures var target := JsText.Trim(old(email));
        && (target == "" ==> sent == None && unchanged(this))
        && (target != "" ==> sent == Some(JObj(map["targetEmail" := JStr(target)])) && !loadingReq)
        && (target != "" && posted.Success? ==> pending == [PendingEntry(target, now)] + old(pending) && email == "")
        && (target != "" && posted.Failure? ==> pending == old(pending) && email == old(email))
      ensures ids == old(ids) && locations == old(locations) && refreshing == old(refreshing)
    {
      var target := JsText.Trim(email);
      if target == "" {
        sent := None;
      } else {
        // `loadingReq` is raised while the request is in flight and lowered once it settles.
        sent := Some(JObj(map["targetEmail" := JStr(target)]));
        if posted.Success? {
          pending, email, loadingReq := [PendingEntry(target, now)] + pending, "", false;
        } else {
          loadingReq := false;
        }
      }
    }

    /**
     * `load`: without a token or a signed-in user nothing happens. Otherwise the ids, the
     * per-id locations and the pruned pending list replace the old ones when the id fetch
     * succeeds, nothing of them changes when it fails, and `refreshing` ends false either way.
     */
    method Load(token: string, hasUser: bool, fetched: Result<Json, ApiClient.ApiError>,
                latestOf: (nat, Json) -> Result<Json, ApiClient.ApiError>)
      modifies this
      ensures token == "" || !hasUser ==> unchanged(this)
      ensures token != "" && hasUser ==>
        && !refreshing
        && (fetched.Failure? ==> ids == old(ids) && locations == old(locations) && pending == old(pending))
        && (fetched.Success? ==>
              && ids == CanAccessList(fetched.value)
              && LocationsOf(ids, locations, latestOf)
              && pending == PruneApproved(old(pending), ids))
      ensures email == old(email) && loadingReq == old(loadingReq)
    {
      if token != "" && hasUser {
        // `refreshing` is raised for the duration of the fetches and lowered once they end.
        if fetched.Success? {
          var list := CanAccessList(fetched.value);
          var locPairs := FetchLocations(list, latestOf);
          var pruned := PruneApproved(pending, list);
          ids, locations, pending, refreshing := list, locPairs, pruned, false;
        } else {
          refreshing := false;
        }
      }
    }
  }
}
