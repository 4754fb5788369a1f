/**
 * The home screen's SOS button: a 15-second cooldown, the checks for a location and
 * trusted contacts, the server call with its legacy fallback, and the local SOS log
 * entry prepended to a log of at most 50 records.
 */
module HomeSos {
  import opened Wrappers
  import opened Json
  import opened Tracking
  import opened SosRecords
  import JsText
  import Seqs
  import ApiClient

  /** Milliseconds within which a second press is ignored. */
  const CooldownMs := 15000
  /** The local SOS log keeps this many newest records. */
  const LogCap := 50

  datatype SosOutcome = Ignored | LocationMissing | NoContacts | Sent

  /**
   * `serverData`: for a signed-in user, the value `/sos/create` returned, else (when that
   * call failed) the value `/sos` returned, else `null`.
   */
  function ServerData(token: string, role: Role, created: Result<Json, ApiClient.ApiError>,
                      legacy: Result<Json, ApiClient.ApiError>): (data: Json)
    ensures token == "" || role != RoleUser ==> data == JNull
    ensures token != "" && role == RoleUser && created.Success? ==> data == created.value
    ensures token != "" && role == RoleUser && created.Failure? && legacy.Success? ==> data == legacy.value
    ensures created.Failure? && legacy.Failure? ==> data == JNull
  {
    if token == "" || role != RoleUser then JNull
    else if created.Success? then created.value
    else if legacy.Success? then legacy.value
    else JNull
  }

  /** The id of a locally logged SOS when the server gave none: `local-<ms>`. */
  function LocalId(logNow: int): (id: Json)
    ensures id.JStr? && |id.s| > 6 && id.s[..6] == "local-"
    ensures id.s[6..] == JsText.IntToString(logNow)
  {
    var text := JsText.IntToString(logNow);
    assert ("local-" + text)[6..] == text;
    JStr("local-" + text)
  }

  /** The text after "local-" reads back with `parseInt` as the time the id was made. */
  lemma LocalIdReadsBack(logNow: int)
    ensures JsText.ParseInt(LocalId(logNow).s[6..]) == Some(logNow)
  {
    JsText.ParseIntOfIntToString(logNow);
  }

  /** The record `handleSendSOS` prepends to the local log. */
  function LocalEntry(serverData: Json, logNow: int, isoNow: string): (entry: Record)
    ensures entry.Keys == {"id", "note", "emergency_type", "active", "created_at", "source"}
    ensures entry["id"] == OrElse(Get(serverData, "id"), LocalId(logNow))
    ensures entry["note"] == JStr("Mobile SOS") && entry["emergency_type"] == JStr("general")
    ensures entry["active"] == JBool(Get(serverData, "active") != Some(JBool(false)))
    ensures HasTruthy(serverData, "created_at") ==> entry["created_at"] == serverData.fields["created_at"]
    ensures !HasTruthy(serverData, "created_at") ==> entry["created_at"] == JStr(isoNow)
    ensures entry["source"] == JStr("server") <==> Truthy(serverData)
    ensures entry["source"] == JStr("local") <==> !Truthy(serverData)
  {
    map[
      "id" := OrElse(Get(serverData, "id"), LocalId(logNow)),
      "note" := JStr("Mobile SOS"),
      "emergency_type" := JStr("general"),
      "active" := JBool(Get(serverData, "active") != Some(JBool(false))),
      "created_at" := OrElse(Get(serverData, "created_at"), JStr(isoNow)),
      "source" := JStr(if Truthy(serverData) then "server" else "local")
    ]
  }

  /** The id of a logged SOS is the server's id when it sent a truthy one, else a `local-` id. */
  lemma EntryIdSource(serverData: Json, logNow: int, isoNow: string)
    ensures var id := LocalEntry(serverData, logNow, isoNow)["id"];
            (HasTruthy(serverData, "id") ==> id == serverData.fields["id"])
            && (!HasTruthy(serverData, "id") ==> id.JStr? && id.s[..6] == "local-")
  {
    var _ := LocalId(logNow);
  }

  /** `arr.unshift(entry); arr.slice(0, 50)`: the new entry first, then the newest of the rest. */
  function LoggedSos(entries: seq<Record>, entry: Record): (log: seq<Record>)
    ensures 1 <= |log| <= LogCap
    ensures log[0] == entry
    ensures |log| == if |entries| < LogCap then |entries| + 1 else LogCap
    ensures log[1..] == entries[..|log| - 1]
  {
    Seqs.PrependCapped(entry, entries, LogCap)
  }

  class SosButton {
    /** `sosCooldownRef.current`: when the last press that passed the cooldown happened. */
    var cooldownStamp: int
    const store: SosStore

    constructor (store: SosStore)
      ensures cooldownStamp == 0 && this.store == store
    {
      cooldownStamp := 0;
      this.store := store;
    }

    /**
     * `handleSendSOS`. The stamp is taken before the location and contacts checks, so a
     * press that fails them still starts a new cooldown. SMS sending is not modelled;
     * the log is read from and written back to the store unless storage fails.
     */
    method HandleSendSOS(now: int, hasLocation: bool, contactCount: nat, token: string, role: Role,
                         created: Result<Json, ApiClient.ApiError>, legacy: Result<Json, ApiClient.ApiError>,
                         logNow: int, isoNow: string, storageFails: bool)
      returns (outcome: SosOutcome)
      modifies this, store
      ensures outcome == Ignored <==> now - old(cooldownStamp) < CooldownMs
      ensures outcome == Ignored ==> cooldownStamp == old(cooldownStamp)
      ensures outcome != Ignored ==> cooldownStamp == now
      ensures outcome == LocationMissing <==> now - old(cooldownStamp) >= CooldownMs && !hasLocation
      ensures outcome == NoContacts <==> now - old(cooldownStamp) >= CooldownMs && hasLocation && contactCount == 0
      ensures outcome == Sent && !storageFails ==>
                store.entries == LoggedSos(old(store.entries), LocalEntry(ServerData(token, role, created, legacy), logNow, isoNow))
      ensures outcome != Sent || storageFails ==> store.entries == old(store.entries)
    {
      if now - cooldownStamp < CooldownMs {
        return Ignored;
      }
      cooldownStamp := now;
      if !hasLocation {
        return LocationMissing;
      }
      if contactCount == 0 {
        return NoContacts;
      }
      var serverData := ServerData(token, role, created, legacy);
      if !storageFails {
        store.entries := LoggedSos(store.entries, LocalEntry(serverData, logNow, isoNow));
      }
      outcome := Sent;
    }
  }
}
