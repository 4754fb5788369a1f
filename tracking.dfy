/** Vocabulary shared by the guardian/ward tracking screens. */
module Tracking {
  import opened Json

  /** `user?.role`; `RoleOther` covers every other string and a missing user. */
  datatype Role = RoleUser | RoleGuardian | RoleNgo | RoleOther

  /** The guardian-side screens are shown to guardians and NGOs only. */
  predicate IsGuardianOrNgo(role: Role) {
    role == RoleGuardian || role == RoleNgo
  }

  /** What a role-gated screen renders: its content, or a fixed warning text. */
  datatype View = Content | Warning(text: string)

  /** `data?.canAccess || []`, for the array the backend returns (a truthy non-array is not modelled). */
  function CanAccessList(data: Json): (ids: seq<Json>)
    ensures HasTruthy(data, "canAccess") && Get(data, "canAccess").value.JArr? ==> ids == Get(data, "canAccess").value.items
    ensures !HasTruthy(data, "canAccess") ==> ids == []
  {
    if HasTruthy(data, "canAccess") && Get(data, "canAccess").value.JArr? then Get(data, "canAccess").value.items else []
  }

  /** An optimistic entry for a request the backend accepted: `{email, ts}`. */
  datatype PendingEntry = PendingEntry(email: string, ts: int)
}
