/**
 * SOS log records as stored under the local key "@sos_local_logs" and returned by the
 * server: JSON objects, identified by their `id` field and ordered by `created_at`.
 */
module SosRecords {
  import opened Wrappers
  import opened Json

  /** One SOS record: its fields by name. */
  type Record = map<string, Json>

  /** The dictionary key `map[rec.id]`; `None` is a record without an `id`. */
  function Key(rec: Record): Option<Json> {
    if "id" in rec then Some(rec["id"]) else None
  }

  /** `created_at` as an integer timestamp; anything else counts as 0. */
  function CreatedAt(rec: Record): int {
    if "created_at" in rec && rec["created_at"].JNum? then rec["created_at"].n else 0
  }

  /** A JSON array element read as a record; a non-object spreads no fields. */
  function AsRecord(j: Json): Record {
    if j.JObj? then j.fields else map[]
  }

  /** The device-local SOS log, shared by the home screen (writer) and the SOS log screen. */
  class SosStore {
    var entries: seq<Record>

    constructor ()
      ensures entries == []
    {
      entries := [];
    }
  }

  /** `i.id === id ? { ...i, active: false } : i` */
  function Deactivate(rec: Record, id: Json): Record {
    if Key(rec) == Some(id) then rec["active" := JBool(false)] else rec
  }

  /** `list.map(...)` that sets `active: false` on exactly the records with the given id and copies the rest. */
  function MarkResolved(list: seq<Record>, id: Json): (r: seq<Record>)
    ensures |r| == |list|
    ensures forall i :: 0 <= i < |list| && Key(list[i]) == Some(id) ==> r[i] == list[i]["active" := JBool(false)]
    ensures forall i :: 0 <= i < |list| && Key(list[i]) != Some(id) ==> r[i] == list[i]
    ensures forall i :: 0 <= i < |list| ==> Key(r[i]) == Key(list[i])
  {
    seq(|list|, i requires 0 <= i < |list| => Deactivate(list[i], id))
  }

  /** Resolving twice is the same as resolving once. */
  lemma MarkResolvedIdempotent(list: seq<Record>, id: Json)
    ensures MarkResolved(MarkResolved(list, id), id) == MarkResolved(list, id)
  {
    var once := MarkResolved(list, id);
    var twice := MarkResolved(once, id);
    forall i | 0 <= i < |list| ensures twice[i] == once[i] {
      if Key(list[i]) == Some(id) {
        assert once[i]["active" := JBool(false)] == once[i];
      }
    }
  }
}
