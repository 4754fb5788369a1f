/**
 * The ward's SOS history: server records merged over the locally logged ones (server
 * wins, keyed by id), newest first, with a point update when an SOS is resolved.
 */
module SosLog {
  import opened Wrappers
  import opened Json
  import opened Tracking
  import opened SosRecords
  import ApiClient

  type Dict = map<Option<Json>, Record>

  function Last<T>(s: seq<T>): T
    requires s != []
  {
    s[|s| - 1]
  }

  /** The set of ids a list of records carries. */
  function KeysOf(list: seq<Record>): set<Option<Json>> {
    set r | r in list :: Key(r)
  }

  /** Every entry of the dictionary sits under its own record's id. */
  predicate KeyConsistent(dict: Dict) {
    forall k :: k in dict ==> Key(dict[k]) == k
  }

  /** `{ ...map[s.id], ...s, source: "server" }` */
  function MergeOne(dict: Dict, s: Record): Record {
    (if Key(s) in dict then dict[Key(s)] else map[]) + s + map["source" := JStr("server")]
  }

  /** The dictionary after `local.forEach((l) => (map[l.id] = l))`: the last record per id. */
  function IndexLocal(local: seq<Record>): Dict
    decreases |local|
  {
    if local == [] then map[] else IndexLocal(local[..|local| - 1])[Key(Last(local)) := Last(local)]
  }

  /** The dictionary after the server `forEach`, starting from `dict`. */
  function OverlayServer(dict: Dict, server: seq<Record>): Dict
    decreases |server|
  {
    if server == [] then dict
    else
      var d := OverlayServer(dict, server[..|server| - 1]);
      d[Key(Last(server)) := MergeOne(d, Last(server))]
  }

  /** The record each id ends up with after both loops of `merge`. */
  function MergedIndex(server: seq<Record>, local: seq<Record>): Dict {
    OverlayServer(IndexLocal(local), server)
  }

  lemma KeysOfSnoc(list: seq<Record>)
    requires list != []
    ensures KeysOf(list) == KeysOf(list[..|list| - 1]) + {Key(Last(list))}
  {
    assert list == list[..|list| - 1] + [Last(list)];
    forall k | k in KeysOf(list) ensures k in KeysOf(list[..|list| - 1]) + {Key(Last(list))} {
      var r :| r in list && Key(r) == k;
    }
  }

  lemma {:induction false} IndexLocalShape(local: seq<Record>)
    ensures IndexLocal(local).Keys == KeysOf(local)
    ensures KeyConsistent(IndexLocal(local))
    decreases |local|
  {
    if local != [] {
      IndexLocalShape(local[..|local| - 1]);
      KeysOfSnoc(local);
    }
  }

  lemma MergeOneKeepsKey(dict: Dict, s: Record)
    requires KeyConsistent(dict)
    ensures Key(MergeOne(dict, s)) == Key(s)
  {
  }

  lemma {:induction false} OverlayShape(dict: Dict, server: seq<Record>)
    requires KeyConsistent(dict)
    ensures OverlayServer(dict, server).Keys == dict.Keys + KeysOf(server)
    ensures KeyConsistent(OverlayServer(dict, server))
    decreases |server|
  {
    if server != [] {
      OverlayShape(dict, server[..|server| - 1]);
      KeysOfSnoc(server);
      MergeOneKeepsKey(OverlayServer(dict, server[..|server| - 1]), Last(server));
    }
  }

  /** The merged ids are exactly the server ids and the local ids, each under its own record. */
  lemma MergedIndexShape(server: seq<Record>, local: seq<Record>)
    ensures MergedIndex(server, local).Keys == KeysOf(server) + KeysOf(local)
    ensures KeyConsistent(MergedIndex(server, local))
  {
    IndexLocalShape(local);
    OverlayShape(IndexLocal(local), server);
  }

  /** Every id the server sent ends up with `source: "server"`. */
  lemma {:induction false} ServerRecordsMarked(dict: Dict, server: seq<Record>, k: Option<Json>)
    requires k in KeysOf(server)
    ensures k in OverlayServer(dict, server)
    ensures "source" in OverlayServer(dict, server)[k] && OverlayServer(dict, server)[k]["source"] == JStr("server")
    decreases |server|
  {
    KeysOfSnoc(server);
    if k != Key(Last(server)) {
      ServerRecordsMarked(dict, server[..|server| - 1], k);
    }
  }

  /** For an id the server sent, each field of its last server record (other than `source`) wins. */
  lemma {:induction false} ServerFieldsWin(dict: Dict, server: seq<Record>, i: nat, f: string)
    requires i < |server| && f in server[i] && f != "source"
    requires forall j :: i < j < |server| ==> Key(server[j]) != Key(server[i])
    ensures Key(server[i]) in OverlayServer(dict, server)
    ensures f in OverlayServer(dict, server)[Key(server[i])]
    ensures OverlayServer(dict, server)[Key(server[i])][f] == server[i][f]
    decreases |server|
  {
    if i < |server| - 1 {
      ServerFieldsWin(dict, server[..|server| - 1], i, f);
    }
  }

  /** An id the server did not send keeps its local record untouched. */
  lemma {:induction false} LocalOnlyKept(dict: Dict, server: seq<Record>, k: Option<Json>)
    requires k in dict && k !in KeysOf(server)
    ensures k in OverlayServer(dict, server) && OverlayServer(dict, server)[k] == dict[k]
    decreases |server|
  {
    if server != [] {
      KeysOfSnoc(server);
      LocalOnlyKept(dict, server[..|server| - 1], k);
    }
  }

  /** A local field that no server record with the same id carries survives the merge. */
  lemma {:induction false} LocalFieldsSurvive(dict: Dict, server: seq<Record>, k: Option<Json>, f: string)
    requires k in dict && f in dict[k] && f != "source"
    requires forall j :: 0 <= j < |server| && Key(server[j]) == k ==> f !in server[j]
    ensures k in OverlayServer(dict, server)
    ensures f in OverlayServer(dict, server)[k] && OverlayServer(dict, server)[k][f] == dict[k][f]
    decreases |server|
  {
    if server != [] {
      LocalFieldsSurvive(dict, server[..|server| - 1], k, f);
    }
  }

  /** `sort((a, b) => b.created_at - a.created_at)`: newest first. */
  predicate NewestFirst(s: seq<Record>) {
    forall i, j :: 0 <= i < j < |s| ==> CreatedAt(s[i]) >= CreatedAt(s[j])
  }

  /** Inserts `x` after every record at least as new, so records of equal time keep their order. */
  function InsertByTime(x: Record, s: seq<Record>): (r: seq<Record>)
    ensures multiset(r) == multiset(s) + multiset{x}
  {
    if s == [] then [x]
    else if CreatedAt(s[0]) >= CreatedAt(x) then
      assert s == [s[0]] + s[1..];
      [s[0]] + InsertByTime(x, s[1..])
    else [x] + s
  }

  lemma {:induction false} InsertKeepsNewestFirst(x: Record, s: seq<Record>)
    requires NewestFirst(s)
    ensures NewestFirst(InsertByTime(x, s))
    decreases |s|
  {
    if s != [] && CreatedAt(s[0]) >= CreatedAt(x) {
      InsertKeepsNewestFirst(x, s[1..]);
      var rest := InsertByTime(x, s[1..]);
      forall y | y in rest ensures CreatedAt(s[0]) >= CreatedAt(y) {
        assert y in multiset(rest);
        assert y == x || y in multiset(s[1..]);
      }
    }
  }

  /** A stable insertion sort, newest first; the result is a permutation of the input. */
  function SortNewestFirst(s: seq<Record>): (r: seq<Record>)
    ensures multiset(r) == multiset(s)
    ensures NewestFirst(r)
    decreases |s|
  {
    if s == [] then []
    else
      assert s == s[..|s| - 1] + [Last(s)];
      var sorted := SortNewestFirst(s[..|s| - 1]);
      InsertKeepsNewestFirst(Last(s), sorted);
      InsertByTime(Last(s), sorted)
  }

  predicate DistinctKeys<K(==)>(ks: seq<K>) {
    forall a, b :: 0 <= a < b < |ks| ==> ks[a] != ks[b]
  }

  predicate DistinctRecordKeys(s: seq<Record>) {
    forall a, b :: 0 <= a < b < |s| ==> Key(s[a]) != Key(s[b])
  }

  lemma {:induction false} CountAtMostOne(s: seq<Record>, x: Record)
    requires DistinctRecordKeys(s)
    ensures multiset(s)[x] <= 1
    decreases |s|
  {
    if s != [] {
      assert s == [s[0]] + s[1..];
      CountAtMostOne(s[1..], x);
      if x == s[0] {
        assert x !in s[1..];
      }
    }
  }

  lemma CountAtLeastTwo(s: seq<Record>, i: nat, j: nat)
    requires i < j < |s| && s[i] == s[j]
    ensures multiset(s)[s[i]] >= 2
  {
    assert s == s[..j] + [s[j]] + s[j + 1..];
    assert s[i] in s[..j];
  }

  /** A permutation of records with distinct ids has distinct ids. */
  lemma DistinctKeysPermuted(a: seq<Record>, b: seq<Record>)
    requires multiset(a) == multiset(b) && DistinctRecordKeys(a)
    ensures DistinctRecordKeys(b)
  {
    forall p, q | 0 <= p < q < |b| ensures Key(b[p]) != Key(b[q]) {
      if Key(b[p]) == Key(b[q]) {
        assert b[p] in multiset(a) && b[q] in multiset(a);
        var u :| 0 <= u < |a| && a[u] == b[p];
        var v :| 0 <= v < |a| && a[v] == b[q];
        assert u == v;
        CountAtLeastTwo(b, p, q);
        CountAtMostOne(a, b[p]);
        assert false;
      }
    }
  }

  /** The first `forEach` of `merge`: the dictionary and the order its ids were first added in. */
  method IndexLocalRecords(local: seq<Record>) returns (dict: Dict, order: seq<Option<Json>>)
    ensures dict == IndexLocal(local)
    ensures forall k :: k in dict <==> k in order
    ensures DistinctKeys(order)
  {
    dict, order := map[], [];
    var i := 0;
    while i < |local|
      invariant 0 <= i <= |local|
      invariant dict == IndexLocal(local[..i])
      invariant forall k :: k in dict <==> k in order
      invariant DistinctKeys(order)
    {
      assert local[..i + 1][..i] == local[..i];
      var l := local[i];
      if Key(l) !in dict {
        order := order + [Key(l)];
      }
      dict := dict[Key(l) := l];
      i := i + 1;
    }
    assert local[..i] == local;
  }

  /** The second `forEach` of `merge`: each server record merged over the one under its id. */
  method OverlayServerRecords(server: seq<Record>, dict0: Dict, order0: seq<Option<Json>>)
    returns (dict: Dict, order: seq<Option<Json>>)
    requires forall k :: k in dict0 <==> k in order0
    requires DistinctKeys(order0)
    ensures dict == OverlayServer(dict0, server)
    ensures forall k :: k in dict <==> k in order
    ensures DistinctKeys(order)
  {
    dict, order := dict0, order0;
    var j := 0;
    while j < |server|
      invariant 0 <= j <= |server|
      invariant dict == OverlayServer(dict0, server[..j])
      invariant forall k :: k in dict <==> k in order
      invariant DistinctKeys(order)
    {
      assert server[..j + 1][..j] == server[..j];
      var s := server[j];
      if Key(s) !in dict {
        order := order + [Key(s)];
      }
      dict := dict[Key(s) := MergeOne(dict, s)];
      j := j + 1;
    }
    assert server[..j] == server;
  }

  /** `Object.values(map)`: the records in the order their ids were first added. */
  method ValuesInOrder(dict: Dict, order: seq<Option<Json>>) returns (values: seq<Record>)
    requires forall k :: k in order ==> k in dict
    ensures |values| == |order|
    ensures forall m :: 0 <= m < |order| ==> values[m] == dict[order[m]]
  {
    values := [];
    var n := 0;
    while n < |order|
      invariant 0 <= n <= |order|
      invariant |values| == n
      invariant forall m :: 0 <= m < n ==> values[m] == dict[order[m]]
    {
      values := values + [dict[order[n]]];
      n := n + 1;
    }
  }

  /** What sorting the dictionary's values keeps: one record per id, each the dictionary's. */
  lemma SortedValuesFacts(dict: Dict, order: seq<Option<Json>>, values: seq<Record>, merged: seq<Record>)
    requires KeyConsistent(dict)
    requires forall k :: k in dict <==> k in order
    requires DistinctKeys(order)
    requires |values| == |order| && forall m :: 0 <= m < |order| ==> values[m] == dict[order[m]]
    requires multiset(merged) == multiset(values)
    ensures forall k :: k in dict <==> exists p :: 0 <= p < |merged| && Key(merged[p]) == k
    ensures DistinctRecordKeys(merged)
    ensures forall p :: 0 <= p < |merged| ==> Key(merged[p]) in dict && merged[p] == dict[Key(merged[p])]
  {
    assert forall m :: 0 <= m < |values| ==> Key(values[m]) == order[m];
    DistinctKeysPermuted(values, merged);
    forall p | 0 <= p < |merged| ensures Key(merged[p]) in dict && merged[p] == dict[Key(merged[p])] {
      assert merged[p] in multiset(values);
      var m :| 0 <= m < |values| && values[m] == merged[p];
    }
    forall k | k in dict ensures exists p :: 0 <= p < |merged| && Key(merged[p]) == k {
      var m :| 0 <= m < |order| && order[m] == k;
      assert values[m] in multiset(merged);
      var p :| 0 <= p < |merged| && merged[p] == values[m];
    }
  }

  /**
   * `merge(server, local)`: every id of either list appears exactly once, with the record
   * the two `forEach` loops leave under it, and the list is sorted newest first.
   */
  method Merge(server: seq<Record>, local: seq<Record>) returns (merged: seq<Record>)
    ensures forall k :: k in KeysOf(server) + KeysOf(local) <==> exists i :: 0 <= i < |merged| && Key(merged[i]) == k
    ensures DistinctRecordKeys(merged)
    ensures forall i :: 0 <= i < |merged| ==>
              Key(merged[i]) in MergedIndex(server, local) && merged[i] == MergedIndex(server, local)[Key(merged[i])]
    ensures NewestFirst(merged)
  {
    var dict, order := IndexLocalRecords(local);
    dict, order := OverlayServerRecords(server, dict, order);
    var values := ValuesInOrder(dict, order);
    merged := SortNewestFirst(values);
    MergedIndexShape(server, local);
    SortedValuesFacts(dict, order, values, merged);
  }

  /** The SOS log screen is for users only. */
  function Render(role: Role): (v: View)
    ensures v.Content? <==> role == RoleUser
    ensures v.Warning? ==> v.text == "Not authorized."
  {
    if role == RoleUser then Content else Warning("Not authorized.")
  }

  /** `Array.isArray(r) ? r : []`, each element read as a record. */
  function ServerRecords(fetched: Result<Json, ApiClient.ApiError>): (records: seq<Record>)
    ensures fetched.Failure? || !fetched.value.JArr? ==> records == []
    ensures fetched.Success? && fetched.value.JArr? ==>
              |records| == |fetched.value.items| &&
              forall i :: 0 <= i < |records| ==> records[i] == AsRecord(fetched.value.items[i])
  {
    if fetched.Success? && fetched.value.JArr? then
      seq(|fetched.value.items|, i requires 0 <= i < |fetched.value.items| => AsRecord(fetched.value.items[i]))
    else []
  }

  /**
   * `s.id` on a `null` element of the server array throws inside `merge`, which `load`
   * calls outside any `try`: the load stops before the list is set.
   */
  predicate MergeThrows(fetched: Result<Json, ApiClient.ApiError>) {
    fetched.Success? && fetched.value.JArr? && JNull in fetched.value.items
  }

  class SosLogScreen {
    var items: seq<Record>
    var refreshing: bool
    var resolving: Option<Json>
    const store: SosStore

    constructor (store: SosStore)
      ensures items == [] && !refreshing && resolving == None && this.store == store
    {
      items, refreshing, resolving := [], false, None;
      this.store := store;
    }

    /**
     * `load(silent)`: a no-op without a token or for a non-user. The local log (empty when
     * it cannot be read) is merged with the server list (empty when the fetch failed). A
     * `null` in the server array makes the merge throw: the list stays and a refresh the
     * load started stays on.
     */
    method Load(token: string, role: Role, silent: bool, localUnreadable: bool, fetched: Result<Json, ApiClient.ApiError>)
      modifies this
      ensures token == "" || role != RoleUser ==> unchanged(this)
      ensures token != "" && role == RoleUser && MergeThrows(fetched) ==>
        items == old(items) && refreshing == (!silent || old(refreshing))
      ensures token != "" && role == RoleUser && !MergeThrows(fetched) ==>
        var local := if localUnreadable then [] else store.entries;
        && KeysOf(ServerRecords(fetched)) + KeysOf(local) == (set i | 0 <= i < |items| :: Key(items[i]))
        && DistinctRecordKeys(items)
        && (forall i :: 0 <= i < |items| ==> Key(items[i]) in MergedIndex(ServerRecords(fetched), local) && items[i] == MergedIndex(ServerRecords(fetched), local)[Key(items[i])])
        && NewestFirst(items)
        && (!silent ==> !refreshing)
        && (silent ==> refreshing == old(refreshing))
      ensures resolving == old(resolving)
    {
      if token == "" || role != RoleUser {
        return;
      }
      if !silent {
        refreshing := true;
      }
      if !MergeThrows(fetched) {
        var local := if localUnreadable then [] else store.entries;
        var server := ServerRecords(fetched);
        items := Merge(server, local);
        if !silent {
          refreshing := false;
        }
      }
    }

    /**
     * `resolve(id)`: on success `active` becomes false on exactly the records with that id,
     * in the list and (unless writing it fails) in the stored log; on failure nothing changes.
     */
    method Resolve(id: Json, resolved: Result<Json, ApiClient.ApiError>, storageFails: bool)
      modifies this, store
      ensures resolving == None
      ensures resolved.Success? ==> items == MarkResolved(old(items), id)
      ensures resolved.Success? && !storageFails ==> store.entries == MarkResolved(old(store.entries), id)
      ensures resolved.Failure? || storageFails ==> store.entries == old(store.entries)
      ensures resolved.Failure? ==> items == old(items)
      ensures refreshing == old(refreshing)
    {
      resolving := Some(id);
      if resolved.Success? {
        items := MarkResolved(items, id);
        if !storageFails {
          store.entries := MarkResolved(store.entries, id);
        }
      }
      resolving := None;
    }
  }
}
