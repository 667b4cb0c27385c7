/**
 A database table that a sync upserts into and disables rows of. Rows carry a serial id, a key that is
 unique in the table, the columns the sync writes, and an enabled flag.
 */
module UpsertTable {
  datatype Row<K, F> = Row(key: K, fields: F, enabled: bool)

  /** `nextId` is the next value of the id sequence. */
  datatype Table<K, F> = Table(rows: map<int, Row<K, F>>, nextId: int)

  datatype Wanted<K, F> = Wanted(key: K, fields: F)

  ghost predicate UniqueKeys<K, F>(rows: map<int, Row<K, F>>) {
    forall i, j :: i in rows && j in rows && rows[i].key == rows[j].key ==> i == j
  }

  ghost predicate Valid<K, F>(t: Table<K, F>) {
    UniqueKeys(t.rows) && forall id :: id in t.rows ==> id < t.nextId
  }

  /** The existing id of each key. */
  function IndexOf<K, F>(rows: map<int, Row<K, F>>): (index: map<K, int>)
    requires UniqueKeys(rows)
    ensures forall id :: id in rows ==> rows[id].key in index && index[rows[id].key] == id
    ensures forall k :: k in index ==> index[k] in rows && rows[index[k]].key == k
  {
    map id | id in rows :: rows[id].key := id
  }

  function WantedKeys<K(==), F>(wanted: seq<Wanted<K, F>>): set<K> {
    set i | 0 <= i < |wanted| :: wanted[i].key
  }

  ghost predicate DistinctWanted<K, F>(wanted: seq<Wanted<K, F>>) {
    forall i, j :: 0 <= i < j < |wanted| ==> wanted[i].key != wanted[j].key
  }

  // ---------- The writes ----------

  /** Updates the row of an existing key, or inserts a new row. */
  function UpsertOne<K, F>(t: Table<K, F>, existing: map<K, int>, w: Wanted<K, F>): Table<K, F> {
    if w.key in existing then
      var id := existing[w.key];
      if id in t.rows then t.(rows := t.rows[id := t.rows[id].(fields := w.fields, enabled := true)]) else t
    else Table(t.rows[t.nextId := Row(w.key, w.fields, true)], t.nextId + 1)
  }

  function UpsertAll<K, F>(t: Table<K, F>, existing: map<K, int>, wanted: seq<Wanted<K, F>>): Table<K, F> {
    if wanted == [] then t
    else UpsertOne(UpsertAll(t, existing, wanted[..|wanted| - 1]), existing, wanted[|wanted| - 1])
  }

  function Disable<K, F>(t: Table<K, F>, ids: set<int>): Table<K, F> {
    t.(rows := map id | id in t.rows :: if id in ids then t.rows[id].(enabled := false) else t.rows[id])
  }

  /** The enabled rows whose key is not wanted. */
  function Stale<K(==), F>(t: Table<K, F>, keys: set<K>): set<int> {
    set id | id in t.rows && t.rows[id].enabled && t.rows[id].key !in keys
  }

  /** The whole sync of one table. */
  function Reconcile<K(==), F>(t: Table<K, F>, wanted: seq<Wanted<K, F>>): Table<K, F>
    requires Valid(t)
  {
    Disable(UpsertAll(t, IndexOf(t.rows), wanted), Stale(t, WantedKeys(wanted)))
  }

  // ---------- What upserting does ----------

  /** No row is lost or renamed, and a row whose key is not wanted is left alone. */
  ghost predicate Extends<K, F>(t: Table<K, F>, u: Table<K, F>, keys: set<K>) {
    && t.nextId <= u.nextId
    && forall id :: id in t.rows ==>
         && id in u.rows && u.rows[id].key == t.rows[id].key
         && (t.rows[id].key !in keys ==> u.rows[id] == t.rows[id])
  }

  /** Every other row is new and wanted. */
  ghost predicate OnlyAdds<K, F>(t: Table<K, F>, u: Table<K, F>, keys: set<K>) {
    forall id :: id in u.rows && id !in t.rows ==> t.nextId <= id && u.rows[id].key in keys
  }

  /** Some row is exactly what is wanted. */
  ghost predicate Has<K, F>(rows: map<int, Row<K, F>>, w: Wanted<K, F>) {
    exists id :: id in rows && rows[id] == Row(w.key, w.fields, true)
  }

  ghost predicate Upserted<K, F>(t: Table<K, F>, u: Table<K, F>, wanted: seq<Wanted<K, F>>) {
    && Valid(u)
    && Extends(t, u, WantedKeys(wanted))
    && OnlyAdds(t, u, WantedKeys(wanted))
    && forall i :: 0 <= i < |wanted| ==> Has(u.rows, wanted[i])
  }

  lemma WantedKeysAppend<K, F>(wanted: seq<Wanted<K, F>>, w: Wanted<K, F>)
    ensures WantedKeys(wanted + [w]) == WantedKeys(wanted) + {w.key}
  {
    var all := wanted + [w];
    assert all[|wanted|] == w;
    forall k | k in WantedKeys(wanted)
      ensures k in WantedKeys(all)
    {
      var i :| 0 <= i < |wanted| && wanted[i].key == k;
      assert all[i].key == k;
    }
  }

  /** One more upsert, with a key not wanted so far. */
  lemma {:induction false} UpsertOneKeeps<K, F>(t: Table<K, F>, u: Table<K, F>, wanted: seq<Wanted<K, F>>,
                                                w: Wanted<K, F>)
    requires Valid(t) && Upserted(t, u, wanted) && w.key !in WantedKeys(wanted)
    ensures Upserted(t, UpsertOne(u, IndexOf(t.rows), w), wanted + [w])
  {
    WantedKeysAppend(wanted, w);
    var v := UpsertOne(u, IndexOf(t.rows), w);
    UpsertOneIsValid(t, u, wanted, w);
    UpsertOneHas(t, u, wanted, w);
    forall i | 0 <= i < |wanted|
      ensures Has(v.rows, wanted[i])
    {
      UpsertOneKeepsRow(t, u, wanted, w, wanted[i]);
    }
    var all := wanted + [w];
    assert forall i :: 0 <= i < |all| ==> all[i] == if i < |wanted| then wanted[i] else w;
  }

  lemma UpsertOneIsValid<K, F>(t: Table<K, F>, u: Table<K, F>, wanted: seq<Wanted<K, F>>, w: Wanted<K, F>)
    requires Valid(t) && Upserted(t, u, wanted) && w.key !in WantedKeys(wanted)
    ensures Valid(UpsertOne(u, IndexOf(t.rows), w))
    ensures Extends(t, UpsertOne(u, IndexOf(t.rows), w), WantedKeys(wanted) + {w.key})
    ensures OnlyAdds(t, UpsertOne(u, IndexOf(t.rows), w), WantedKeys(wanted) + {w.key})
  {
    var index := IndexOf(t.rows);
    if w.key in index {
      UpdateIsValid(t, u, WantedKeys(wanted), index[w.key], w);
    } else {
      assert forall id :: id in u.rows ==> u.rows[id].key != w.key;
    }
  }

  lemma UpdateIsValid<K, F>(t: Table<K, F>, u: Table<K, F>, keys: set<K>, id: int, w: Wanted<K, F>)
    requires Valid(u) && Extends(t, u, keys) && OnlyAdds(t, u, keys)
    requires id in t.rows && t.rows[id].key == w.key
    ensures var v := u.(rows := u.rows[id := u.rows[id].(fields := w.fields, enabled := true)]);
            Valid(v) && Extends(t, v, keys + {w.key}) && OnlyAdds(t, v, keys + {w.key})
  {
  }

  lemma UpsertOneHas<K, F>(t: Table<K, F>, u: Table<K, F>, wanted: seq<Wanted<K, F>>, w: Wanted<K, F>)
    requires Valid(t) && Upserted(t, u, wanted)
    ensures Has(UpsertOne(u, IndexOf(t.rows), w).rows, w)
  {
    var index := IndexOf(t.rows);
    var v := UpsertOne(u, index, w);
    var id := if w.key in index then index[w.key] else u.nextId;
    assert v.rows[id] == Row(w.key, w.fields, true);
  }

  lemma UpsertOneKeepsRow<K, F>(t: Table<K, F>, u: Table<K, F>, wanted: seq<Wanted<K, F>>,
                                  w: Wanted<K, F>, x: Wanted<K, F>)
    requires Valid(t) && Upserted(t, u, wanted) && Has(u.rows, x) && x.key != w.key
    ensures Has(UpsertOne(u, IndexOf(t.rows), w).rows, x)
  {
    var id :| id in u.rows && u.rows[id] == Row(x.key, x.fields, true);
    var v := UpsertOne(u, IndexOf(t.rows), w);
    assert id in v.rows && v.rows[id] == u.rows[id];
  }

  lemma {:induction false} UpsertAllUpserts<K, F>(t: Table<K, F>, wanted: seq<Wanted<K, F>>)
    requires Valid(t) && DistinctWanted(wanted)
    ensures Upserted(t, UpsertAll(t, IndexOf(t.rows), wanted), wanted)
  {
    if wanted != [] {
      var init, w := wanted[..|wanted| - 1], wanted[|wanted| - 1];
      UpsertAllUpserts(t, init);
      assert wanted == init + [w];
      UpsertOneKeeps(t, UpsertAll(t, IndexOf(t.rows), init), init, w);
    }
  }

  // ---------- What the sync achieves ----------

  /** Every wanted row is there, and a row is enabled exactly when it is wanted. */
  ghost predicate Reconciled<K, F>(rows: map<int, Row<K, F>>, wanted: seq<Wanted<K, F>>) {
    && (forall id :: id in rows ==> (rows[id].enabled <==> rows[id].key in WantedKeys(wanted)))
    && (forall i :: 0 <= i < |wanted| ==> Has(rows, wanted[i]))
  }

  /** No row is deleted, and every existing id keeps its key. */
  ghost predicate KeepsRows<K, F>(t: Table<K, F>, u: Table<K, F>) {
    forall id :: id in t.rows ==> id in u.rows && u.rows[id].key == t.rows[id].key
  }

  lemma HasKey<K, F>(rows: map<int, Row<K, F>>, wanted: seq<Wanted<K, F>>, k: K) returns (w: Wanted<K, F>)
    requires k in WantedKeys(wanted)
    requires forall i :: 0 <= i < |wanted| ==> Has(rows, wanted[i])
    ensures w.key == k && w in wanted && Has(rows, w)
  {
    w :| w in wanted && w.key == k;
    var i :| 0 <= i < |wanted| && wanted[i] == w;
  }

  lemma UpsertedIsEnabled<K, F>(t: Table<K, F>, u: Table<K, F>, wanted: seq<Wanted<K, F>>, id: int)
    requires Upserted(t, u, wanted) && id in u.rows && u.rows[id].key in WantedKeys(wanted)
    ensures u.rows[id].enabled
  {
    var w := HasKey(u.rows, wanted, u.rows[id].key);
    var j :| j in u.rows && u.rows[j] == Row(w.key, w.fields, true);
  }

  lemma DisableKeepsWanted<K, F>(u: Table<K, F>, ids: set<int>, w: Wanted<K, F>)
    requires Has(u.rows, w) && forall id :: id in ids && id in u.rows ==> u.rows[id].key != w.key
    ensures Has(Disable(u, ids).rows, w)
  {
    var id :| id in u.rows && u.rows[id] == Row(w.key, w.fields, true);
    assert Disable(u, ids).rows[id] == u.rows[id];
  }

  lemma ReconcileReconciles<K, F>(t: Table<K, F>, wanted: seq<Wanted<K, F>>)
    requires Valid(t) && DistinctWanted(wanted)
    ensures var v := Reconcile(t, wanted);
            && Valid(v) && Reconciled(v.rows, wanted) && KeepsRows(t, v)
            && v.rows.Keys == UpsertAll(t, IndexOf(t.rows), wanted).rows.Keys
  {
    UpsertAllUpserts(t, wanted);
    var u := UpsertAll(t, IndexOf(t.rows), wanted);
    var stale := Stale(t, WantedKeys(wanted));
    var v := Disable(u, stale);
    forall id | id in v.rows
      ensures v.rows[id].enabled <==> v.rows[id].key in WantedKeys(wanted)
    {
      if u.rows[id].key in WantedKeys(wanted) {
        UpsertedIsEnabled(t, u, wanted, id);
      }
    }
    forall i | 0 <= i < |wanted|
      ensures Has(v.rows, wanted[i])
    {
      assert wanted[i] in wanted;
      DisableKeepsWanted(u, stale, wanted[i]);
    }
  }

  // ---------- The second sync ----------

  lemma UpsertExistingIsNoop<K, F>(t: Table<K, F>, w: Wanted<K, F>)
    requires Valid(t) && Has(t.rows, w)
    ensures UpsertOne(t, IndexOf(t.rows), w) == t
  {
    var id :| id in t.rows && t.rows[id] == Row(w.key, w.fields, true);
    assert IndexOf(t.rows)[w.key] == id;
    assert t.rows[id := t.rows[id]] == t.rows;
  }

  lemma {:induction false} UpsertReconciledIsNoop<K, F>(t: Table<K, F>, wanted: seq<Wanted<K, F>>)
    requires Valid(t) && forall i :: 0 <= i < |wanted| ==> Has(t.rows, wanted[i])
    ensures UpsertAll(t, IndexOf(t.rows), wanted) == t
  {
    if wanted != [] {
      UpsertReconciledIsNoop(t, wanted[..|wanted| - 1]);
      UpsertExistingIsNoop(t, wanted[|wanted| - 1]);
    }
  }

  /** A reconciled table has nothing stale, and syncing it again changes nothing. */
  lemma ReconcileReconciledIsNoop<K, F>(t: Table<K, F>, wanted: seq<Wanted<K, F>>)
    requires Valid(t) && Reconciled(t.rows, wanted)
    ensures Stale(t, WantedKeys(wanted)) == {}
    ensures Reconcile(t, wanted) == t
  {
    UpsertReconciledIsNoop(t, wanted);
    assert Disable(t, {}).rows == t.rows;
  }
}
