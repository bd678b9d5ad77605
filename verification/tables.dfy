/** One database table: rows keyed by their integer primary key, plus the
    next identifier the storage layer will hand out. The storage layer's
    guarantee that a new row gets an identifier no existing row has is the
    invariant `Valid`: every key lies below `next`. */
module Tables {
  import opened Wrappers

  datatype Table<T> = Table(rows: map<int, T>, next: int)

  /** A fresh table; primary keys start at 1. */
  function Empty<T>(): (t: Table<T>)
    ensures Valid(t) && t.rows == map[]
  {
    Table(map[], 1)
  }

  predicate Valid<T>(t: Table<T>) {
    forall k :: k in t.rows ==> k < t.next
  }

  /** Row `k` is the same in `t` and `u`: absent from both, or present in
      both with the same value. */
  ghost predicate Agree<T>(t: Table<T>, u: Table<T>, k: int) {
    (k in t.rows <==> k in u.rows) && (k in t.rows ==> t.rows[k] == u.rows[k])
  }

  /** Every row other than `id` is the same in `t` and `u`. */
  ghost predicate SameExcept<T>(t: Table<T>, u: Table<T>, id: int) {
    forall k :: k != id ==> Agree(t, u, k)
  }

  /** `session.get(Model, id)`. */
  function Get<T>(t: Table<T>, id: int): Option<T>
  {
    if id in t.rows then Some(t.rows[id]) else None
  }

  /** `session.add(row); session.commit()` on a new row: the row gets a
      fresh identifier and nothing else changes. */
  function Insert<T>(t: Table<T>, v: T): (r: (int, Table<T>))
    requires Valid(t)
    ensures r.0 !in t.rows && r.0 in r.1.rows && r.1.rows[r.0] == v
    ensures r.1.rows.Keys == t.rows.Keys + {r.0}
    ensures SameExcept(t, r.1, r.0)
    ensures forall k :: k in t.rows ==> k < r.0
    ensures Valid(r.1)
  {
    (t.next, Table(t.rows[t.next := v], t.next + 1))
  }

  /** Inserts `vs` one after the other, as a loop of `session.add` does,
      and returns the identifiers they received, in the same order. */
  function InsertAll<T>(t: Table<T>, vs: seq<T>): (r: (seq<int>, Table<T>))
    requires Valid(t)
    ensures |r.0| == |vs|
    ensures forall i :: 0 <= i < |vs| ==> r.0[i] !in t.rows && r.0[i] in r.1.rows && r.1.rows[r.0[i]] == vs[i]
    ensures forall i, j :: 0 <= i < j < |vs| ==> r.0[i] < r.0[j]
    ensures forall k :: k !in r.0 ==> Agree(t, r.1, k)
    ensures Valid(r.1)
    decreases |vs|
  {
    if |vs| == 0 then ([], t)
    else
      var (ids, u) := InsertAll(t, vs[..|vs| - 1]);
      var (id, w) := Insert(u, vs[|vs| - 1]);
      var ids' := ids + [id];
      assert forall i :: 0 <= i < |ids| ==> ids'[i] == ids[i] && ids[i] in u.rows && ids[i] < id;
      assert forall k :: k !in ids' ==> k !in ids && k != id;
      assert forall i :: 0 <= i < |ids| ==> Agree(u, w, ids[i]) && w.rows[ids[i]] == vs[i];
      assert forall k :: k in t.rows ==> k !in ids && Agree(t, u, k);
      (ids', w)
  }

  /** `session.get` then `session.delete`: reports whether the row existed;
      afterwards it does not, and every other row is as before. */
  function Delete<T>(t: Table<T>, id: int): (r: (bool, Table<T>))
    ensures r.0 <==> id in t.rows
    ensures id !in r.1.rows
    ensures SameExcept(t, r.1, id)
    ensures Valid(t) ==> Valid(r.1)
  {
    if id in t.rows then (true, t.(rows := t.rows - {id})) else (false, t)
  }

  /** `session.get` then a change of fields on the loaded row: an absent row
      leaves the table alone and yields None; a present one is replaced by
      `f` of itself, and the new row is returned. */
  function Update<T>(t: Table<T>, id: int, f: T -> T): (r: (Option<T>, Table<T>))
    ensures r.0.None? <==> id !in t.rows
    ensures r.0.None? ==> r.1 == t
    ensures r.0.Some? ==> id in r.1.rows && r.1.rows[id] == r.0.value == f(t.rows[id])
    ensures r.1.rows.Keys == t.rows.Keys
    ensures SameExcept(t, r.1, id)
    ensures Valid(t) ==> Valid(r.1)
  {
    if id in t.rows then
      var v := f(t.rows[id]);
      (Some(v), t.(rows := t.rows[id := v]))
    else (None, t)
  }

  /** Reading back a row after each kind of write: the inserted value, no
      row after a delete, the changed row after an update. */
  lemma GetAfterWrites<T>(t: Table<T>, v: T, id: int, f: T -> T)
    requires Valid(t)
    ensures Get(Insert(t, v).1, Insert(t, v).0) == Some(v)
    ensures Get(Delete(t, id).1, id) == None
    ensures Get(Update(t, id, f).1, id) == if id in t.rows then Some(f(t.rows[id])) else None
  {
  }

  /** Applying an idempotent change twice is the same as applying it once. */
  lemma UpdateIdempotent<T>(t: Table<T>, id: int, f: T -> T)
    requires forall v :: f(f(v)) == f(v)
    ensures Update(Update(t, id, f).1, id, f) == Update(t, id, f)
  {
    if id in t.rows {
      var v := f(t.rows[id]);
      assert f(v) == v;
      assert t.rows[id := v][id := f(v)] == t.rows[id := v];
    }
  }

  /** Deleting a row that was just inserted gives back the original rows. */
  lemma InsertThenDelete<T>(t: Table<T>, v: T)
    requires Valid(t)
    ensures Delete(Insert(t, v).1, Insert(t, v).0).1.rows == t.rows
  {
  }
}
