/** The local store wrapper over IndexedDB: the fixed set of object stores, the upgrade step that
    provisions them, and the wrappers that read, write, delete, clear and count records. Each
    object store is an abstract map from a record's `id` to the record. Opening the database, the
    transactions and the request callbacks are the browser's; what the wrapper adds on top of them
    is modelled: which stores the upgrade creates, how `saveToDB` turns its argument into a list,
    and how its counter of finished requests and its error list decide the promise. */
module LocalStore {

  const DB_VERSION: nat := 1

  /** The values of `STORES`, in their declaration order. */
  const STORES: seq<string> := [
    "businesses", "posts", "events", "trendingTopics",
    "pendingPosts", "pendingReviews", "pendingPurchases"
  ]

  /** The store names the upgrade provisions. */
  function StoreNames(): set<string> {
    set i | 0 <= i < |STORES| :: STORES[i]
  }

  /** The seven names are distinct, so the upgrade provisions seven stores. */
  lemma StoresDistinct()
    ensures forall i, j :: 0 <= i < j < |STORES| ==> STORES[i] != STORES[j]
    ensures |StoreNames()| == 7
  {
    var names := ["businesses", "posts", "events", "trendingTopics",
              "pendingPosts", "pendingReviews", "pendingPurchases"];
    assert STORES == names;
    forall i, j | 0 <= i < j < |STORES| ensures STORES[i] != STORES[j] {
      assert STORES[i][..2] != STORES[j][..2] || |STORES[i]| != |STORES[j]| || STORES[i][7] != STORES[j][7];
    }
    DistinctCard(STORES);
  }

  /** A sequence without repeats has as many distinct elements as it has elements. */
  lemma {:induction false} DistinctCard(s: seq<string>)
    requires forall i, j :: 0 <= i < j < |s| ==> s[i] != s[j]
    ensures |set i | 0 <= i < |s| :: s[i]| == |s|
    decreases |s|
  {
    if s != [] {
      var n := |s| - 1;
      DistinctCard(s[..n]);
      var front := set i | 0 <= i < n :: s[..n][i];
      assert (set i | 0 <= i < |s| :: s[i]) == front + {s[n]};
      assert s[n] !in front;
    }
  }

  // ---------------------------------------------------------------------------------------------
  // Records and object stores

  type Key = string
  type Error = string

  /** A stored record: its `id`, the store's key path, and its other fields. */
  datatype Item = Item(id: Key, fields: map<string, string>)

  /** An object store: the records it holds, by key. */
  type Store = map<Key, Item>

  /** Every record sits under its own `id`, as the key path `id` demands. */
  predicate KeyedById(st: Store) {
    forall k :: k in st ==> st[k].id == k
  }

  /** `store.put(item)`: an upsert under the record's `id`. */
  function Put(st: Store, item: Item): (r: Store)
    ensures item.id in r && r[item.id] == item
    ensures r.Keys == st.Keys + {item.id}
    ensures forall k :: k in st && k != item.id ==> r[k] == st[k]
    ensures KeyedById(st) ==> KeyedById(r)
  {
    st[item.id := item]
  }

  /** `store.delete(id)`: no record under `id` afterwards, all other records untouched. Deleting a
      key that is absent changes nothing. */
  function Delete(st: Store, id: Key): (r: Store)
    ensures id !in r
    ensures r.Keys == st.Keys - {id}
    ensures forall k :: k in r ==> r[k] == st[k]
    ensures id !in st ==> r == st
  {
    map k | k in st && k != id :: st[k]
  }

  /** `store.count()`: the number of records. */
  function Count(st: Store): (n: nat)
    ensures n == 0 <==> st == map[]
  {
    |st.Keys|
  }

  /** Putting a record adds one to the count exactly when its key was new. */
  lemma PutCount(st: Store, item: Item)
    ensures Count(Put(st, item)) == if item.id in st then Count(st) else Count(st) + 1
  {
    if item.id in st {
      assert Put(st, item).Keys == st.Keys;
    } else {
      assert Put(st, item).Keys == st.Keys + {item.id};
    }
  }

  /** Deleting a record takes one off the count exactly when its key was present. */
  lemma DeleteCount(st: Store, id: Key)
    ensures Count(Delete(st, id)) == if id in st then Count(st) - 1 else Count(st)
  {
    if id in st {
      assert Delete(st, id).Keys + {id} == st.Keys;
    }
  }

  /** Putting the same record twice is putting it once. */
  lemma PutIdempotent(st: Store, item: Item)
    ensures Put(Put(st, item), item) == Put(st, item)
  {
  }

  /** After a put, deleting the same key gives the store without that key. */
  lemma DeleteUndoesPut(st: Store, item: Item)
    ensures Delete(Put(st, item), item.id) == Delete(st, item.id)
  {
  }

  // ---------------------------------------------------------------------------------------------
  // What `saveToDB` does with its argument

  /** The `data` handed to `saveToDB`: one record, or an array of them. */
  datatype Data = Single(item: Item) | Batch(items: seq<Item>)

  /** `Array.isArray(data) ? data : [data]`. */
  function Items(d: Data): (r: seq<Item>)
    ensures d.Single? ==> r == [d.item]
    ensures d.Batch? ==> r == d.items
    ensures r == [] <==> d == Batch([])
  {
    match d
    case Single(item) => [item]
    case Batch(items) => items
  }

  /** How one `put` request of a batch ends: its `onsuccess` fires, or its `onerror` with the
      request's error. */
  datatype Fate = Succeeds | Fails(error: Error)

  /** The records a batch writes to the store: each request that succeeds is an upsert, in the
      order the requests were issued. */
  function PutAll(st: Store, items: seq<Item>, fates: seq<Fate>): (r: Store)
    requires |items| == |fates|
    ensures st.Keys <= r.Keys
    decreases |items|
  {
    if items == [] then st
    else
      var n := |items| - 1;
      var before := PutAll(st, items[..n], fates[..n]);
      if fates[n].Succeeds? then Put(before, items[n]) else before
  }

  /** The batch up to request `i` is the batch before it followed by request `i`. */
  lemma PutAllStep(st: Store, items: seq<Item>, fates: seq<Fate>, i: int)
    requires |items| == |fates| && 0 <= i < |items|
    ensures PutAll(st, items[..i + 1], fates[..i + 1]) ==
            if fates[i].Succeeds? then Put(PutAll(st, items[..i], fates[..i]), items[i])
            else PutAll(st, items[..i], fates[..i])
  {
    assert items[..i + 1][..i] == items[..i] && fates[..i + 1][..i] == fates[..i];
  }

  /** After a batch, a key holds the last record written under it, or its old record when no
      successful request wrote it. */
  lemma {:induction false} PutAllLastWins(st: Store, items: seq<Item>, fates: seq<Fate>, k: Key)
    requires |items| == |fates|
    ensures var r := PutAll(st, items, fates);
            if exists i :: 0 <= i < |items| && Writes(items, fates, i, k)
            then k in r && r[k] == items[LastWrite(items, fates, k)]
            else (k in r <==> k in st) && (k in st ==> r[k] == st[k])
    decreases |items|
  {
    if items != [] {
      var n := |items| - 1;
      var items', fates' := items[..n], fates[..n];
      PutAllLastWins(st, items', fates', k);
      if Writes(items, fates, n, k) {
        LastWriteIsLast(items, fates, k, n);
      } else {
        forall i | 0 <= i < n ensures Writes(items, fates, i, k) == Writes(items', fates', i, k) {
        }
        if exists i :: 0 <= i < |items| && Writes(items, fates, i, k) {
          var i :| 0 <= i < |items| && Writes(items, fates, i, k);
          assert Writes(items', fates', i, k);
          LastWriteSkips(items, fates, k);
        }
      }
    }
  }

  /** Request `i` of the batch succeeded and wrote key `k`. */
  predicate Writes(items: seq<Item>, fates: seq<Fate>, i: int, k: Key)
    requires |items| == |fates|
  {
    0 <= i < |items| && fates[i].Succeeds? && items[i].id == k
  }

  /** The position of the last successful request that wrote key `k`, or -1 when there is none. */
  function LastWrite(items: seq<Item>, fates: seq<Fate>, k: Key): (i: int)
    requires |items| == |fates|
    ensures -1 <= i < |items|
    ensures i >= 0 ==> Writes(items, fates, i, k)
    ensures forall j :: i < j < |items| ==> !Writes(items, fates, j, k)
    decreases |items|
  {
    if items == [] then -1
    else
      var n := |items| - 1;
      if Writes(items, fates, n, k) then n
      else
        assert forall j :: 0 <= j < n ==> Writes(items[..n], fates[..n], j, k) == Writes(items, fates, j, k);
        LastWrite(items[..n], fates[..n], k)
  }

  lemma LastWriteIsLast(items: seq<Item>, fates: seq<Fate>, k: Key, n: int)
    requires |items| == |fates| && n == |items| - 1 && Writes(items, fates, n, k)
    ensures LastWrite(items, fates, k) == n
  {
  }

  lemma LastWriteSkips(items: seq<Item>, fates: seq<Fate>, k: Key)
    requires |items| == |fates| && items != [] && !Writes(items, fates, |items| - 1, k)
    ensures LastWrite(items, fates, k) == LastWrite(items[..|items| - 1], fates[..|items| - 1], k)
  {
  }

  /** A batch keeps every record under its own `id`. */
  lemma {:induction false} PutAllKeyedById(st: Store, items: seq<Item>, fates: seq<Fate>)
    requires |items| == |fates| && KeyedById(st)
    ensures KeyedById(PutAll(st, items, fates))
    decreases |items|
  {
    if items != [] {
      var n := |items| - 1;
      PutAllKeyedById(st, items[..n], fates[..n]);
    }
  }

  // ---------------------------------------------------------------------------------------------
  // The settlement of `saveToDB`

  /** Why a promise was rejected: the error list of a batch. */
  datatype Failure = PutErrors(errors: seq<Error>)

  /** A promise of the wrapper: still waiting, fulfilled with a value, or rejected. */
  datatype Promise<T> = Pending | Resolved(value: T) | Rejected(reason: Failure)

  /** The closure state of a `saveToDB` call: the `completed` counter, the `errors` list and the
      promise it settles. */
  datatype SaveState = SaveState(completed: nat, errors: seq<Error>, outcome: Promise<()>)

  /** One callback of a batch of `total` requests. Either callback bumps the counter; `onerror`
      first appends its error. The callback that brings the counter to `total` settles the
      promise: rejected with the error list when it is not empty, resolved otherwise. */
  function Callback(total: nat, s: SaveState, fate: Fate): (r: SaveState)
    ensures r.completed == s.completed + 1
    ensures r.errors == if fate.Fails? then s.errors + [fate.error] else s.errors
    ensures r.completed != total ==> r.outcome == s.outcome
  {
    match fate
    case Succeeds =>
      var completed := s.completed + 1;
      if completed == total then
        SaveState(completed, s.errors, if |s.errors| > 0 then Rejected(PutErrors(s.errors)) else Resolved(()))
      else SaveState(completed, s.errors, s.outcome)
    case Fails(e) =>
      var errors := s.errors + [e];
      var completed := s.completed + 1;
      if completed == total then SaveState(completed, errors, Rejected(PutErrors(errors)))
      else SaveState(completed, errors, s.outcome)
  }

  /** The closure state after the callbacks of the requests whose fates are `fates` have fired,
      in order, starting from no request finished, no error and a pending promise. */
  function Replay(total: nat, fates: seq<Fate>): (r: SaveState)
    ensures r.completed == |fates|
    decreases |fates|
  {
    if fates == [] then SaveState(0, [], Pending)
    else Callback(total, Replay(total, fates[..|fates| - 1]), fates[|fates| - 1])
  }

  /** The errors of the failed requests, in the order their callbacks fired. */
  function FailedErrors(fates: seq<Fate>): (r: seq<Error>)
    ensures |r| <= |fates|
    decreases |fates|
  {
    if fates == [] then []
    else
      var n := |fates| - 1;
      FailedErrors(fates[..n]) + (if fates[n].Fails? then [fates[n].error] else [])
  }

  /** The number of failed requests. */
  function Failures(fates: seq<Fate>): nat
    decreases |fates|
  {
    if fates == [] then 0
    else
      var n := |fates| - 1;
      Failures(fates[..n]) + (if fates[n].Fails? then 1 else 0)
  }

  /** The list handed to `reject` holds one error per failed request. */
  lemma {:induction false} FailedErrorsCount(fates: seq<Fate>)
    ensures |FailedErrors(fates)| == Failures(fates)
    ensures Failures(fates) == 0 <==> forall i :: 0 <= i < |fates| ==> fates[i].Succeeds?
    decreases |fates|
  {
    if fates != [] {
      var n := |fates| - 1;
      FailedErrorsCount(fates[..n]);
      assert forall i :: 0 <= i < n ==> fates[..n][i] == fates[i];
    }
  }

  /** What `saveToDB` promises, once the callbacks of the first `|fates|` of `total` requests have
      fired: the counter counts them and never passes `total`, the error list holds the failures
      in order, and the promise is settled exactly when every request has finished and there was
      at least one, rejected with the errors exactly when some request failed. */
  lemma {:induction false} ReplaySettles(total: nat, fates: seq<Fate>)
    requires |fates| <= total
    ensures var s := Replay(total, fates);
            && s.completed == |fates| <= total
            && s.errors == FailedErrors(fates)
            && |s.errors| == Failures(fates)
            && s.outcome == if |fates| == total && total > 0 then
                              (if Failures(fates) == 0 then Resolved(()) else Rejected(PutErrors(FailedErrors(fates))))
                            else Pending
    decreases |fates|
  {
    FailedErrorsCount(fates);
    if fates != [] {
      var n := |fates| - 1;
      ReplaySettles(total, fates[..n]);
      FailedErrorsCount(fates[..n]);
    }
  }

  /** A batch of records all of whose requests succeed resolves; one failure among three
      rejects, with that one error. */
  lemma ThreeRecords(e: Error)
    ensures Replay(3, [Succeeds, Succeeds, Succeeds]).outcome == Resolved(())
    ensures Replay(3, [Succeeds, Fails(e), Succeeds]).outcome == Rejected(PutErrors([e]))
  {
    var ok, bad := [Succeeds, Succeeds, Succeeds], [Succeeds, Fails(e), Succeeds];
    assert ok[..2][..1] == [Succeeds] && ok[..2] == [Succeeds, Succeeds];
    assert bad[..2][..1] == [Succeeds] && bad[..2] == [Succeeds, Fails(e)];
    assert Replay(3, [Succeeds]) == SaveState(1, [], Pending) by {
      assert [Succeeds][..0] == [];
    }
    assert Replay(3, bad[..2]) == SaveState(2, [e], Pending);
  }

  /** `saveToDB` with an empty array issues no request, so no callback ever settles it. */
  lemma EmptyBatchNeverSettles()
    ensures Items(Batch([])) == []
    ensures Replay(|Items(Batch([]))|, []).outcome == Pending
  {
  }

  /** The closure state of one `saveToDB` call, updated by its request callbacks. */
  class BatchSave {
    const total: nat
    var completed: nat
    var errors: seq<Error>
    var outcome: Promise<()>
    /** The fates of the requests whose callbacks have fired so far. */
    ghost var fired: seq<Fate>

    ghost predicate Valid()
      reads this
    {
      completed == |fired| <= total && SaveState(completed, errors, outcome) == Replay(total, fired)
    }

    /** `let completed = 0; let errors = [];` for a batch of `total` items. */
    constructor (total: nat)
      ensures Valid() && this.total == total && fired == []
      ensures completed == 0 && errors == [] && outcome == Pending
    {
      this.total := total;
      completed, errors, outcome := 0, [], Pending;
      fired := [];
    }

    /** `addRequest.onsuccess`. A request only finishes while the batch has unfinished ones. */
    method OnSuccess()
      requires Valid() && completed < total
      modifies this
      ensures Valid() && fired == old(fired) + [Succeeds]
      ensures completed == old(completed) + 1 && errors == old(errors)
      ensures outcome == if completed == total then
                           (if |errors| > 0 then Rejected(PutErrors(errors)) else Resolved(()))
                         else old(outcome)
    {
      completed := completed + 1;
      if completed == total {
        if |errors| > 0 {
          outcome := Rejected(PutErrors(errors));
        } else {
          outcome := Resolved(());
        }
      }
      fired := fired + [Succeeds];
      assert fired[..|fired| - 1] == old(fired);
      assert Replay(total, fired) == Callback(total, Replay(total, old(fired)), Succeeds);
    }

    /** `addRequest.onerror`, with the request's error. */
    method OnError(e: Error)
      requires Valid() && completed < total
      modifies this
      ensures Valid() && fired == old(fired) + [Fails(e)]
      ensures completed == old(completed) + 1 && errors == old(errors) + [e]
      ensures outcome == if completed == total then Rejected(PutErrors(errors)) else old(outcome)
    {
      errors := errors + [e];
      completed := completed + 1;
      if completed == total {
        outcome := Rejected(PutErrors(errors));
      }
      fired := fired + [Fails(e)];
      assert fired[..|fired| - 1] == old(fired);
      assert Replay(total, fired) == Callback(total, Replay(total, old(fired)), Fails(e));
    }
  }

  /** The body of `items.forEach` in `saveToDB`: one put per item, in order, each followed by
      the callback its fate fires. Gives the store the successful puts leave and the state of the
      promise after the last callback. */
  method PutBatch(st: Store, items: seq<Item>, fates: seq<Fate>) returns (r: Store, p: Promise<()>)
    requires |items| == |fates|
    ensures r == PutAll(st, items, fates)
    ensures p == Replay(|items|, fates).outcome
  {
    var batch := new BatchSave(|items|);
    r := st;
    for i := 0 to |items|
      invariant batch.Valid() && batch.total == |items| && batch.fired == fates[..i]
      invariant r == PutAll(st, items[..i], fates[..i])
    {
      PutAllStep(st, items, fates, i);
      assert fates[..i + 1] == fates[..i] + [fates[i]];
      if fates[i].Succeeds? {
        r := Put(r, items[i]);
        batch.OnSuccess();
      } else {
        batch.OnError(fates[i].error);
      }
    }
    assert items[..|items|] == items && fates[..|fates|] == fates;
    p := batch.outcome;
  }

  // ---------------------------------------------------------------------------------------------
  // The database

  /** The `whispernet_db` database of the origin: its version (0 while it does not exist) and its
      object stores by name. */
  class Database {
    var version: nat
    var stores: map<string, Store>

    ghost predicate Valid()
      reads this
    {
      && version <= DB_VERSION
      && (version == 0 ==> stores == map[])
      && forall n :: n in stores ==> KeyedById(stores[n])
    }

    /** The origin before the application first runs: no database. */
    constructor ()
      ensures Valid() && version == 0 && stores == map[]
    {
      version, stores := 0, map[];
    }

    /** `indexedDB.open(DB_NAME)` without a version: an absent database is created, at version 1
        and with no stores, since that request has no upgrade handler; an existing one is used as
        it is. */
    method Open()
      requires Valid()
      modifies this
      ensures Valid() && version == if old(version) == 0 then 1 else old(version)
      ensures stores == old(stores)
    {
      if version == 0 {
        version := 1;
      }
    }

    /** The `onupgradeneeded` handler: every name of `STORES` that is not yet a store becomes an
        empty one; existing stores, and their records, are left alone. The handler runs inside
        the version change, once the database already carries its new version. */
    method Upgrade()
      requires Valid() && version > 0
      modifies this
      ensures Valid() && version == old(version)
      ensures stores.Keys == old(stores).Keys + StoreNames()
      ensures forall n :: n in old(stores) ==> stores[n] == old(stores)[n]
      ensures forall n :: n in stores && n !in old(stores) ==> stores[n] == map[]
    {
      for i := 0 to |STORES|
        invariant Valid() && version == old(version)
        invariant stores.Keys == old(stores).Keys + set j | 0 <= j < i :: STORES[j]
        invariant forall n :: n in old(stores) ==> stores[n] == old(stores)[n]
        invariant forall n :: n in stores && n !in old(stores) ==> stores[n] == map[]
      {
        if STORES[i] !in stores {
          stores := stores[STORES[i] := map[]];
        }
      }
    }

    /** `initDB()`: open at `DB_VERSION`, running the upgrade when the database is older, and
        resolve. */
    method InitDB() returns (p: Promise<()>)
      requires Valid()
      modifies this
      ensures Valid() && version == DB_VERSION
      ensures old(version) < DB_VERSION ==> stores.Keys == old(stores).Keys + StoreNames()
      ensures old(version) == DB_VERSION ==> stores == old(stores)
      ensures forall n :: n in old(stores) ==> n in stores && stores[n] == old(stores)[n]
      ensures forall n :: n in stores && n !in old(stores) ==> stores[n] == map[]
      ensures p == Resolved(())
    {
      if version < DB_VERSION {
        version := DB_VERSION;
        Upgrade();
      }
      p := Resolved(());
    }

    /** `getFromDB(storeName)`: every record of the store, in some order. `db.transaction` throws
        for a name that is not a store, inside the success callback, so that promise never
        settles. */
    method GetFromDB(storeName: string) returns (p: Promise<seq<Item>>)
      requires Valid()
      modifies this
      ensures Valid() && version == if old(version) == 0 then 1 else old(version)
      ensures stores == old(stores)
      ensures storeName !in stores ==> p == Pending
      ensures storeName in stores ==>
                p.Resolved? && |p.value| == Count(stores[storeName]) &&
                forall x :: x in p.value <==> x in stores[storeName].Values
    {
      Open();
      if storeName !in stores {
        return Pending;
      }
      var st := stores[storeName];
      var rest := st.Keys;
      var all: seq<Item> := [];
      while rest != {}
        invariant rest <= st.Keys
        invariant |all| + |rest| == |st.Keys|
        invariant forall x :: x in all <==> exists k :: k in st.Keys - rest && st[k] == x
        decreases |rest|
      {
        var k :| k in rest;
        all := all + [st[k]];
        rest := rest - {k};
      }
      assert st.Keys - rest == st.Keys;
      p := Resolved(all);
    }

    /** `saveToDB(storeName, data)`: one put per item, in order; `fates` says how each request
        ends. The successful puts land in the store and the callbacks settle the promise. */
    method SaveToDB(storeName: string, data: Data, fates: seq<Fate>) returns (p: Promise<()>)
      requires Valid() && |fates| == |Items(data)|
      modifies this
      ensures Valid() && version == if old(version) == 0 then 1 else old(version)
      ensures storeName !in old(stores) ==> stores == old(stores) && p == Pending
      ensures storeName in old(stores) ==>
                stores == old(stores)[storeName := PutAll(old(stores)[storeName], Items(data), fates)] &&
                p == Replay(|fates|, fates).outcome
    {
      Open();
      if storeName !in stores {
        return Pending;
      }
      var st;
      st, p := PutBatch(stores[storeName], Items(data), fates);
      PutAllKeyedById(stores[storeName], Items(data), fates);
      stores := stores[storeName := st];
    }

    /** `deleteFromDB(storeName, id)`. */
    method DeleteFromDB(storeName: string, id: Key) returns (p: Promise<()>)
      requires Valid()
      modifies this
      ensures Valid() && version == if old(version) == 0 then 1 else old(version)
      ensures storeName !in old(stores) ==> stores == old(stores) && p == Pending
      ensures storeName in old(stores) ==>
                stores == old(stores)[storeName := Delete(old(stores)[storeName], id)] && p == Resolved(())
    {
      Open();
      if storeName !in stores {
        return Pending;
      }
      stores := stores[storeName := Delete(stores[storeName], id)];
      p := Resolved(());
    }

    /** `clearStore(storeName)`: the store is left empty, so its count is 0. */
    method ClearStore(storeName: string) returns (p: Promise<()>)
      requires Valid()
      modifies this
      ensures Valid() && version == if old(version) == 0 then 1 else old(version)
      ensures storeName !in old(stores) ==> stores == old(stores) && p == Pending
      ensures storeName in old(stores) ==>
                stores == old(stores)[storeName := map[]] && Count(stores[storeName]) == 0 &&
                p == Resolved(())
    {
      Open();
      if storeName !in stores {
        return Pending;
      }
      stores := stores[storeName := map[]];
      p := Resolved(());
    }

    /** `getStoreCount(storeName)`. */
    method GetStoreCount(storeName: string) returns (p: Promise<nat>)
      requires Valid()
      modifies this
      ensures Valid() && version == if old(version) == 0 then 1 else old(version)
      ensures stores == old(stores)
      ensures storeName !in stores ==> p == Pending
      ensures storeName in stores ==> p == Resolved(Count(stores[storeName]))
    {
      Open();
      if storeName !in stores {
        return Pending;
      }
      p := Resolved(Count(stores[storeName]));
    }
  }
}
