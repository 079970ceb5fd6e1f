/** The in-memory store (server/storage.ts). `MemStorage` keeps three
    JavaScript `Map`s and updates them in place. A `Map` remembers the order in
    which its keys were first inserted, and its `values()` follow that order;
    `JsMap` models exactly that. Identifiers (`randomUUID`) and the clock
    (`new Date()`) are parameters of the create methods. */
module Storage {
  import opened Wrappers
  import opened Schema

  /** A JavaScript `Map` keyed by strings: the keys in first-insertion order and the entries. */
  datatype JsMap<V> = JsMap(keys: seq<string>, entries: map<string, V>) {

    ghost predicate Valid() {
      && (forall i, j :: 0 <= i < j < |keys| ==> keys[i] != keys[j])
      && (forall k :: k in entries <==> k in keys)
    }

    /** `m.get(k)` */
    function Get(k: string): (r: Option<V>)
      ensures r.Some? <==> k in entries
      ensures r.Some? ==> r.value == entries[k]
    {
      if k in entries then Some(entries[k]) else None
    }

    /** `m.set(k, v)`: a new key goes last, an existing key keeps its place. */
    function Set(k: string, v: V): (r: JsMap<V>)
      requires Valid()
      ensures r.Valid()
      ensures r.entries == entries[k := v]
      ensures k in entries ==> r.keys == keys
      ensures k !in entries ==> r.keys == keys + [k]
    {
      JsMap(if k in entries then keys else keys + [k], entries[k := v])
    }

    /** `Array.from(m.values())` */
    function Values(): (r: seq<V>)
      requires Valid()
      ensures |r| == |keys|
      ensures forall i :: 0 <= i < |keys| ==> r[i] == entries[keys[i]]
    {
      seq(|keys|, i requires 0 <= i < |keys| => entries[keys[i]])
    }
  }

  function EmptyMap<V>(): (m: JsMap<V>)
    ensures m.Valid() && m.entries == map[]
  {
    JsMap([], map[])
  }

  /** Every value of the map is stored under a key it carries itself. */
  lemma ValuesAreEntries<V>(m: JsMap<V>, v: V)
    requires m.Valid()
    ensures v in m.Values() <==> v in m.entries.Values
  {
    if v in m.entries.Values {
      var k :| k in m.entries && m.entries[k] == v;
      var i :| 0 <= i < |m.keys| && m.keys[i] == k;
      assert m.Values()[i] == v;
    }
  }

  lemma SetNewKeyGrows<V>(m: JsMap<V>, k: string, v: V)
    requires m.Valid() && k !in m.entries
    ensures |m.Set(k, v).Values()| == |m.Values()| + 1
    ensures m.Set(k, v).Values() == m.Values() + [v]
  {
  }

  /** Call requests ordered by `createdAt`, newest first. */
  predicate NewestFirst(s: seq<CallRequest>) {
    forall i, j :: 0 <= i < j < |s| ==> s[i].createdAt >= s[j].createdAt
  }

  /** Places `x` before the first request that is not newer than it. Since `x`
      was inserted before all of `s`, ties keep insertion order (a stable sort). */
  function InsertNewestFirst(x: CallRequest, s: seq<CallRequest>): (r: seq<CallRequest>)
    requires NewestFirst(s)
    ensures NewestFirst(r)
    ensures multiset(r) == multiset(s) + multiset{x}
    ensures |r| == |s| + 1
  {
    if s == [] || s[0].createdAt <= x.createdAt then
      ConsNewestFirst(x, s);
      [x] + s
    else
      var rest := InsertNewestFirst(x, s[1..]);
      InsertBehindHead(x, s, rest);
      [s[0]] + rest
  }

  /** When `x` is older than the head, the head stays in front of `x` inserted into the tail. */
  lemma InsertBehindHead(x: CallRequest, s: seq<CallRequest>, rest: seq<CallRequest>)
    requires NewestFirst(s) && s != [] && x.createdAt < s[0].createdAt
    requires NewestFirst(rest) && multiset(rest) == multiset(s[1..]) + multiset{x}
    ensures NewestFirst([s[0]] + rest)
    ensures multiset([s[0]] + rest) == multiset(s) + multiset{x}
  {
    assert s == [s[0]] + s[1..];
    forall y | y in rest
      ensures y.createdAt <= s[0].createdAt
    {
      assert y in multiset(rest);
      if y != x {
        assert y in multiset(s[1..]);
        var j :| 0 <= j < |s[1..]| && s[1..][j] == y;
        assert s[1 + j] == y;
      }
    }
    ConsNewestFirst(s[0], rest);
  }

  /** A request no older than everything in a newest-first sequence can go in front. */
  lemma ConsNewestFirst(h: CallRequest, s: seq<CallRequest>)
    requires NewestFirst(s)
    requires forall y :: y in s ==> y.createdAt <= h.createdAt
    ensures NewestFirst([h] + s)
  {
    var r := [h] + s;
    forall i, j | 0 <= i < j < |r|
      ensures r[i].createdAt >= r[j].createdAt
    {
      assert r[j] == s[j - 1];
      if i > 0 {
        assert r[i] == s[i - 1];
      }
    }
  }

  /** The comparator sort `(a, b) => b.createdAt - a.createdAt`. */
  function SortNewestFirst(s: seq<CallRequest>): (r: seq<CallRequest>)
    ensures NewestFirst(r)
    ensures multiset(r) == multiset(s)
    ensures |r| == |s|
  {
    if s == [] then []
    else
      assert s == [s[0]] + s[1..];
      InsertNewestFirst(s[0], SortNewestFirst(s[1..]))
  }

  const RecentLimit := 100

  function Min(a: int, b: int): int { if a <= b then a else b }

  /** In a newest-first sequence nothing after the first `k` is newer than the `k`-th. */
  lemma TailNotNewer(sorted: seq<CallRequest>, k: int)
    requires NewestFirst(sorted) && 0 < k <= |sorted|
    ensures forall x :: x in multiset(sorted[k..]) ==> x.createdAt <= sorted[k - 1].createdAt
  {
    forall x | x in multiset(sorted[k..])
      ensures x.createdAt <= sorted[k - 1].createdAt
    {
      assert x in sorted[k..];
      var j :| 0 <= j < |sorted[k..]| && sorted[k..][j] == x;
      assert sorted[k + j] == x;
    }
  }

  lemma PrefixMultiset(s: seq<CallRequest>, k: int)
    requires 0 <= k <= |s|
    ensures multiset(s) - multiset(s[..k]) == multiset(s[k..])
    ensures multiset(s[..k]) <= multiset(s)
  {
    assert s == s[..k] + s[k..];
  }

  /** `.sort(newest first).slice(0, 100)`: at most 100 of the stored requests,
      newest first, and none left out is newer than the last one returned. */
  function Recent(values: seq<CallRequest>): (r: seq<CallRequest>)
    ensures |r| == Min(|values|, RecentLimit)
    ensures NewestFirst(r)
    ensures multiset(r) <= multiset(values)
    ensures forall x :: x in multiset(values) - multiset(r) ==> |r| > 0 && x.createdAt <= r[|r| - 1].createdAt
  {
    var sorted := SortNewestFirst(values);
    var k := Min(|values|, RecentLimit);
    PrefixMultiset(sorted, k);
    if k > 0 then
      TailNotNewer(sorted, k);
      sorted[..k]
    else
      sorted[..k]
  }

  class MemStorage {
    var users: JsMap<User>
    var emailSubscriptions: JsMap<EmailSubscription>
    var callRequests: JsMap<CallRequest>

    /** Each map is a well-formed `Map`; users and call requests are keyed by
        their `id`, subscriptions by their `email`. */
    ghost predicate Valid()
      reads this
    {
      && users.Valid() && emailSubscriptions.Valid() && callRequests.Valid()
      && (forall k :: k in users.entries ==> users.entries[k].id == k)
      && (forall k :: k in emailSubscriptions.entries ==> emailSubscriptions.entries[k].email == k)
      && (forall k :: k in callRequests.entries ==> callRequests.entries[k].id == k)
    }

    constructor ()
      ensures Valid()
      ensures users.entries == map[] && emailSubscriptions.entries == map[] && callRequests.entries == map[]
    {
      users := EmptyMap();
      emailSubscriptions := EmptyMap();
      callRequests := EmptyMap();
    }

    /** `getUser(id)` */
    method GetUser(id: string) returns (u: Option<User>)
      requires Valid()
      ensures u.Some? <==> id in users.entries
      ensures u.Some? ==> u.value == users.entries[id] && u.value.id == id
    {
      u := users.Get(id);
    }

    /** `getUserByUsername(username)`: the first user, in insertion order, with that username. */
    method GetUserByUsername(username: string) returns (u: Option<User>)
      requires Valid()
      ensures u.None? <==> forall v :: v in users.entries.Values ==> v.username != username
      ensures u.Some? ==> exists i :: 0 <= i < |users.keys| && users.Values()[i] == u.value
                            && u.value.username == username
                            && forall j :: 0 <= j < i ==> users.Values()[j].username != username
    {
      var all := users.Values();
      var i := 0;
      while i < |all|
        invariant 0 <= i <= |all|
        invariant forall j :: 0 <= j < i ==> all[j].username != username
      {
        if all[i].username == username {
          u := Some(all[i]);
          return;
        }
        i := i + 1;
      }
      u := None;
      forall v | v in users.entries.Values
        ensures v.username != username
      {
        ValuesAreEntries(users, v);
      }
    }

    /** `createUser(insertUser)` with `id` the fresh identifier. */
    method CreateUser(insertUser: InsertUser, id: string) returns (user: User)
      requires Valid()
      modifies this
      ensures Valid()
      ensures user == User(id, insertUser.username, insertUser.password)
      ensures users == old(users).Set(id, user)
      ensures emailSubscriptions == old(emailSubscriptions) && callRequests == old(callRequests)
    {
      user := User(id, insertUser.username, insertUser.password);
      users := users.Set(id, user);
    }

    /** `createEmailSubscription(s)`: stored under its email, replacing any
        earlier subscription with that email (the store does not check). */
    method CreateEmailSubscription(insert: InsertEmailSubscription, id: string, now: int)
      returns (subscription: EmailSubscription)
      requires Valid()
      modifies this
      ensures Valid()
      ensures subscription == EmailSubscription(id, insert.email, now)
      ensures emailSubscriptions == old(emailSubscriptions).Set(insert.email, subscription)
      ensures users == old(users) && callRequests == old(callRequests)
    {
      subscription := EmailSubscription(id, insert.email, now);
      emailSubscriptions := emailSubscriptions.Set(insert.email, subscription);
    }

    /** `getEmailSubscription(email)` */
    method GetEmailSubscription(email: string) returns (s: Option<EmailSubscription>)
      requires Valid()
      ensures s.Some? <==> email in emailSubscriptions.entries
      ensures s.Some? ==> s.value == emailSubscriptions.entries[email] && s.value.email == email
    {
      s := emailSubscriptions.Get(email);
    }

    /** `createCallRequest(r)`: stored under its fresh `id`. */
    method CreateCallRequest(insert: InsertCallRequest, id: string, now: int) returns (request: CallRequest)
      requires Valid()
      modifies this
      ensures Valid()
      ensures request == CallRequest(id, insert.phoneNumber, insert.email, now)
      ensures callRequests == old(callRequests).Set(id, request)
      ensures users == old(users) && emailSubscriptions == old(emailSubscriptions)
    {
      request := CallRequest(id, insert.phoneNumber, insert.email, now);
      callRequests := callRequests.Set(id, request);
    }

    /** `getRecentCallRequests()` */
    method GetRecentCallRequests() returns (recent: seq<CallRequest>)
      requires Valid()
      ensures recent == Recent(callRequests.Values())
      ensures |recent| == Min(|callRequests.keys|, RecentLimit)
      ensures forall r :: r in recent ==> r in callRequests.entries.Values
    {
      recent := Recent(callRequests.Values());
      forall r | r in recent
        ensures r in callRequests.entries.Values
      {
        assert r in multiset(recent);
        assert r in multiset(callRequests.Values());
        ValuesAreEntries(callRequests, r);
      }
    }
  }

  /** After a subscription is created, looking its email up finds that very record. */
  method SubscribeThenLookUp(store: MemStorage, insert: InsertEmailSubscription, id: string, now: int)
    returns (created: EmailSubscription, found: Option<EmailSubscription>)
    requires store.Valid()
    modifies store
    ensures found == Some(created)
    ensures created == EmailSubscription(id, insert.email, now)
  {
    created := store.CreateEmailSubscription(insert, id, now);
    found := store.GetEmailSubscription(insert.email);
  }

  /** A call request under a fresh identifier adds exactly one stored request. */
  method CreateCallRequestAddsOne(store: MemStorage, insert: InsertCallRequest, id: string, now: int)
    returns (request: CallRequest)
    requires store.Valid() && id !in store.callRequests.entries
    modifies store
    ensures store.Valid()
    ensures |store.callRequests.keys| == |old(store.callRequests.keys)| + 1
    ensures store.callRequests.Values() == old(store.callRequests.Values()) + [request]
  {
    request := store.CreateCallRequest(insert, id, now);
  }
}
