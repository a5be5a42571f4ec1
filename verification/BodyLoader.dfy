/** Fetching stored bodies and headers: a batched fetch that must answer as one fetch after another would. */
module BodyLoader {
  import opened Wrappers

  type Bytes = seq<char>

  /** `secret` stands for what decryption and the digest check need of the locator. */
  datatype Locator = Locator(driver: string, store: string, key: string, unavailable: string, secret: string)

  datatype Body = Body(data: Bytes, truncated: bool, unavailable: string, fault: bool, digest: string)

  const EMPTY := Body([], false, "", false, "")

  datatype Got = Got(raw: Bytes) | UnknownDriver | Failed

  datatype GotMany = GotMany(raws: seq<Option<Bytes>>) | UnknownDriverMany | FailedMany

  /** `many` is there if the store can fetch several keys at once. */
  datatype Store = Store(get: (string, string, string) -> Got, many: Option<(string, string, seq<string>) -> GotMany>)

  /** `finish` decrypts and checks what was fetched. */
  datatype Loader = Loader(store: Option<Store>, finish: (Locator, Bytes) -> Body)

  function Fault(why: string): Body {
    Body([], false, why, true, "")
  }

  function BodyOf(l: Loader, loc: Locator, got: Got): Body {
    match got
    case UnknownDriver => Fault("unknown_driver")
    case Failed => Fault("store_error")
    case Got(raw) => l.finish(loc, raw)
  }

  function Load(l: Loader, loc: Option<Locator>): Body {
    match loc
    case None => EMPTY
    case Some(it) =>
      if it.unavailable != "" then EMPTY.(unavailable := it.unavailable)
      else if it.driver == "" then EMPTY
      else
        match l.store
        case None => Fault("store_unconfigured")
        case Some(s) => BodyOf(l, it, s.get(it.driver, it.store, it.key))
  }

  /** One fetch: an absent locator or one without a driver is an empty body, an unavailable one says why it is, and what
      cannot be fetched is a fault that names the reason: no store, a driver the store does not know, or its error. */
  lemma LoadSays(l: Loader, loc: Option<Locator>)
    ensures loc.None? ==> Load(l, loc) == Body([], false, "", false, "")
    ensures loc.Some? && loc.value.unavailable != "" ==>
      Load(l, loc) == Body([], false, loc.value.unavailable, false, "")
    ensures loc.Some? && loc.value.unavailable == "" && loc.value.driver == "" ==>
      Load(l, loc) == Body([], false, "", false, "")
    ensures loc.Some? && loc.value.unavailable == "" && loc.value.driver != "" ==>
      if l.store.None? then Load(l, loc) == Body([], false, "store_unconfigured", true, "")
      else match l.store.value.get(loc.value.driver, loc.value.store, loc.value.key)
           case UnknownDriver => Load(l, loc) == Body([], false, "unknown_driver", true, "")
           case Failed => Load(l, loc) == Body([], false, "store_error", true, "")
           case Got(raw) => Load(l, loc) == l.finish(loc.value, raw)
  {}

  predicate Stored(loc: Option<Locator>) {
    loc.Some? && loc.value.unavailable == "" && loc.value.driver != ""
  }

  /** What the answer for one key of a batch means for that key alone. */
  function Single(got: GotMany, i: nat): Got {
    match got
    case UnknownDriverMany => UnknownDriver
    case FailedMany => Failed
    case GotMany(raws) => if i < |raws| && raws[i].Some? then Got(raws[i].value) else Failed
  }

  /** Fetching several keys at once answers for each key as fetching it alone. */
  ghost predicate Agrees(s: Store) {
    s.many.Some? ==>
      forall driver, store, keys, i :: 0 <= i < |keys| ==>
        Single(s.many.value(driver, store, keys), i) == s.get(driver, store, keys[i])
  }

  /** What the scan of the locators has put aside for one bulk fetch: positions with a common driver and store. */
  ghost predicate Gathered(locs: seq<Option<Locator>>, n: nat, at: seq<nat>, keys: seq<string>, driver: string,
                           store: string) {
    && |at| == |keys| && n <= |locs|
    && (forall k :: 0 <= k < |at| ==> at[k] < n)
    && (forall j, k :: 0 <= j < k < |at| ==> at[j] < at[k])
    && forall k :: 0 <= k < |at| ==>
         Stored(locs[at[k]]) && locs[at[k]].value.driver == driver && locs[at[k]].value.store == store
         && locs[at[k]].value.key == keys[k]
  }

  method LoadMany(l: Loader, locs: seq<Option<Locator>>) returns (out: seq<Body>)
    requires l.store.Some? ==> Agrees(l.store.value)
    ensures |out| == |locs| && forall i :: 0 <= i < |locs| ==> out[i] == Load(l, locs[i])
  {
    if l.store.None? || l.store.value.many.None? {
      out := [];
      for i := 0 to |locs|
        invariant |out| == i && forall j :: 0 <= j < i ==> out[j] == Load(l, locs[j])
      {
        out := out + [Load(l, locs[i])];
      }
      return;
    }
    var keys, at, driver, store;
    out, keys, at, driver, store := Scan(l, locs);
    if |keys| < 2 {
      for n := 0 to |at|
        invariant |out| == |locs|
        invariant forall j :: 0 <= j < |locs| && (j !in at || j in at[..n]) ==> out[j] == Load(l, locs[j])
      {
        out := out[at[n] := Load(l, locs[at[n]])];
        assert at[..n + 1] == at[..n] + [at[n]];
      }
      assert at[..|at|] == at;
      return;
    }
    out := FetchBatch(l, locs, out, keys, at, driver, store);
  }

  /** Loads at once what cannot join the batch, and collects the rest. */
  method Scan(l: Loader, locs: seq<Option<Locator>>)
    returns (out: seq<Body>, keys: seq<string>, at: seq<nat>, driver: string, store: string)
    ensures |out| == |locs| && Gathered(locs, |locs|, at, keys, driver, store)
    ensures forall j :: 0 <= j < |locs| && j !in at ==> out[j] == Load(l, locs[j])
  {
    out := seq(|locs|, i => EMPTY);
    keys, at, driver, store := [], [], "", "";
    var batched := false;
    for i := 0 to |locs|
      invariant |out| == |locs| && Gathered(locs, i, at, keys, driver, store)
      invariant forall j :: 0 <= j < i && j !in at ==> out[j] == Load(l, locs[j])
      invariant !batched ==> at == []
    {
      if locs[i].None? || locs[i].value.unavailable != "" || locs[i].value.driver == "" {
        out := out[i := Load(l, locs[i])];
        continue;
      }
      if batched && (locs[i].value.driver != driver || locs[i].value.store != store) {
        out := out[i := Load(l, locs[i])];
        continue;
      }
      driver, store, batched := locs[i].value.driver, locs[i].value.store, true;
      keys := keys + [locs[i].value.key];
      at := at + [i];
    }
  }

  /** One bulk fetch, its answers put at their positions. */
  method FetchBatch(l: Loader, locs: seq<Option<Locator>>, partial: seq<Body>, keys: seq<string>, at: seq<nat>,
                    driver: string, store: string)
    returns (out: seq<Body>)
    requires l.store.Some? && l.store.value.many.Some? && Agrees(l.store.value)
    requires |partial| == |locs| && Gathered(locs, |locs|, at, keys, driver, store)
    requires forall j :: 0 <= j < |locs| && j !in at ==> partial[j] == Load(l, locs[j])
    ensures |out| == |locs| && forall i :: 0 <= i < |locs| ==> out[i] == Load(l, locs[i])
  {
    out := partial;
    var got := l.store.value.many.value(driver, store, keys);
    for n := 0 to |at|
      invariant |out| == |locs|
      invariant forall j :: 0 <= j < |locs| && (j !in at || j in at[..n]) ==> out[j] == Load(l, locs[j])
    {
      assert Single(got, n) == l.store.value.get(driver, store, keys[n]);
      var body := Unpack(l, locs[at[n]].value, got, n);
      assert body == Load(l, locs[at[n]]);
      out := out[at[n] := body];
      assert at[..n + 1] == at[..n] + [at[n]];
    }
    assert at[..|at|] == at;
  }

  method Unpack(l: Loader, loc: Locator, got: GotMany, n: nat) returns (body: Body)
    ensures body == BodyOf(l, loc, Single(got, n))
  {
    match got
    case UnknownDriverMany => body := Fault("unknown_driver");
    case FailedMany => body := Fault("store_error");
    case GotMany(raws) =>
      if |raws| <= n || raws[n].None? {
        body := Fault("store_error");
      } else {
        body := l.finish(loc, raws[n].value);
      }
  }

  // ---------- the store in use ----------

  /** The Redis body store: `held` is what the server has, `up` whether it answers. */
  function RedisGet(held: map<string, Bytes>, up: bool, driver: string, key: string): Got {
    if driver != "redis" then UnknownDriver
    else if !up || key !in held then Failed
    else Got(held[key])
  }

  function RedisGetMany(held: map<string, Bytes>, up: bool, driver: string, keys: seq<string>): GotMany {
    if driver != "redis" then UnknownDriverMany
    else if |keys| == 0 then GotMany([])
    else if !up then FailedMany
    else GotMany(seq(|keys|, i requires 0 <= i < |keys| => Get(held, keys[i])))
  }

  function RedisStore(held: map<string, Bytes>, up: bool): Store {
    Store((driver, store, key) => RedisGet(held, up, driver, key),
          Some((driver, store, keys) => RedisGetMany(held, up, driver, keys)))
  }

  /** With a server that stays as it is, its bulk fetch agrees with its single fetch. */
  lemma RedisAgrees(held: map<string, Bytes>, up: bool)
    ensures Agrees(RedisStore(held, up))
  {
    var s := RedisStore(held, up);
    forall driver: string, store: string, keys: seq<string>, i | 0 <= i < |keys|
      ensures Single(s.many.value(driver, store, keys), i) == s.get(driver, store, keys[i])
    {
      assert s.many.value(driver, store, keys) == RedisGetMany(held, up, driver, keys);
    }
  }

  /** What it gives for one stored body: a fault for a driver other than its own, for a server that does not answer and for
      a key it does not have, and otherwise what the server holds. */
  lemma RedisLoads(held: map<string, Bytes>, up: bool, finish: (Locator, Bytes) -> Body, loc: Locator)
    requires loc.unavailable == "" && loc.driver != ""
    ensures Load(Loader(Some(RedisStore(held, up)), finish), Some(loc))
         == if loc.driver != "redis" then Body([], false, "unknown_driver", true, "")
            else if up && loc.key in held then finish(loc, held[loc.key])
            else Body([], false, "store_error", true, "")
  {
    assert RedisStore(held, up).get(loc.driver, loc.store, loc.key) == RedisGet(held, up, loc.driver, loc.key);
  }
}
