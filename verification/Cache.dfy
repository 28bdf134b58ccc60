/**
  The availability cache's keys and its Redis store (src/lib/availability-cache.ts).
  The hash is a parameter, taken to be injective and free of colons (hex digits);
  tenant and experience ids are UUIDs, so they hold no colon and nothing special to
  a match pattern either.
 */
module Cache {
  import opened Wrappers

  predicate NoColon(s: string) {
    ':' !in s
  }

  ghost predicate GoodHash(hash: string -> string) {
    && (forall a, b :: hash(a) == hash(b) ==> a == b)
    && (forall a :: NoColon(hash(a)))
  }

  /** What a cached answer is for; the query is its JSON text. */
  datatype Key =
    | SearchKey(tenantId: string, query: string)
    | DetailKey(tenantId: string, experienceId: string, query: string)

  predicate GoodIds(key: Key) {
    NoColon(key.tenantId) && (key.DetailKey? ==> NoColon(key.experienceId))
  }

  function KeyText(hash: string -> string, key: Key): string {
    match key
    case SearchKey(tenantId, query) => "avail" + ":" + (tenantId + ":" + ("search" + ":" + hash(query)))
    case DetailKey(tenantId, experienceId, query) =>
      "avail" + ":" + (tenantId + ":" + ("detail" + ":" + (experienceId + ":" + hash(query))))
  }

  /** Matching `avail:{tenantId}:*`. */
  predicate MatchesTenant(text: string, tenantId: string) {
    "avail" + ":" + (tenantId + ":") <= text
  }

  // ---------- keys do not clash ----------

  lemma NoColonBefore(a: string, text: string, i: nat)
    requires NoColon(a) && a <= text && i < |text| && text[i] == ':'
    ensures |a| <= i
  {
  }

  /** The first colon splits a text in one way only. */
  lemma FirstColon(a: string, x: string, b: string, y: string)
    requires NoColon(a) && NoColon(b) && a + ":" + x == b + ":" + y
    ensures a == b && x == y
  {
    var text := a + ":" + x;
    assert text[|a|] == ':' && text == b + ":" + y;
    assert text[|b|] == ':';
    NoColonBefore(a, text, |b|);
    NoColonBefore(b, text, |a|);
    assert a == text[..|a|] && b == text[..|b|];
    assert x == text[|a| + 1..] && y == text[|b| + 1..];
  }

  /** Two answers share a key only if they are for the same tenant, experience and query. */
  lemma KeysInjective(hash: string -> string, k1: Key, k2: Key)
    requires GoodHash(hash) && GoodIds(k1) && GoodIds(k2) && KeyText(hash, k1) == KeyText(hash, k2)
    ensures k1 == k2
  {
    var rest1 := AfterTenant(hash, k1);
    var rest2 := AfterTenant(hash, k2);
    FirstColon("avail", k1.tenantId + ":" + rest1, "avail", k2.tenantId + ":" + rest2);
    FirstColon(k1.tenantId, rest1, k2.tenantId, rest2);
    FirstColon(Kind(k1), AfterKind(hash, k1), Kind(k2), AfterKind(hash, k2));
    if k1.DetailKey? && k2.DetailKey? {
      FirstColon(k1.experienceId, hash(k1.query), k2.experienceId, hash(k2.query));
    } else {
      assert Kind(SearchKey("", ""))[0] == 's' && Kind(DetailKey("", "", ""))[0] == 'd';
    }
  }

  function Kind(key: Key): string {
    if key.SearchKey? then "search" else "detail"
  }

  function AfterKind(hash: string -> string, key: Key): string {
    match key
    case SearchKey(_, query) => hash(query)
    case DetailKey(_, experienceId, query) => experienceId + ":" + hash(query)
  }

  function AfterTenant(hash: string -> string, key: Key): string {
    Kind(key) + ":" + AfterKind(hash, key)
  }

  /** A tenant's pattern matches exactly that tenant's keys. */
  lemma PatternMatchesTenant(hash: string -> string, key: Key, tenantId: string)
    requires GoodIds(key) && NoColon(tenantId)
    ensures MatchesTenant(KeyText(hash, key), tenantId) <==> key.tenantId == tenantId
  {
    var text, rest := KeyText(hash, key), AfterTenant(hash, key);
    var prefix := "avail" + ":" + (tenantId + ":");
    assert text == "avail" + ":" + (key.tenantId + ":" + rest);
    if MatchesTenant(text, tenantId) {
      var tail := text[|prefix|..];
      assert text == prefix + tail;
      assert prefix + tail == "avail" + ":" + (tenantId + ":" + tail);
      FirstColon("avail", tenantId + ":" + tail, "avail", key.tenantId + ":" + rest);
      FirstColon(tenantId, tail, key.tenantId, rest);
    }
    if key.tenantId == tenantId {
      assert text == prefix + rest;
    }
  }

  // ---------- the store ----------

  /** A value set with a time to live. */
  datatype Stored<+V> = Stored(value: V, expiresAt: int)

  function TextOf(hash: string -> string): Key -> string {
    (key: Key) => KeyText(hash, key)
  }

  /** What a store with these key texts answers at time `at`, by answer instead of by key text. */
  ghost function LiveAnswers<V>(text: Key -> string, store: map<string, Stored<V>>, at: int): imap<Key, V> {
    imap key: Key | GoodIds(key) && text(key) in store && at < store[text(key)].expiresAt :: store[text(key)].value
  }

  /** `value` under `key` while `live`, nothing there otherwise. */
  ghost function PutWhile<V>(answers: imap<Key, V>, key: Key, value: V, live: bool): imap<Key, V> {
    if live then answers[key := value] else imap other | other in answers && other != key :: answers[other]
  }

  ghost function WithoutTenant<V>(answers: imap<Key, V>, tenantId: string): imap<Key, V> {
    imap key | key in answers && key.tenantId != tenantId :: answers[key]
  }

  lemma PutLive<V>(text: Key -> string, store: map<string, Stored<V>>, key: Key, value: V, expiresAt: int, at: int)
    requires GoodIds(key) && forall other :: GoodIds(other) && text(other) == text(key) ==> other == key
    ensures LiveAnswers(text, store[text(key) := Stored(value, expiresAt)], at)
         == PutWhile(LiveAnswers(text, store, at), key, value, at < expiresAt)
  {
  }

  lemma TextsDiffer(hash: string -> string, key: Key)
    requires GoodHash(hash) && GoodIds(key)
    ensures forall other :: GoodIds(other) && TextOf(hash)(other) == TextOf(hash)(key) ==> other == key
  {
    forall other | GoodIds(other) && TextOf(hash)(other) == TextOf(hash)(key) ensures other == key {
      KeysInjective(hash, other, key);
    }
  }

  datatype ScanReply = ScanReply(nextCursor: string, keys: seq<string>)

  /** A finished scan: the cursor comes back to "0" with the last reply and not before. */
  predicate FinishedScan(replies: seq<ScanReply>) {
    && replies != []
    && forall k :: 0 <= k < |replies| ==> (replies[k].nextCursor == "0" <==> k == |replies| - 1)
  }

  function Texts(keys: seq<string>): set<string> {
    set text | text in keys
  }

  function Returned(replies: seq<ScanReply>): set<string> {
    if replies == [] then {}
    else
      var n := |replies| - 1;
      Returned(replies[..n]) + Texts(replies[n].keys)
  }

  function CountReturned(replies: seq<ScanReply>): nat {
    if replies == [] then 0
    else
      var n := |replies| - 1;
      CountReturned(replies[..n]) + |replies[n].keys|
  }

  lemma ReturnedStep(replies: seq<ScanReply>, i: nat)
    requires i < |replies|
    ensures Returned(replies[..i + 1]) == Returned(replies[..i]) + Texts(replies[i].keys)
    ensures CountReturned(replies[..i + 1]) == CountReturned(replies[..i]) + |replies[i].keys|
  {
    assert replies[..i + 1][..i] == replies[..i];
  }

  /** SCAN returns keys of the pattern only, and every key of it that is there throughout. */
  predicate CompleteScan<V>(store: map<string, Stored<V>>, tenantId: string, replies: seq<ScanReply>, now: int) {
    && FinishedScan(replies)
    && (forall text :: text in Returned(replies) ==> MatchesTenant(text, tenantId))
    && (forall text :: text in store && now < store[text].expiresAt && MatchesTenant(text, tenantId) ==>
          text in Returned(replies))
  }

  lemma ScanRemovesTenant<V>(hash: string -> string, store: map<string, Stored<V>>, tenantId: string,
                             replies: seq<ScanReply>, now: int, at: int)
    requires NoColon(tenantId) && CompleteScan(store, tenantId, replies, now) && now <= at
    ensures LiveAnswers(TextOf(hash), store - Returned(replies), at)
         == WithoutTenant(LiveAnswers(TextOf(hash), store, at), tenantId)
  {
    forall key | GoodIds(key)
      ensures MatchesTenant(TextOf(hash)(key), tenantId) <==> key.tenantId == tenantId
    {
      PatternMatchesTenant(hash, key, tenantId);
    }
  }

  class RedisCache<V> {
    const ttl: int
    var store: map<string, Stored<V>>

    constructor (ttl: int)
      ensures store == map[] && this.ttl == ttl
    {
      this.ttl := ttl;
      store := map[];
    }

    ghost function Answers(hash: string -> string, at: int): imap<Key, V>
      reads this
    {
      LiveAnswers(TextOf(hash), store, at)
    }

    method Get(hash: string -> string, key: Key, now: int) returns (r: Option<V>)
      requires GoodIds(key)
      ensures r.Some? <==> key in Answers(hash, now)
      ensures r.Some? ==> r.value == Answers(hash, now)[key]
    {
      var text := KeyText(hash, key);
      if text in store && now < store[text].expiresAt { return Some(store[text].value); }
      return None;
    }

    /** With good ids and hash, the value is seen under its own key until it times out, and no other answer changes. */
    method Set(hash: string -> string, key: Key, value: V, now: int)
      requires GoodHash(hash) && GoodIds(key)
      modifies this`store
      ensures forall at :: Answers(hash, at) == PutWhile(old(Answers(hash, at)), key, value, at < now + ttl)
    {
      store := store[KeyText(hash, key) := Stored(value, now + ttl)];
      TextsDiffer(hash, key);
      forall at ensures Answers(hash, at) == PutWhile(old(Answers(hash, at)), key, value, at < now + ttl) {
        PutLive(TextOf(hash), old(store), key, value, now + ttl, at);
      }
    }

    /** A query through the cache whose fill lands at once: a hit is returned as it is, a miss is computed and kept. */
    method ReadThrough(hash: string -> string, key: Key, computed: V, now: int) returns (r: V)
      requires GoodHash(hash) && GoodIds(key)
      modifies this`store
      ensures key in old(Answers(hash, now)) ==> r == old(Answers(hash, now))[key] && store == old(store)
      ensures key !in old(Answers(hash, now)) ==>
                r == computed && forall at ::
                    Answers(hash, at) == PutWhile(old(Answers(hash, at)), key, computed, at < now + ttl)
    {
      var cached := Get(hash, key, now);
      if cached.Some? { return cached.value; }
      Set(hash, key, computed, now);
      return computed;
    }

    method Delete(keys: seq<string>)
      modifies this`store
      ensures store == old(store) - Texts(keys)
    {
      store := store - Texts(keys);
    }

    /** The scan-and-delete loop, nothing else writing meanwhile: the tenant's answers go, all others stay. */
    method InvalidateTenant(hash: string -> string, tenantId: string, replies: seq<ScanReply>, now: int)
      returns (deletedKeys: nat)
      requires NoColon(tenantId) && CompleteScan(store, tenantId, replies, now)
      modifies this`store
      ensures forall at :: now <= at ==> Answers(hash, at) == WithoutTenant(old(Answers(hash, at)), tenantId)
      ensures deletedKeys == CountReturned(replies)
    {
      deletedKeys := 0;
      var i := 0;
      var cursor := "0";
      var more := true;
      while more
        invariant 0 <= i <= |replies|
        invariant more <==> i == 0 || cursor != "0"
        invariant i > 0 ==> cursor == replies[i - 1].nextCursor
        invariant store == old(store) - Returned(replies[..i])
        invariant deletedKeys == CountReturned(replies[..i])
        decreases |replies| - i
      {
        cursor := replies[i].nextCursor;
        ReturnedStep(replies, i);
        if |replies[i].keys| > 0 {
          Delete(replies[i].keys);
          deletedKeys := deletedKeys + |replies[i].keys|;
        }
        i := i + 1;
        more := cursor != "0";
      }
      assert replies[..|replies|] == replies;
      forall at | now <= at ensures Answers(hash, at) == WithoutTenant(old(Answers(hash, at)), tenantId) {
        ScanRemovesTenant(hash, old(store), tenantId, replies, now, at);
      }
    }
  }
}
