/** quic-go-bbr/token_store.go: the tokens of many origins, of which the least recently used is dropped. */
module TokenStores {
  import opened Protocol
  import opened TokenRing

  /** The specification: origins with their tokens, the most recently used one first. */
  datatype Origin = Origin(key: string, stack: seq<Token>)

  type Cache = seq<Origin>

  predicate HasKey(c: Cache, key: string) {
    exists i :: 0 <= i < |c| && c[i].key == key
  }

  /** The position of an origin in the cache. */
  function Find(c: Cache, key: string): (i: nat)
    ensures i <= |c| && (i < |c| ==> c[i].key == key) && (i < |c| <==> HasKey(c, key))
  {
    if c == [] then 0
    else if c[0].key == key then 0
    else
      var i := Find(c[1..], key);
      assert HasKey(c, key) ==> HasKey(c[1..], key);
      assert i < |c[1..]| ==> c[i + 1].key == key;
      i + 1
  }

  function Without(c: Cache, i: nat): Cache
    requires i < |c|
  {
    c[..i] + c[i + 1..]
  }

  function PutSpec(c: Cache, key: string, token: Token, capacity: nat, size: nat): Cache
    requires capacity > 0
  {
    var i := Find(c, key);
    if i < |c| then [Origin(key, Push(c[i].stack, token, size))] + Without(c, i)
    else if |c| < capacity then [Origin(key, Push([], token, size))] + c
    else [Origin(key, Push([], token, size))] + c[..|c| - 1]
  }

  function PopSpec(c: Cache, key: string): (Cache, Option<Token>) {
    var i := Find(c, key);
    if i == |c| || c[i].stack == [] then (c, None)
    else
      var stack := c[i].stack;
      var rest := stack[..|stack| - 1];
      (if rest == [] then Without(c, i) else [Origin(key, rest)] + Without(c, i), Some(stack[|stack| - 1]))
  }

  ghost predicate Distinct(c: Cache) {
    forall i, j :: 0 <= i < j < |c| ==> c[i].key != c[j].key
  }

  /** At most `capacity` origins, each with at least one token and at most `size`. */
  ghost predicate CacheOk(c: Cache, capacity: nat, size: nat) {
    && Distinct(c) && |c| <= capacity
    && (forall i :: 0 <= i < |c| ==> 0 < |c[i].stack| <= size)
  }

  lemma PutOk(c: Cache, key: string, token: Token, capacity: nat, size: nat)
    requires CacheOk(c, capacity, size) && capacity > 0 && size > 0
    ensures CacheOk(PutSpec(c, key, token, capacity, size), capacity, size)
  {
    hide Find;
    var i := Find(c, key);
    if i < |c| {
      var stack := Push(c[i].stack, token, size);
      MovedToFront(c, i, stack, capacity, size);
    }
  }

  lemma MovedToFront(c: Cache, i: nat, stack: seq<Token>, capacity: nat, size: nat)
    requires CacheOk(c, capacity, size) && i < |c| && 0 < |stack| <= size
    ensures CacheOk([Origin(c[i].key, stack)] + Without(c, i), capacity, size)
  {
  }

  lemma PopOkSpec(c: Cache, key: string, capacity: nat, size: nat)
    requires CacheOk(c, capacity, size)
    ensures CacheOk(PopSpec(c, key).0, capacity, size)
    ensures PopSpec(c, key).1.Some? <==> HasKey(c, key)
  {
    hide Find;
    var i := Find(c, key);
    if i < |c| && |c[i].stack| > 1 {
      MovedToFront(c, i, c[i].stack[..|c[i].stack| - 1], capacity, size);
    }
  }

  // ---- The keys that are kept are those used last. ----

  function Keys(c: Cache): (ks: seq<string>)
    ensures |ks| == |c| && forall i :: 0 <= i < |c| ==> ks[i] == c[i].key
  {
    seq(|c|, i requires 0 <= i < |c| => c[i].key)
  }

  ghost predicate NoRepeats(ks: seq<string>) {
    forall i, j :: 0 <= i < j < |ks| ==> ks[i] != ks[j]
  }

  function Drop(ks: seq<string>, k: string): seq<string> {
    if ks == [] then [] else (if ks[0] == k then [] else [ks[0]]) + Drop(ks[1..], k)
  }

  /** The keys that were put, the one put last first, each once. */
  function MostRecent(puts: seq<string>): seq<string> {
    if puts == [] then [] else [puts[|puts| - 1]] + Drop(MostRecent(puts[..|puts| - 1]), puts[|puts| - 1])
  }

  function Prefix(ks: seq<string>, n: nat): seq<string> {
    if |ks| <= n then ks else ks[..n]
  }

  /** The cache after putting tokens for these keys. */
  function AfterPuts(puts: seq<string>, tokens: nat -> Token, capacity: nat, size: nat): Cache
    requires capacity > 0
  {
    if puts == [] then []
    else PutSpec(AfterPuts(puts[..|puts| - 1], tokens, capacity, size), puts[|puts| - 1], tokens(|puts| - 1), capacity,
                 size)
  }

  lemma {:induction false} DropKeeps(ks: seq<string>, k: string, x: string)
    ensures x in Drop(ks, k) <==> x in ks && x != k
  {
    if ks != [] {
      DropKeeps(ks[1..], k, x);
      assert ks == [ks[0]] + ks[1..];
    }
  }

  lemma {:induction false} DropAbsent(ks: seq<string>, k: string)
    requires k !in ks
    ensures Drop(ks, k) == ks
  {
    if ks != [] {
      DropAbsent(ks[1..], k);
    }
  }

  lemma {:induction false} DropAt(ks: seq<string>, i: nat)
    requires i < |ks| && NoRepeats(ks)
    ensures Drop(ks, ks[i]) == ks[..i] + ks[i + 1..]
  {
    if i == 0 {
      DropAbsent(ks[1..], ks[0]);
    } else {
      DropAt(ks[1..], i - 1);
      assert [ks[0]] + ks[1..][..i - 1] == ks[..i] && ks[1..][i..] == ks[i + 1..];
    }
  }

  /** The keys after a token is put. */
  lemma PutKeys(c: Cache, key: string, token: Token, capacity: nat, size: nat)
    requires Distinct(c) && |c| <= capacity && capacity > 0
    ensures Keys(PutSpec(c, key, token, capacity, size)) == Prefix([key] + Drop(Keys(c), key), capacity)
  {
    hide Find, Drop, Keys, Push;
    var i := Find(c, key);
    if i < |c| {
      DropAt(Keys(c), i);
      KeysSplit(c, i);
      KeysCons(Origin(key, Push(c[i].stack, token, size)), Without(c, i));
    } else {
      assert key !in Keys(c) by {
        assert forall j :: 0 <= j < |c| ==> c[j].key != key;
      }
      DropAbsent(Keys(c), key);
      KeysCons(Origin(key, Push([], token, size)), c);
      if |c| == capacity {
        KeysCons(Origin(key, Push([], token, size)), c[..|c| - 1]);
        assert Keys(c[..|c| - 1]) == Keys(c)[..|c| - 1];
      }
    }
  }

  lemma KeysCons(o: Origin, c: Cache)
    ensures Keys([o] + c) == [o.key] + Keys(c)
  {
  }

  lemma KeysSplit(c: Cache, i: nat)
    requires i < |c|
    ensures Keys(Without(c, i)) == Keys(c)[..i] + Keys(c)[i + 1..]
  {
  }

  /** Taking only the first keys before or after the next put makes no difference. */
  lemma PrefixDrop(ks: seq<string>, key: string, n: nat)
    requires n > 0 && NoRepeats(ks)
    ensures Prefix([key] + Drop(Prefix(ks, n), key), n) == Prefix([key] + Drop(ks, key), n)
  {
    hide Drop, NoRepeats;
    PrefixCons(key, Drop(ks, key), n);
    PrefixCons(key, Drop(Prefix(ks, n), key), n);
    if |ks| > n {
      DropFirst(ks, key, n);
    }
  }

  lemma PrefixCons(key: string, ks: seq<string>, n: nat)
    requires n > 0
    ensures Prefix([key] + ks, n) == [key] + Prefix(ks, n - 1)
  {
  }

  lemma {:induction false} DropFirst(ks: seq<string>, key: string, n: nat)
    requires 0 < n < |ks| && NoRepeats(ks)
    ensures Prefix(Drop(ks[..n], key), n - 1) == Prefix(Drop(ks, key), n - 1)
  {
    assert ks[..n][1..] == ks[1..][..n - 1];
    if ks[0] == key {
      DropAbsent(ks[1..], key);
      DropAbsent(ks[1..][..n - 1], key);
    } else if n > 1 {
      DropFirst(ks[1..], key, n - 1);
      PrefixCons(ks[0], Drop(ks[1..], key), n - 1);
      PrefixCons(ks[0], Drop(ks[..n][1..], key), n - 1);
    }
  }

  lemma {:induction false} DropDistinct(ks: seq<string>, k: string)
    requires NoRepeats(ks)
    ensures NoRepeats(Drop(ks, k))
  {
    if ks != [] {
      DropDistinct(ks[1..], k);
      var rest := Drop(ks[1..], k);
      forall i | 0 <= i < |rest|
        ensures rest[i] != ks[0]
      {
        DropKeeps(ks[1..], k, rest[i]);
      }
    }
  }

  lemma {:induction false} MostRecentDistinct(puts: seq<string>)
    ensures NoRepeats(MostRecent(puts))
  {
    if puts != [] {
      var before, k := puts[..|puts| - 1], puts[|puts| - 1];
      MostRecentDistinct(before);
      DropDistinct(MostRecent(before), k);
      forall i | 0 <= i < |Drop(MostRecent(before), k)|
        ensures Drop(MostRecent(before), k)[i] != k
      {
        DropKeeps(MostRecent(before), k, Drop(MostRecent(before), k)[i]);
      }
    }
  }

  /** After any number of puts the cache holds exactly the keys that were put most recently, as many as there is room
      for. */
  lemma {:induction false} KeepsMostRecent(puts: seq<string>, tokens: nat -> Token, capacity: nat, size: nat)
    requires capacity > 0 && size > 0
    ensures CacheOk(AfterPuts(puts, tokens, capacity, size), capacity, size)
    ensures Keys(AfterPuts(puts, tokens, capacity, size)) == Prefix(MostRecent(puts), capacity)
  {
    if puts != [] {
      var before, k := puts[..|puts| - 1], puts[|puts| - 1];
      KeepsMostRecent(before, tokens, capacity, size);
      var c := AfterPuts(before, tokens, capacity, size);
      PutOk(c, k, tokens(|puts| - 1), capacity, size);
      PutKeys(c, k, tokens(|puts| - 1), capacity, size);
      MostRecentDistinct(before);
      PrefixDrop(MostRecent(before), k, capacity);
    }
  }

  // ---- The map and the linked list. ----

  /** The elements of the linked list, in order; the entry of every element; and the element for every key. */
  datatype Lru = Lru(q: seq<nat>, entries: map<nat, Origin>, m: map<string, nat>)

  ghost predicate Unique(q: seq<nat>) {
    forall i, j :: 0 <= i < j < |q| ==> q[i] != q[j]
  }

  ghost predicate Linked(l: Lru) {
    && Unique(l.q)
    && (forall el :: el in l.q ==> el in l.entries && l.entries[el].key in l.m && l.m[l.entries[el].key] == el)
    && (forall k :: k in l.m ==> l.m[k] in l.q)
    && (forall k :: k in l.m && l.m[k] in l.entries ==> l.entries[l.m[k]].key == k)
  }

  ghost function Contents(l: Lru): (c: Cache)
    requires Linked(l)
    ensures |c| == |l.q| && forall i :: 0 <= i < |c| ==> l.q[i] in l.entries && c[i] == l.entries[l.q[i]]
  {
    assert forall i :: 0 <= i < |l.q| ==> l.q[i] in l.q;
    seq(|l.q|, i requires 0 <= i < |l.q| && l.q[i] in l.entries => l.entries[l.q[i]])
  }

  /** The position of an element in the list. */
  function Position(q: seq<nat>, el: nat): (i: nat)
    requires el in q
    ensures i < |q| && q[i] == el
  {
    if q[0] == el then 0 else 1 + Position(q[1..], el)
  }

  function ToFront(q: seq<nat>, el: nat): seq<nat>
    requires el in q
  {
    var i := Position(q, el);
    [el] + q[..i] + q[i + 1..]
  }

  /** The map finds an origin exactly where it is in the list. */
  lemma MapFinds(l: Lru, key: string)
    requires Linked(l) && Distinct(Contents(l))
    ensures key in l.m <==> HasKey(Contents(l), key)
    ensures key in l.m ==> Find(Contents(l), key) == Position(l.q, l.m[key])
  {
    hide Find, Position;
    var c := Contents(l);
    if HasKey(c, key) {
      var i :| 0 <= i < |c| && c[i].key == key;
      assert l.q[i] in l.q;
    }
  }

  lemma ToFrontFacts(q: seq<nat>, el: nat)
    requires Unique(q) && el in q
    ensures Unique(ToFront(q, el)) && forall x :: x in ToFront(q, el) <==> x in q
  {
    hide Position;
    var i := Position(q, el);
    assert q == q[..i] + [el] + q[i + 1..];
  }

  /** An element gets another entry for its key. */
  lemma Relinked(l: Lru, l': Lru, el: nat, o: Origin)
    requires Linked(l) && el in l.q && o.key == l.entries[el].key
    requires Unique(l'.q) && (forall x :: x in l'.q <==> x in l.q) && l'.m == l.m && l'.entries == l.entries[el := o]
    ensures Linked(l')
  {
    hide Unique;
  }

  /** An element gets another entry for its key, and is moved to the front. */
  lemma Touched(l: Lru, el: nat, o: Origin)
    requires Linked(l) && el in l.q && o.key == l.entries[el].key
    ensures var l' := Lru(ToFront(l.q, el), l.entries[el := o], l.m);
            Linked(l') && Contents(l') == [o] + Without(Contents(l), Position(l.q, el))
  {
    hide Linked, Unique, Position, ToFront, Contents;
    UniqueElements(l);
    var l' := Lru(ToFront(l.q, el), l.entries[el := o], l.m);
    ToFrontFacts(l.q, el);
    Relinked(l, l', el, o);
    TouchedContents(l, l', el, o);
  }

  lemma TouchedContents(l: Lru, l': Lru, el: nat, o: Origin)
    requires Linked(l) && el in l.q && Linked(l') && l'.entries == l.entries[el := o] && l'.q == ToFront(l.q, el)
    ensures Contents(l') == [o] + Without(Contents(l), Position(l.q, el))
  {
    hide Linked, Position;
    var i := Position(l.q, el);
    Others(l, i);
  }

  lemma Others(l: Lru, i: nat)
    requires Linked(l) && i < |l.q|
    ensures forall j :: 0 <= j < |l.q| && j != i ==> l.q[j] != l.q[i]
  {
  }

  lemma UniqueElements(l: Lru)
    requires Linked(l)
    ensures Unique(l.q) && forall el :: el in l.q ==> el in l.entries
  {
  }

  /** A new element is put in front. */
  lemma PushedFront(l: Lru, el: nat, o: Origin)
    requires Linked(l) && el !in l.q && o.key !in l.m
    ensures var l' := Lru([el] + l.q, l.entries[el := o], l.m[o.key := el]);
            Linked(l') && Contents(l') == [o] + Contents(l)
  {
    var l' := Lru([el] + l.q, l.entries[el := o], l.m[o.key := el]);
    assert forall x :: x in l'.q <==> x == el || x in l.q;
    NewInFront(l.q, el);
    assert Linked(l') by {
      hide Unique;
    }
    FrontContents(l, l', el, o);
  }

  lemma NewInFront(q: seq<nat>, el: nat)
    requires Unique(q) && el !in q
    ensures Unique([el] + q)
  {
  }

  lemma FrontContents(l: Lru, l': Lru, el: nat, o: Origin)
    requires Linked(l) && Linked(l') && el !in l.q && l'.entries == l.entries[el := o] && l'.q == [el] + l.q
    ensures Contents(l') == [o] + Contents(l)
  {
    hide Linked;
    assert forall i :: 0 <= i < |l.q| ==> l.q[i] in l.q;
  }

  /** An element is removed. */
  lemma Unlinked(l: Lru, el: nat)
    requires Linked(l) && el in l.q
    ensures var i := Position(l.q, el);
            var l' := Lru(l.q[..i] + l.q[i + 1..], l.entries, l.m - {l.entries[el].key});
            Linked(l') && Contents(l') == Without(Contents(l), i)
    ensures var i := Position(l.q, el); el !in l.q[..i] + l.q[i + 1..]
  {
    hide Position, Linked, Contents, Unique;
    UniqueElements(l);
    var i := Position(l.q, el);
    var l' := Lru(l.q[..i] + l.q[i + 1..], l.entries, l.m - {l.entries[el].key});
    RemovedElement(l.q, i);
    StillLinked(l, l', el);
    LessContents(l, l', i);
  }

  lemma StillLinked(l: Lru, l': Lru, el: nat)
    requires Linked(l) && el in l.q && l'.entries == l.entries && l'.m == l.m - {l.entries[el].key}
    requires Unique(l'.q) && forall x :: x in l'.q <==> x in l.q && x != el
    ensures Linked(l')
  {
    hide Unique;
  }

  lemma LessContents(l: Lru, l': Lru, i: nat)
    requires Linked(l) && Linked(l') && i < |l.q| && l'.entries == l.entries && l'.q == l.q[..i] + l.q[i + 1..]
    ensures Contents(l') == Without(Contents(l), i)
  {
    hide Linked;
  }

  lemma RemovedElement(q: seq<nat>, i: nat)
    requires Unique(q) && i < |q|
    ensures Unique(q[..i] + q[i + 1..])
    ensures forall x :: x in q[..i] + q[i + 1..] <==> x in q && x != q[i]
  {
    assert q == q[..i] + [q[i]] + q[i + 1..];
  }

  /** The stores for single origins that the elements of a list have, with their arrays. */
  ghost function ObjectsOf(q: seq<nat>, caches: map<nat, SingleOriginTokenStore>): set<object> {
    (set el | el in q && el in caches :: caches[el]) + (set el | el in q && el in caches :: caches[el].tokens)
  }

  /** Every element has a store of its own. */
  ghost predicate Separate(q: seq<nat>, caches: map<nat, SingleOriginTokenStore>) {
    && (forall el :: el in q ==> el in caches)
    && (forall el, x :: el in q && x in q && el != x ==>
          caches[el] != caches[x] && caches[el].tokens != caches[x].tokens)
  }

  /** An element gets a new store. */
  lemma OneMoreStore(q: seq<nat>, caches: map<nat, SingleOriginTokenStore>, el: nat, cache: SingleOriginTokenStore,
                     q': seq<nat>)
    requires Separate(q, caches) && cache !in ObjectsOf(q, caches) && cache.tokens !in ObjectsOf(q, caches)
    requires forall x :: x in q' ==> x == el || x in q
    ensures Separate(q', caches[el := cache]) && forall x :: x in q ==> x in caches
    ensures ObjectsOf(q', caches[el := cache]) <= ObjectsOf(q, caches) + {cache, cache.tokens}
  {
  }

  class LruTokenStore {
    const capacity: nat
    const singleOriginSize: nat
    var m: map<string, nat>
    var q: seq<nat>

    /** The entry of every element of the list: its key and its tokens. */
    var keys: map<nat, string>
    var caches: map<nat, SingleOriginTokenStore>
    var nextElement: nat

    ghost var entries: map<nat, Origin>

    ghost function V(): Lru
      reads this
    {
      Lru(q, entries, m)
    }

    /** The stores for single origins that are in use, with their arrays. */
    ghost function Objects(): set<object>
      reads this
    {
      ObjectsOf(q, caches)
    }

    /** The entry of an element is in its store. */
    ghost predicate Stored(el: nat)
      requires el in caches
      reads this, caches[el], caches[el].tokens
    {
      && el in keys && el in entries && keys[el] == entries[el].key
      && caches[el].Valid() && caches[el].tokens.Length == singleOriginSize && caches[el].Stack() == entries[el].stack
    }

    ghost predicate Stores()
      reads this, Objects()
    {
      Separate(q, caches) && forall el :: el in q ==> Stored(el)
    }

    ghost predicate Valid()
      reads this, Objects()
    {
      && capacity > 0 && singleOriginSize > 0
      && Linked(V()) && CacheOk(Contents(V()), capacity, singleOriginSize)
      && (forall el :: el in q ==> el < nextElement)
      && Stores()
    }

    ghost function Cached(): Cache
      requires Valid()
      reads this, Objects()
    {
      Contents(V())
    }

    constructor (maxOrigins: nat, tokensPerOrigin: nat)
      requires maxOrigins > 0 && tokensPerOrigin > 0
      ensures capacity == maxOrigins && singleOriginSize == tokensPerOrigin && Objects() == {}
      ensures Valid() && Cached() == []
    {
      capacity, singleOriginSize := maxOrigins, tokensPerOrigin;
      m, q, keys, caches, entries, nextElement := map[], [], map[], map[], map[], 0;
    }

    method Put(key: string, token: Token)
      requires Valid()
      modifies this, Objects()
      ensures fresh(Objects() - old(Objects()))
      ensures Valid()
      ensures Cached() == PutSpec(old(Cached()), key, token, capacity, singleOriginSize)
    {
      hide Linked, CacheOk, Contents, Push, Find, Position, ToFront, Unique, RingOk, StackOf, HasKey, Without;
      PutOk(Cached(), key, token, capacity, singleOriginSize);
      Lookup(key);
      if key in m {
        var el := m[key];
        Add(el, token);
        return;
      }
      var cache := new SingleOriginTokenStore(singleOriginSize);
      cache.Add(token);
      if |q| < capacity {
        PushFront(key, cache);
        return;
      }
      Recycle(key, cache);
    }

    /** The map and the list agree on an origin. */
    lemma Lookup(key: string)
      requires Valid()
      ensures key in m <==> HasKey(Cached(), key)
      ensures key in m ==>
                && m[key] in q && m[key] in entries && m[key] < nextElement
                && var i := Position(q, m[key]);
                   Find(Cached(), key) == i < |Cached()| && Cached()[i] == entries[m[key]] && entries[m[key]].key == key
                   && 0 < |entries[m[key]].stack|
      ensures |q| == |Cached()| <= capacity
    {
      hide Find, Position;
      MapFinds(V(), key);
    }

    /** A token is added to the store of an element, and the element is moved to the front. */
    method Add(el: nat, token: Token)
      requires Linked(V()) && Stores() && el in q && el in entries
      modifies this`entries, this`q, caches[el], caches[el].tokens
      ensures Linked(V()) && Stores() && (forall x :: x in q <==> x in old(q))
      ensures Contents(V()) == [Origin(old(entries)[el].key, Push(old(entries)[el].stack, token, singleOriginSize))]
                               + Without(old(Contents(V())), Position(old(q), el))
    {
      hide Linked, Contents, Push, Position, ToFront, Unique;
      var cache := caches[el];
      assert Stored(el);
      cache.Add(token);
      Touch(el, Origin(entries[el].key, cache.Stack()));
    }

    /** An element gets a key and a store. */
    method Install(el: nat, key: string, cache: SingleOriginTokenStore, ghost o: Origin)
      modifies this`keys, this`caches, this`entries
      ensures keys == old(keys)[el := key] && caches == old(caches)[el := cache] && entries == old(entries)[el := o]
    {
      keys, caches, entries := keys[el := key], caches[el := cache], entries[el := o];
    }

    /** A new element with a store of its own is put in front. */
    method PushFront(key: string, cache: SingleOriginTokenStore)
      requires Linked(V()) && Stores() && key !in m && (forall el :: el in q ==> el < nextElement)
      requires cache.Valid() && cache.tokens.Length == singleOriginSize && cache !in Objects()
      requires cache.tokens !in Objects()
      modifies this`m, this`q, this`keys, this`caches, this`entries, this`nextElement
      ensures Linked(V()) && Stores() && (forall el :: el in q ==> el < nextElement)
      ensures Objects() <= old(Objects()) + {cache, cache.tokens}
      ensures Contents(V()) == [Origin(key, cache.Stack())] + old(Contents(V()))
    {
      hide Linked, Contents, RingOk, StackOf, Separate, ObjectsOf;
      var el := nextElement;
      ghost var o := Origin(key, cache.Stack());
      PushedFront(V(), el, o);
      OneMoreStore(q, caches, el, cache, [el] + q);
      Install(el, key, cache, o);
      q, m := [el] + q, m[key := el];
      nextElement := el + 1;
    }

    /** The element at the back of the list is used for another origin. */
    method Recycle(key: string, cache: SingleOriginTokenStore)
      requires Linked(V()) && Stores() && q != [] && key !in m
      requires cache.Valid() && cache.tokens.Length == singleOriginSize && cache !in Objects()
      requires cache.tokens !in Objects()
      modifies this`m, this`q, this`keys, this`caches, this`entries
      ensures Linked(V()) && Stores() && (forall el :: el in q ==> el in old(q))
      ensures Objects() <= old(Objects()) + {cache, cache.tokens}
      ensures Contents(V()) == [Origin(key, cache.Stack())] + old(Contents(V()))[..|old(q)| - 1]
    {
      hide Linked, Contents, RingOk, StackOf, Separate, ObjectsOf;
      var el := q[|q| - 1];
      var newQ := [el] + q[..|q| - 1];
      ghost var o := Origin(key, cache.Stack());
      RecycledLast(V(), o);
      OneMoreStore(q, caches, el, cache, newQ);
      assert el in q && Stored(el);
      var before := keys[el];
      Install(el, key, cache, o);
      q, m := newQ, (m - {before})[key := el];
    }

    method Pop(key: string) returns (token: Option<Token>)
      requires Valid()
      modifies this, Objects()
      ensures Objects() <= old(Objects())
      ensures Valid()
      ensures (Cached(), token) == PopSpec(old(Cached()), key)
    {
      hide Linked, CacheOk, Contents, Find, Position, ToFront, Unique;
      PopOkSpec(Cached(), key, capacity, singleOriginSize);
      Lookup(key);
      token := None;
      if key in m {
        var el := m[key];
        token := Take(el);
      }
    }

    /** A token is taken from the store of an element; the element is moved to the front, or removed if it has no token
        left. */
    method Take(el: nat) returns (token: Option<Token>)
      requires Linked(V()) && Stores() && el in q && el in entries && entries[el].stack != []
      modifies this`entries, this`q, this`m, caches[el], caches[el].tokens
      ensures Linked(V()) && Stores() && (forall x :: x in q ==> x in old(q))
      ensures var stack := old(entries)[el].stack;
              var n := |stack| - 1;
              && token == Some(stack[n])
              && var rest := Without(old(Contents(V())), Position(old(q), el));
                 Contents(V()) == if n == 0 then rest else [Origin(old(entries)[el].key, stack[..n])] + rest
    {
      hide Linked, Contents, Position, ToFront, Unique;
      var cache := caches[el];
      assert Stored(el);
      token := cache.Pop();
      if cache.len == 0 {
        Unlink(el);
      } else {
        Touch(el, Origin(entries[el].key, cache.Stack()));
      }
    }

    /** The store of an element has changed; the element is moved to the front. */
    method Touch(el: nat, ghost o: Origin)
      requires Linked(V()) && Separate(q, caches) && el in q && el in entries && o.key == entries[el].key
      modifies this`entries, this`q
      ensures Linked(V()) && Contents(V()) == [o] + Without(old(Contents(V())), Position(old(q), el))
      ensures forall x :: x in q <==> x in old(q)
      ensures entries == old(entries)[el := o]
    {
      hide Linked, Contents, Position, ToFront, Unique;
      Touched(V(), el, o);
      UniqueElements(V());
      ToFrontFacts(q, el);
      entries := entries[el := o];
      q := ToFront(q, el);
    }

    /** An element is removed from the list, and its key from the map. */
    method Unlink(el: nat)
      requires Linked(V()) && el in q && el in entries && el in keys && keys[el] == entries[el].key
      modifies this`q, this`m
      ensures Linked(V()) && Contents(V()) == Without(old(Contents(V())), Position(old(q), el))
      ensures forall x :: x in q <==> x in old(q) && x != el
    {
      hide Linked, Contents, Position, Unique;
      Unlinked(V(), el);
      UniqueElements(V());
      var i := Position(q, el);
      RemovedElement(q, i);
      q, m := q[..i] + q[i + 1..], m - {keys[el]};
    }
  }

  lemma RecycledLast(l: Lru, o: Origin)
    requires Linked(l) && l.q != [] && o.key !in l.m
    ensures var el := l.q[|l.q| - 1];
            && el in l.entries
            && var l' := Lru([el] + l.q[..|l.q| - 1], l.entries[el := o], (l.m - {l.entries[el].key})[o.key := el]);
               Linked(l') && Contents(l') == [o] + Contents(l)[..|l.q| - 1] && forall x :: x in l'.q ==> x in l.q
  {
    hide Linked, Contents, Position, Unique;
    var n := |l.q| - 1;
    var el := l.q[n];
    UniqueElements(l);
    LastPosition(l.q);
    Unlinked(l, el);
    assert l.q[..n] + l.q[n + 1..] == l.q[..n] && Without(Contents(l), n) == Contents(l)[..n];
    PushedFront(Lru(l.q[..n], l.entries, l.m - {l.entries[el].key}), el, o);
  }

  lemma LastPosition(q: seq<nat>)
    requires Unique(q) && q != []
    ensures Position(q, q[|q| - 1]) == |q| - 1
  {
    hide Position;
    var i := Position(q, q[|q| - 1]);
  }
}
