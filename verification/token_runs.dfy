/** Whole runs of a token store for many origins: tokens are put and popped in any order. */
module TokenRuns {
  import opened Protocol
  import opened TokenRing
  import opened TokenStores

  datatype Op = Put(key: string, token: Token) | Pop(key: string)

  function After(ops: seq<Op>, capacity: nat, size: nat): Cache
    requires capacity > 0
  {
    if ops == [] then [] else Step(After(ops[..|ops| - 1], capacity, size), ops[|ops| - 1], capacity, size)
  }

  function Step(c: Cache, op: Op, capacity: nat, size: nat): Cache
    requires capacity > 0
  {
    match op
    case Put(key, token) => PutSpec(c, key, token, capacity, size)
    case Pop(key) => PopSpec(c, key).0
  }

  /** When a key was last used, or -1. */
  function LastUse(ops: seq<Op>, key: string): (i: int)
    ensures -1 <= i < |ops|
  {
    if ops == [] then -1
    else if ops[|ops| - 1].key == key then |ops| - 1
    else LastUse(ops[..|ops| - 1], key)
  }

  /** The origins are in the order of their last use. */
  ghost predicate ByUse(c: Cache, ops: seq<Op>) {
    && (forall i, j :: 0 <= i < j < |c| ==> LastUse(ops, c[i].key) > LastUse(ops, c[j].key))
    && (forall i :: 0 <= i < |c| ==> LastUse(ops, c[i].key) >= 0)
  }

  /** What a step makes of the cache: the origin is moved to the front or removed, or another one is put in front of the
      cache. */
  lemma StepShape(c: Cache, op: Op, capacity: nat, size: nat)
    requires capacity > 0 && size > 0 && CacheOk(c, capacity, size)
    ensures CacheOk(Step(c, op, capacity, size), capacity, size)
    ensures var c', i := Step(c, op, capacity, size), Find(c, op.key);
            if i < |c| then
              c' == Without(c, i) || (c' != [] && c'[0].key == op.key && c'[1..] == Without(c, i))
            else
              || (op.Pop? && c' == c)
              || (op.Put? && c' != [] && c'[0].key == op.key && c'[1..] == if |c| < capacity then c else c[..|c| - 1])
  {
    hide Find, Push;
    match op
    case Put(key, token) =>
      PutOk(c, key, token, capacity, size);
    case Pop(key) =>
      PopOkSpec(c, key, capacity, size);
  }

  /** The cache is always in the order of the last use, whatever is put and popped. */
  lemma {:induction false} OrderedByUse(ops: seq<Op>, capacity: nat, size: nat)
    requires capacity > 0 && size > 0
    ensures CacheOk(After(ops, capacity, size), capacity, size) && ByUse(After(ops, capacity, size), ops)
  {
    hide CacheOk, Step;
    if ops == [] {
      NoOrigins(capacity, size);
    } else {
      var before, op := ops[..|ops| - 1], ops[|ops| - 1];
      assert ops == before + [op];
      OrderedByUse(before, capacity, size);
      StepByUse(After(before, capacity, size), before, op, capacity, size);
    }
  }

  lemma StepByUse(c: Cache, before: seq<Op>, op: Op, capacity: nat, size: nat)
    requires capacity > 0 && size > 0 && CacheOk(c, capacity, size) && ByUse(c, before)
    ensures CacheOk(Step(c, op, capacity, size), capacity, size) && ByUse(Step(c, op, capacity, size), before + [op])
  {
    hide Find, CacheOk, Step, ByUse, HasKey, Without;
    StepShape(c, op, capacity, size);
    KeysDistinct(c, capacity, size);
    var c', ops := Step(c, op, capacity, size), before + [op];
    if HasKey(c, op.key) {
      OthersByUse(c, before, op);
      FrontByUse(c', Without(c, Find(c, op.key)), ops);
    } else {
      SameUse(c, before, op);
      FrontByUse(c', c, ops);
      FrontByUse(c', AllButLast(c), ops);
    }
  }

  function AllButLast(c: Cache): Cache {
    if c == [] then [] else c[..|c| - 1]
  }

  lemma NoOrigins(capacity: nat, size: nat)
    ensures CacheOk([], capacity, size)
  {
  }

  lemma KeysDistinct(c: Cache, capacity: nat, size: nat)
    requires CacheOk(c, capacity, size)
    ensures Distinct(c) && |c| <= capacity
  {
  }

  lemma SameUse(c: Cache, before: seq<Op>, op: Op)
    requires ByUse(c, before) && !HasKey(c, op.key)
    ensures ByUse(c, before + [op]) && ByUse(AllButLast(c), before + [op]) && !HasKey(AllButLast(c), op.key)
  {
    assert (before + [op])[..|before|] == before;
    assert forall i :: 0 <= i < |c| ==> c[i].key != op.key;
  }

  lemma OthersByUse(c: Cache, before: seq<Op>, op: Op)
    requires ByUse(c, before) && HasKey(c, op.key) && Distinct(c)
    ensures ByUse(Without(c, Find(c, op.key)), before + [op]) && !HasKey(Without(c, Find(c, op.key)), op.key)
  {
    hide Find;
    assert (before + [op])[..|before|] == before;
    var i := Find(c, op.key);
    var rest := Without(c, i);
    forall j | 0 <= j < |rest|
      ensures rest[j] == c[if j < i then j else j + 1] && rest[j].key != op.key
    {
    }
  }

  lemma FrontByUse(c: Cache, rest: Cache, ops: seq<Op>)
    requires ops != [] && ByUse(rest, ops) && !HasKey(rest, ops[|ops| - 1].key)
    ensures c != [] && c[0].key == ops[|ops| - 1].key && c[1..] == rest ==> ByUse(c, ops)
  {
    if c != [] && c[0].key == ops[|ops| - 1].key && c[1..] == rest {
      assert forall i :: 0 < i < |c| ==> c[i] == rest[i - 1];
    }
  }

  /** A token for another origin, put into a full cache, drops exactly the origin that was not used for the longest
      time. */
  lemma DropsOldest(ops: seq<Op>, key: string, token: Token, capacity: nat, size: nat)
    requires capacity > 0 && size > 0
    ensures var c, c' := After(ops, capacity, size), After(ops + [Put(key, token)], capacity, size);
            !HasKey(c, key) && |c| == capacity ==>
              && c' == [Origin(key, [token])] + c[..|c| - 1]
              && forall i :: 0 <= i < |c| - 1 ==> LastUse(ops, c[i].key) > LastUse(ops, c[|c| - 1].key)
  {
    hide Find;
    OrderedByUse(ops, capacity, size);
    assert (ops + [Put(key, token)])[..|ops|] == ops && [] + [token] == [token];
  }

  // ---- How long an origin is kept. ----

  /** The keys that are used. */
  function Used(ops: seq<Op>): set<string> {
    set i | 0 <= i < |ops| :: ops[i].key
  }

  /** The keys in front of position `i`. */
  function InFront(c: Cache, i: nat): set<string>
    requires i <= |c|
  {
    set j | 0 <= j < i :: c[j].key
  }

  lemma {:induction false} InFrontSize(c: Cache, i: nat)
    requires Distinct(c) && i <= |c|
    ensures |InFront(c, i)| == i
  {
    if i > 0 {
      InFrontSize(c, i - 1);
      var key := c[i - 1].key;
      assert key !in InFront(c, i - 1);
      assert InFront(c, i) == InFront(c, i - 1) + {key};
    }
  }

  /** An origin is where it is, with its tokens, and only keys in `used` are in front of it. */
  ghost predicate At(c: Cache, o: Origin, used: set<string>) {
    exists i: nat :: i < |c| && c[i] == o && InFront(c, i) <= used
  }

  /** An operation on another key leaves it there, unless that is one key too many. */
  lemma StepKeeps(c: Cache, op: Op, o: Origin, used: set<string>, capacity: nat, size: nat)
    requires capacity > 0 && size > 0 && CacheOk(c, capacity, size) && At(c, o, used) && op.key != o.key
    requires |used + {op.key}| < capacity
    ensures At(Step(c, op, capacity, size), o, used + {op.key})
  {
    hide Find, Step, InFront;
    var i: nat :| i < |c| && c[i] == o && InFront(c, i) <= used;
    StepShape(c, op, capacity, size);
    KeysDistinct(c, capacity, size);
    var c', j := Step(c, op, capacity, size), Find(c, op.key);
    if j < |c| {
      MovedKeeps(c, c', i, j, used);
    } else if op.Put? {
      NotLast(c, op.key, i, used, capacity);
      PushedKeeps(c, c', i, used, op.key, if |c| < capacity then |c| else |c| - 1);
    } else {
      SubsetPlus(InFront(c, i), used, op.key);
    }
  }

  lemma SubsetPlus(a: set<string>, b: set<string>, k: string)
    requires a <= b
    ensures a <= b + {k}
  {
  }

  lemma NotLast(c: Cache, key: string, i: nat, used: set<string>, capacity: nat)
    requires Distinct(c) && !HasKey(c, key) && i < |c| <= capacity && InFront(c, i) <= used && |used + {key}| < capacity
    ensures i < capacity - 1
  {
    InFrontSize(c, i);
    assert key !in InFront(c, i);
    SubsetSize(InFront(c, i) + {key}, used + {key});
  }

  lemma PushedKeeps(c: Cache, c': Cache, i: nat, used: set<string>, key: string, n: nat)
    requires i < n <= |c| && c' != [] && c'[0].key == key && c'[1..] == c[..n] && InFront(c, i) <= used
    ensures At(c', c[i], used + {key})
  {
    assert c'[i + 1] == c[..n][i] == c[i];
    forall j | 0 <= j < i + 1
      ensures c'[j].key in used + {key}
    {
      if j > 0 {
        assert c'[j] == c[..n][j - 1] == c[j - 1];
        assert c[j - 1].key in InFront(c, i);
      }
    }
    assert InFront(c', i + 1) <= used + {key};
  }

  lemma MovedKeeps(c: Cache, c': Cache, i: nat, j: nat, used: set<string>)
    requires Distinct(c) && i < |c| && j < |c| && i != j && InFront(c, i) <= used
    requires c' == Without(c, j) || (c' != [] && c'[0].key == c[j].key && c'[1..] == Without(c, j))
    ensures At(c', c[i], used + {c[j].key})
  {
    var rest := Without(c, j);
    var i' := if j < i then i - 1 else i;
    assert rest[i'] == c[i];
    forall k | 0 <= k < i'
      ensures rest[k].key in used
    {
      assert rest[k] == c[if k < j then k else k + 1];
      assert rest[k].key in InFront(c, i);
    }
    if c' == rest {
      assert InFront(c', i') <= used + {c[j].key};
    } else {
      assert c'[i' + 1] == rest[i'];
      forall k | 0 <= k < i' + 1
        ensures c'[k].key in used + {c[j].key}
      {
        if k > 0 {
          assert c'[k] == rest[k - 1];
        }
      }
      assert InFront(c', i' + 1) <= used + {c[j].key};
    }
  }

  /** An origin that was just used stays in the cache with its tokens, until `capacity` other keys were used. */
  lemma {:induction false} KeepsRecent(ops: seq<Op>, more: seq<Op>, o: Origin, capacity: nat, size: nat)
    requires capacity > 0 && size > 0
    requires var c := After(ops, capacity, size); c != [] && c[0] == o
    requires o.key !in Used(more) && |Used(more)| < capacity
    ensures At(After(ops + more, capacity, size), o, Used(more))
    decreases |more|
  {
    hide At, Step, InFront;
    if more == [] {
      assert ops + more == ops;
      AtFront(After(ops, capacity, size), o);
    } else {
      var n := |more| - 1;
      var before, op := more[..n], more[n];
      assert (ops + more)[..|ops + more| - 1] == ops + before;
      assert Used(more) == Used(before) + {op.key};
      SubsetSize(Used(before), Used(more));
      KeepsRecent(ops, before, o, capacity, size);
      OrderedByUse(ops + before, capacity, size);
      StepKeeps(After(ops + before, capacity, size), op, o, Used(before), capacity, size);
    }
  }

  lemma AtFront(c: Cache, o: Origin)
    requires c != [] && c[0] == o
    ensures At(c, o, {})
  {
    assert InFront(c, 0) == {};
  }
}
