/** Which tokens a token store gives out. */
module TokenAnswers {
  import opened Protocol
  import opened TokenRing
  import opened TokenStores
  import opened TokenRuns

  /** The tokens held for an origin, the newest one last. */
  function TokensOf(c: Cache, key: string): seq<Token> {
    var i := Find(c, key);
    if i < |c| then c[i].stack else []
  }

  /** What an operation makes of the tokens of one origin, if nothing is dropped. */
  function Replayed(tokens: seq<Token>, op: Op, key: string, size: nat): seq<Token> {
    if op.key != key then tokens
    else
      match op
      case Put(_, token) =>
        if |tokens| < size then tokens + [token]
        else if size == 0 then []
        else (tokens + [token])[|tokens| + 1 - size..]
      case Pop(_) => if tokens == [] then [] else tokens[..|tokens| - 1]
  }

  /** The tokens after all operations. */
  function Replay(ops: seq<Op>, key: string, size: nat): seq<Token> {
    if ops == [] then [] else Replayed(Replay(ops[..|ops| - 1], key, size), ops[|ops| - 1], key, size)
  }

  lemma FoundAt(c: Cache, key: string, i: nat)
    requires Distinct(c) && i < |c| && c[i].key == key
    ensures Find(c, key) == i && TokensOf(c, key) == c[i].stack
  {
    hide Find;
    assert HasKey(c, key);
  }

  lemma NotFound(c: Cache, key: string)
    requires !HasKey(c, key)
    ensures Find(c, key) == |c| && TokensOf(c, key) == []
  {
  }

  /** The token that is given out is the newest one held for the origin. */
  lemma PopAnswers(c: Cache, key: string, capacity: nat, size: nat)
    requires CacheOk(c, capacity, size)
    ensures var t := TokensOf(c, key);
            PopSpec(c, key).1 == if t == [] then None else Some(t[|t| - 1])
  {
    hide Find;
  }

  /** What remains of the others when one origin is moved to the front or removed. */
  lemma OthersStay(c: Cache, i: nat, key: string)
    requires Distinct(c) && i < |c| && c[i].key != key
    ensures Distinct(Without(c, i)) && TokensOf(Without(c, i), key) == TokensOf(c, key)
    ensures !HasKey(Without(c, i), c[i].key)
  {
    hide Find;
    var rest := Without(c, i);
    if HasKey(c, key) {
      var j :| 0 <= j < |c| && c[j].key == key;
      FoundAt(c, key, j);
      var k := if j < i then j else j - 1;
      assert rest[k] == c[j];
      FoundAt(rest, key, k);
    } else {
      NotFound(c, key);
      NotFound(rest, key);
    }
  }

  lemma InFrontOf(o: Origin, rest: Cache, key: string)
    requires Distinct([o] + rest) && Distinct(rest)
    ensures TokensOf([o] + rest, key) == if o.key == key then o.stack else TokensOf(rest, key)
  {
    hide Find;
    var c := [o] + rest;
    if o.key == key {
      FoundAt(c, key, 0);
    } else if HasKey(rest, key) {
      var j :| 0 <= j < |rest| && rest[j].key == key;
      FoundAt(rest, key, j);
      assert c[j + 1] == rest[j];
      FoundAt(c, key, j + 1);
    } else {
      NotFound(rest, key);
      NotFound(c, key);
    }
  }

  /** The least recently used origin is dropped for a new one. */
  predicate Drops(c: Cache, op: Op, capacity: nat, key: string) {
    op.Put? && Find(c, op.key) == |c| && |c| == capacity > 0 && c[|c| - 1].key == key
  }

  /** What a step does to the tokens of each origin: those of the origin that is used change as they should, all others
      stay, except for those of the origin that is dropped. */
  lemma StepTokens(c: Cache, op: Op, key: string, capacity: nat, size: nat)
    requires CacheOk(c, capacity, size) && capacity > 0 && size > 0
    ensures TokensOf(Step(c, op, capacity, size), key) ==
            if Drops(c, op, capacity, key) then [] else Replayed(TokensOf(c, key), op, key, size)
  {
    hide Find, Push, Step;
    StepShape(c, op, capacity, size);
    var c', i := Step(c, op, capacity, size), Find(c, op.key);
    if op.key == key {
      OwnTokens(c, op, capacity, size);
    } else if i < |c| {
      OthersStay(c, i, key);
      if c' != Without(c, i) {
        assert c' == [c'[0]] + c'[1..];
        InFrontOf(c'[0], Without(c, i), key);
      }
    } else if op.Put? {
      assert c' == [c'[0]] + c'[1..];
      InFrontOf(c'[0], c'[1..], key);
      if |c| == capacity {
        LastDropped(c, key);
      }
    }
  }

  lemma LastDropped(c: Cache, key: string)
    requires Distinct(c) && c != []
    ensures TokensOf(c[..|c| - 1], key) == if c[|c| - 1].key == key then [] else TokensOf(c, key)
  {
    hide Find;
    var rest := c[..|c| - 1];
    if c[|c| - 1].key != key && HasKey(c, key) {
      var j :| 0 <= j < |c| && c[j].key == key;
      assert rest[j] == c[j];
      FoundAt(rest, key, j);
      FoundAt(c, key, j);
    } else {
      NotFound(rest, key);
      if c[|c| - 1].key != key {
        NotFound(c, key);
      }
    }
  }

  lemma OwnTokens(c: Cache, op: Op, capacity: nat, size: nat)
    requires CacheOk(c, capacity, size) && capacity > 0 && size > 0
    ensures TokensOf(Step(c, op, capacity, size), op.key) == Replayed(TokensOf(c, op.key), op, op.key, size)
  {
    hide Find;
    StepShape(c, op, capacity, size);
    var c', i := Step(c, op, capacity, size), Find(c, op.key);
    if op.Put? {
      FoundAt(c', op.key, 0);
    } else if i < |c| && |c[i].stack| > 1 {
      FoundAt(c', op.key, 0);
    } else if i < |c| {
      GoneWithout(c, i);
      NotFound(c', op.key);
    }
  }

  lemma GoneWithout(c: Cache, i: nat)
    requires Distinct(c) && i < |c|
    ensures !HasKey(Without(c, i), c[i].key)
  {
  }

  /** As long as there is room for all origins: the tokens held for each of them are those put and not popped, and a pop
      gives out the newest one. */
  lemma {:induction false} HoldsAll(ops: seq<Op>, key: string, capacity: nat, size: nat)
    requires capacity > 0 && size > 0 && |Used(ops)| <= capacity
    ensures var t := Replay(ops, key, size);
            && TokensOf(After(ops, capacity, size), key) == t
            && PopSpec(After(ops, capacity, size), key).1 == if t == [] then None else Some(t[|t| - 1])
  {
    hide Find, Step, PopSpec, Used, CacheOk, Drops, Replayed;
    OrderedByUse(ops, capacity, size);
    PopAnswers(After(ops, capacity, size), key, capacity, size);
    if ops != [] {
      var before, op := ops[..|ops| - 1], ops[|ops| - 1];
      var c := After(before, capacity, size);
      UsedNext(before, op);
      assert ops == before + [op];
      HoldsAll(before, key, capacity, size);
      OrderedByUse(before, capacity, size);
      StepTokens(c, op, key, capacity, size);
      NothingDropped(before, op, key, capacity, size);
    } else {
      NotFound([], key);
    }
  }

  /** All origins held were used. */
  lemma {:induction false} KeysUsed(ops: seq<Op>, capacity: nat, size: nat)
    requires capacity > 0 && size > 0
    ensures forall i :: 0 <= i < |After(ops, capacity, size)| ==> After(ops, capacity, size)[i].key in Used(ops)
  {
    hide Find, Step, Used;
    if ops != [] {
      var before, op := ops[..|ops| - 1], ops[|ops| - 1];
      var c := After(before, capacity, size);
      assert ops == before + [op];
      KeysUsed(before, capacity, size);
      UsedNext(before, op);
      OrderedByUse(before, capacity, size);
      StepShape(c, op, capacity, size);
      var c' := After(ops, capacity, size);
      forall i | 0 <= i < |c'|
        ensures c'[i].key == op.key || exists j :: 0 <= j < |c| && c[j].key == c'[i].key
      {
        assert i > 0 ==> c'[i] == c'[1..][i - 1];
      }
    }
  }

  lemma NothingDropped(before: seq<Op>, op: Op, key: string, capacity: nat, size: nat)
    requires capacity > 0 && size > 0 && |Used(before + [op])| <= capacity
    ensures !Drops(After(before, capacity, size), op, capacity, key)
  {
    hide Used, After;
    var c := After(before, capacity, size);
    UsedNext(before, op);
    KeysUsed(before, capacity, size);
    OrderedByUse(before, capacity, size);
    if Drops(c, op, capacity, key) {
      NoneFound(c, op.key);
      TooManyKeys(c, op.key, Used(before + [op]), capacity);
    }
  }

  lemma NoneFound(c: Cache, key: string)
    requires Find(c, key) == |c|
    ensures !HasKey(c, key)
  {
  }

  lemma UsedNext(before: seq<Op>, op: Op)
    ensures Used(before + [op]) == Used(before) + {op.key} && |Used(before)| <= |Used(before + [op])|
  {
    var ops := before + [op];
    assert ops[|before|] == op && forall i :: 0 <= i < |before| ==> ops[i] == before[i];
    SubsetSize(Used(before), Used(ops));
  }

  /** A full cache and another key are more keys than there is room for. */
  lemma TooManyKeys(c: Cache, key: string, used: set<string>, capacity: nat)
    requires Distinct(c) && |c| == capacity && !HasKey(c, key) && key in used
    requires forall i :: 0 <= i < |c| ==> c[i].key in used
    ensures |used| > capacity
  {
    InFrontSize(c, |c|);
    var all := InFront(c, |c|) + {key};
    assert key !in InFront(c, |c|);
    SubsetSize(all, used);
  }

  /** The token that was put last is the one that is given out next, as long as fewer other origins were used in between
      than there is room for. */
  lemma LatestComesOut(ops: seq<Op>, key: string, token: Token, more: seq<Op>, capacity: nat, size: nat)
    requires capacity > 0 && size > 0 && key !in Used(more) && |Used(more)| < capacity
    ensures PopSpec(After(ops + [Put(key, token)] + more, capacity, size), key).1 == Some(token)
  {
    hide Find, PopSpec, Step, At;
    var ops' := ops + [Put(key, token)];
    OrderedByUse(ops, capacity, size);
    OrderedByUse(ops', capacity, size);
    assert ops'[..|ops|] == ops;
    var c := After(ops', capacity, size);
    PutInFront(After(ops, capacity, size), key, token, capacity, size);
    KeepsRecent(ops', more, c[0], capacity, size);
    OrderedByUse(ops' + more, capacity, size);
    FoundHeld(After(ops' + more, capacity, size), c[0], Used(more));
    PopAnswers(After(ops' + more, capacity, size), key, capacity, size);
  }

  lemma PutInFront(c: Cache, key: string, token: Token, capacity: nat, size: nat)
    requires capacity > 0 && size > 0
    ensures var c' := Step(c, Put(key, token), capacity, size);
            && c' != [] && c'[0].key == key && c'[0].stack != [] && c'[0].stack[|c'[0].stack| - 1] == token
  {
    hide Find;
  }

  lemma FoundHeld(c: Cache, o: Origin, used: set<string>)
    requires Distinct(c) && At(c, o, used)
    ensures TokensOf(c, o.key) == o.stack
  {
    var i: nat :| i < |c| && c[i] == o && InFront(c, i) <= used;
    FoundAt(c, o.key, i);
  }
}
