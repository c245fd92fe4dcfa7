/** quic-go-bbr/token_store.go: the tokens of one origin, in a ring buffer. */
module TokenRing {
  import opened Protocol

  type Token = seq<byte>

  /** A stack of at most `size` tokens, which drops its oldest one: the newest token is last. */
  function Push(stack: seq<Token>, token: Token, size: nat): seq<Token> {
    var all := stack + [token];
    if |all| > size then all[|all| - size..] else all
  }

  /** index */
  function Index(i: int, size: int): int
    requires size > 0
  {
    (i + size) % size
  }

  lemma IndexWraps(i: int, size: int)
    requires size > 0 && -1 <= i <= size
    ensures Index(i, size) == if i < 0 then size - 1 else if i == size then 0 else i
  {
  }

  /** Where the token is that was added `age` tokens before the newest one, when the next one goes to `p`. */
  function Slot(p: nat, size: nat, age: nat): int {
    if age < p then p - 1 - age else p - 1 - age + size
  }

  /** The slots in use are the `len` slots before `p`. */
  ghost predicate RingOk(a: seq<Option<Token>>, p: nat, len: nat) {
    && p < |a| && len <= |a|
    && (forall age: nat :: age < |a| ==> (a[Slot(p, |a|, age)].Some? <==> age < len))
  }

  ghost function TokenAt(a: seq<Option<Token>>, p: nat, len: nat, age: nat): Token
    requires RingOk(a, p, len) && age < len
  {
    a[Slot(p, |a|, age)].value
  }

  /** The tokens, the newest one last. */
  ghost function StackOf(a: seq<Option<Token>>, p: nat, len: nat): (s: seq<Token>)
    requires RingOk(a, p, len)
    ensures |s| == len
  {
    seq(len, i requires 0 <= i < len => TokenAt(a, p, len, len - 1 - i))
  }

  lemma AddOk(a: seq<Option<Token>>, p: nat, len: nat, token: Token)
    requires RingOk(a, p, len)
    ensures var a', p' := a[p := Some(token)], if p + 1 == |a| then 0 else p + 1;
            var len' := if len < |a| then len + 1 else len;
            && RingOk(a', p', len')
            && TokenAt(a', p', len', 0) == token
            && (forall age: nat :: 0 < age < len' ==> TokenAt(a', p', len', age) == TokenAt(a, p, len, age - 1))
  {
    var p' := if p + 1 == |a| then 0 else p + 1;
    assert Slot(p', |a|, 0) == p;
    forall age: nat | 0 < age < |a|
      ensures Slot(p', |a|, age) == Slot(p, |a|, age - 1) != p
    {
    }
  }

  lemma AddPushes(a: seq<Option<Token>>, p: nat, len: nat, token: Token)
    requires RingOk(a, p, len)
    ensures var a', p' := a[p := Some(token)], if p + 1 == |a| then 0 else p + 1;
            var len' := if len < |a| then len + 1 else len;
            RingOk(a', p', len') && StackOf(a', p', len') == Push(StackOf(a, p, len), token, |a|)
  {
    hide RingOk, TokenAt;
    AddOk(a, p, len, token);
    Bounded(a, p, len);
  }

  lemma Bounded(a: seq<Option<Token>>, p: nat, len: nat)
    requires RingOk(a, p, len)
    ensures p < |a| && len <= |a|
  {
  }

  lemma PopOk(a: seq<Option<Token>>, p: nat, len: nat)
    requires RingOk(a, p, len)
    ensures var p', len' := if p == 0 then |a| - 1 else p - 1, if len > 0 then len - 1 else 0;
            var a' := a[p' := None];
            && RingOk(a', p', len')
            && a[p'] == (if len > 0 then Some(TokenAt(a, p, len, 0)) else None)
            && (forall age: nat :: age < len' ==> TokenAt(a', p', len', age) == TokenAt(a, p, len, age + 1))
  {
    var p' := if p == 0 then |a| - 1 else p - 1;
    assert Slot(p, |a|, 0) == p' && Slot(p', |a|, |a| - 1) == p';
    forall age: nat | age < |a| - 1
      ensures Slot(p', |a|, age) == Slot(p, |a|, age + 1) != p'
    {
    }
  }

  lemma PopPops(a: seq<Option<Token>>, p: nat, len: nat)
    requires RingOk(a, p, len)
    ensures var p', len' := if p == 0 then |a| - 1 else p - 1, if len > 0 then len - 1 else 0;
            var s := StackOf(a, p, len);
            && 0 <= p' < |a| && RingOk(a[p' := None], p', len')
            && a[p'] == (if s == [] then None else Some(s[|s| - 1]))
            && StackOf(a[p' := None], p', len') == (if s == [] then [] else s[..|s| - 1])
  {
    hide RingOk, TokenAt;
    Bounded(a, p, len);
    PopOk(a, p, len);
  }

  class SingleOriginTokenStore {
    const tokens: array<Option<Token>>
    var len: nat
    var p: nat

    ghost predicate Valid()
      reads this, tokens
    {
      RingOk(tokens[..], p, len)
    }

    ghost function Stack(): seq<Token>
      requires Valid()
      reads this, tokens
    {
      StackOf(tokens[..], p, len)
    }

    constructor (size: nat)
      requires size > 0
      ensures Valid() && Stack() == [] && tokens.Length == size && fresh(tokens)
    {
      tokens := new Option<Token>[size](i => None);
      len, p := 0, 0;
    }

    method Add(token: Token)
      requires Valid()
      modifies this, tokens
      ensures Valid() && Stack() == Push(old(Stack()), token, tokens.Length)
    {
      hide RingOk, StackOf, Push;
      Bounded(tokens[..], p, len);
      AddPushes(tokens[..], p, len, token);
      IndexWraps(p + 1, tokens.Length);
      tokens[p] := Some(token);
      assert tokens[..] == old(tokens[..])[p := Some(token)];
      p := Index(p + 1, tokens.Length);
      len := if len + 1 < tokens.Length then len + 1 else tokens.Length;
    }

    /** Pop; the newest token, if there is one. */
    method Pop() returns (token: Option<Token>)
      requires Valid()
      modifies this, tokens
      ensures token == if old(Stack()) == [] then None else Some(old(Stack())[|old(Stack())| - 1])
      ensures Valid()
      ensures Stack() == if old(Stack()) == [] then [] else old(Stack())[..|old(Stack())| - 1]
    {
      hide RingOk, StackOf;
      Bounded(tokens[..], p, len);
      PopPops(tokens[..], p, len);
      IndexWraps(p - 1, tokens.Length);
      p := Index(p - 1, tokens.Length);
      token := tokens[p];
      tokens[p] := None;
      assert tokens[..] == old(tokens[..])[p := None];
      len := if len > 0 then len - 1 else 0;
    }
  }
}
