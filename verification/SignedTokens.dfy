/** The local provider's signed-token map: sweeping it at any time is invisible
    to every later validation. */
module SignedTokens {
  import opened Wrappers

  type Token = int
  type Key = int

  datatype Kind = Upload | Download

  datatype Entry = Entry(key: Key, expiresAt: int, kind: Kind)

  type Tokens = map<Token, Entry>

  // ----- what a run of the provider shows --------------------------------------------------

  datatype Op =
    | Issue(token: Token, entry: Entry)
    | Validate(token: Token, kind: Kind)
    | Consume(token: Token)
    | Sweep

  /** An operation and the time at which it runs. */
  datatype Timed = Timed(at: int, op: Op)

  function Swept(m: Tokens, now: int): Tokens {
    map t | t in m && !(m[t].expiresAt < now) :: m[t]
  }

  /** validateUploadToken and validateDownloadToken. */
  function Validated(m: Tokens, token: Token, kind: Kind, now: int): Option<Key> {
    if token in m && m[token].kind == kind && now <= m[token].expiresAt then Some(m[token].key) else None
  }

  function AfterValidate(m: Tokens, token: Token, kind: Kind, now: int): Tokens {
    if token in m && m[token].kind == kind && now > m[token].expiresAt then m - {token} else m
  }

  function After(m: Tokens, e: Timed): Tokens {
    match e.op
    case Issue(t, entry) => m[t := entry]
    case Validate(t, kind) => AfterValidate(m, t, kind, e.at)
    case Consume(t) => m - {t}
    case Sweep => Swept(m, e.at)
  }

  /** The answers callers get, in order. */
  function Answers(m: Tokens, run: seq<Timed>): seq<Option<Key>>
    decreases |run|
  {
    if run == [] then []
    else (if run[0].op.Validate? then [Validated(m, run[0].op.token, run[0].op.kind, run[0].at)] else [])
         + Answers(After(m, run[0]), run[1..])
  }

  function WithoutSweeps(run: seq<Timed>): seq<Timed> {
    if run == [] then []
    else (if run[0].op.Sweep? then [] else [run[0]]) + WithoutSweeps(run[1..])
  }

  ghost predicate Chronological(now: int, run: seq<Timed>)
    decreases |run|
  {
    run == [] || (now <= run[0].at && Chronological(run[0].at, run[1..]))
  }

  /** The maps differ only in tokens that no validation from now on accepts. */
  ghost predicate Alike(m: Tokens, n: Tokens, now: int) {
    && (forall t :: t in m && t in n ==> m[t] == n[t])
    && (forall t :: t in m && t !in n ==> m[t].expiresAt < now)
    && (forall t :: t in n && t !in m ==> n[t].expiresAt < now)
  }

  lemma {:induction false} AlikeMapsAnswerAlike(m: Tokens, n: Tokens, now: int, run: seq<Timed>)
    requires Alike(m, n, now) && Chronological(now, run)
    ensures Answers(m, run) == Answers(n, WithoutSweeps(run))
    decreases |run|
  {
    if run != [] {
      var e, rest := run[0], run[1..];
      if e.op.Sweep? {
        assert Alike(Swept(m, e.at), n, e.at);
        AlikeMapsAnswerAlike(Swept(m, e.at), n, e.at, rest);
        assert WithoutSweeps(run) == WithoutSweeps(rest);
      } else {
        assert Alike(After(m, e), After(n, e), e.at);
        AlikeMapsAnswerAlike(After(m, e), After(n, e), e.at, rest);
        var without := WithoutSweeps(run);
        assert without == [e] + WithoutSweeps(rest) && without[1..] == WithoutSweeps(rest);
      }
    }
  }

  /** The sweeper is invisible: every run answers like the same run without it. */
  lemma SweepingIsInvisible(m: Tokens, now: int, run: seq<Timed>)
    requires Chronological(now, run)
    ensures Answers(m, run) == Answers(m, WithoutSweeps(run))
  {
    AlikeMapsAnswerAlike(m, m, now, run);
  }

  /** The map after a run. */
  function AfterAll(m: Tokens, run: seq<Timed>): Tokens
    decreases |run|
  {
    if run == [] then m else AfterAll(After(m, run[0]), run[1..])
  }

  predicate Issues(run: seq<Timed>, token: Token) {
    exists i :: 0 <= i < |run| && run[i].op.Issue? && run[i].op.token == token
  }

  predicate Consumes(run: seq<Timed>, token: Token) {
    exists i :: 0 <= i < |run| && run[i].op.Consume? && run[i].op.token == token
  }

  predicate EndsBy(now: int, run: seq<Timed>, at: int) {
    now <= at && forall i :: 0 <= i < |run| ==> run[i].at <= at
  }

  /** An issued token is good for its own kind until its expiry and no longer,
      whatever else happens to the map, until it is consumed. */
  lemma {:induction false} TokenLivesUntilItsExpiry(m: Tokens, now: int, token: Token, entry: Entry, run: seq<Timed>,
                                                    kind: Kind, at: int)
    requires if token in m then m[token] == entry else entry.expiresAt < now
    requires Chronological(now, run) && EndsBy(now, run, at)
    requires !Issues(run, token) && !Consumes(run, token)     // randomBytes gives no token twice
    ensures Validated(AfterAll(m, run), token, kind, at)
            == if kind == entry.kind && at <= entry.expiresAt then Some(entry.key) else None
    decreases |run|
  {
    if run != [] {
      var e, rest := run[0], run[1..];
      assert forall i :: 0 <= i < |rest| ==> rest[i] == run[i + 1];
      TokenLivesUntilItsExpiry(After(m, e), e.at, token, entry, rest, kind, at);
    }
  }

  /** A token that is consumed stays refused, at any time and for any kind. */
  lemma {:induction false} ConsumedStaysRefused(m: Tokens, token: Token, run: seq<Timed>, kind: Kind, at: int)
    requires token !in m && !Issues(run, token)
    ensures Validated(AfterAll(m, run), token, kind, at) == None
    decreases |run|
  {
    if run != [] {
      var rest := run[1..];
      assert forall i :: 0 <= i < |rest| ==> rest[i] == run[i + 1];
      ConsumedStaysRefused(After(m, run[0]), token, rest, kind, at);
    }
  }

  /** Nobody else's validations change with one token's entry. */
  ghost predicate OthersAnswerAlike(m: Tokens, n: Tokens, token: Token) {
    forall other, kind, at :: other != token ==> Validated(m, other, kind, at) == Validated(n, other, kind, at)
  }

  // ----- the provider ---------------------------------------------------------------------------

  class LocalTokens {
    var tokens: Tokens

    /** The two generate calls: a fresh token for one key and one kind. */
    method Issue(token: Token, key: Key, kind: Kind, now: int, expiresInSeconds: int)
      modifies this
      ensures tokens == After(old(tokens), Timed(now, Op.Issue(token, Entry(key, now + expiresInSeconds * 1000, kind))))
      // it opens its key, for its kind, for the seconds asked for
      ensures forall k, at :: Validated(tokens, token, k, at)
                == if k == kind && at <= now + expiresInSeconds * 1000 then Some(key) else None
      ensures OthersAnswerAlike(old(tokens), tokens, token)
    {
      tokens := tokens[token := Entry(key, now + expiresInSeconds * 1000, kind)];
    }

    method ValidateToken(token: Token, kind: Kind, now: int) returns (r: Option<Key>)
      modifies this
      ensures r == Validated(old(tokens), token, kind, now)
      ensures tokens == AfterValidate(old(tokens), token, kind, now)
    {
      if token !in tokens {
        return None;
      }
      var data := tokens[token];
      if data.kind != kind {
        return None;
      }
      if now > data.expiresAt {
        tokens := tokens - {token};
        return None;
      }
      return Some(data.key);
    }

    method ConsumeUploadToken(token: Token, ghost now: int)
      modifies this
      ensures tokens == After(old(tokens), Timed(now, Consume(token)))
      // no validation accepts it any more
      ensures forall kind, at :: Validated(tokens, token, kind, at) == None
      ensures OthersAnswerAlike(old(tokens), tokens, token)
    {
      tokens := tokens - {token};
    }

    /** The timer's loop over the entries, in any order. */
    method SweepExpired(now: int, order: seq<Token>) returns (cleaned: int)
      requires forall t :: t in tokens ==> t in order
      requires forall i :: 0 <= i < |order| ==> order[i] in tokens
      requires forall i, j :: 0 <= i < j < |order| ==> order[i] != order[j]
      modifies this
      ensures tokens == Swept(old(tokens), now)
      ensures cleaned == |old(tokens)| - |tokens|
    {
      cleaned := 0;
      assert SweptSome(tokens, now, order[..0]) == tokens;
      for i := 0 to |order|
        invariant tokens == SweptSome(old(tokens), now, order[..i])
        invariant cleaned == |old(tokens)| - |tokens|
      {
        var token := order[i];
        SweepOne(old(tokens), now, order, i);
        if tokens[token].expiresAt < now {
          tokens := tokens - {token};
          cleaned := cleaned + 1;
        }
      }
      assert order[..|order|] == order;
      AllSwept(old(tokens), now, order);
    }
  }

  /** The map once the sweep has passed the listed tokens. */
  ghost function SweptSome(m: Tokens, now: int, passed: seq<Token>): Tokens {
    map t | t in m && !(t in passed && m[t].expiresAt < now) :: m[t]
  }

  lemma AllSwept(m: Tokens, now: int, order: seq<Token>)
    requires forall t :: t in m ==> t in order
    ensures SweptSome(m, now, order) == Swept(m, now)
  {
    forall t ensures t in SweptSome(m, now, order) <==> t in Swept(m, now) {
      if t in m { assert t in order; }
    }
  }

  lemma SweepOne(m: Tokens, now: int, order: seq<Token>, i: nat)
    requires i < |order| && order[i] in m && order[i] !in order[..i]
    ensures var before, after := SweptSome(m, now, order[..i]), SweptSome(m, now, order[..i + 1]);
      && order[i] in before && before[order[i]] == m[order[i]]
      && after == (if m[order[i]].expiresAt < now then before - {order[i]} else before)
      && |after| == if m[order[i]].expiresAt < now then |before| - 1 else |before|
  {
    var before, after := SweptSome(m, now, order[..i]), SweptSome(m, now, order[..i + 1]);
    assert order[..i + 1] == order[..i] + [order[i]];
    if m[order[i]].expiresAt < now { assert after.Keys == before.Keys - {order[i]}; } else { assert after == before; }
    assert |before| == |before.Keys| && |after| == |after.Keys|;
  }
}
