/**
 * The credential pool of src/api/tokenManager.js.
 *
 * Credentials come from two places: the environment (`QWEN_TOKEN`,
 * `QWEN_TOKENS`), read again on every call and never written back, and the
 * persisted store `tokens.json`. Every operation re-loads `env + file`,
 * works on that list and, when it changes something, saves back only the
 * entries whose source is not the environment.
 *
 * `Store` is the value-level view (the two sources and the rotation cursor);
 * its member functions are the operations as pure transitions, and the
 * lemmas below state what the source promises about them. `TokenPool` is the
 * module itself as an object whose methods update `file` and `pointer` in
 * place, each proved equal to the matching `Store` transition.
 */
module TokenManager {
  import opened Util

  /** `source: 'env'` or anything else (a file record written by the
   *  enrollment script carries no source at all). */
  datatype Source = Env | Other

  /** One credential record. `resetAt` is the end of a rate-limit cooldown
   *  in milliseconds since the epoch; `None` stands for `null`. */
  datatype Token = Token(id: string, secret: string, name: string, source: Source,
                         invalid: bool, resetAt: Option<int>)

  const MillisPerHour: int := 3600 * 1000

  /** The largest distance from the epoch, in milliseconds, that a
   *  JavaScript `Date` can hold (TimeClip in ECMAScript's section 21.4.1.31).
   *  A time beyond it makes an invalid date, whose `toISOString` throws
   *  RangeError. */
  const MaxDateMillis: int := 8640000000000000

  predicate DateInRange(ms: int) { -MaxDateMillis <= ms <= MaxDateMillis }

  /** The end of a cooldown of `hours` hours that starts at `now`. */
  function ResetTime(hours: int, now: int): int { now + hours * MillisPerHour }

  /** The filter of getAvailableToken / hasValidTokens: not invalid, and no
   *  cooldown or a cooldown that has already ended. */
  predicate Eligible(t: Token, now: int) {
    !t.invalid && (t.resetAt.None? || t.resetAt.value <= now)
  }

  // ---------------------------------------------------------------------
  // Environment records
  // ---------------------------------------------------------------------

  /** `s.split(',').map(t => t.trim()).filter(t => t.length > 0)` applied to
   *  the pieces of a split. */
  function TrimmedNonEmpty(parts: seq<string>): (r: seq<string>)
    ensures |r| <= |parts|
  {
    if parts == [] then []
    else
      var t := Trim(parts[0]);
      (if t != [] then [t] else []) + TrimmedNonEmpty(parts[1..])
  }

  /** Every surviving piece is non-empty and already trimmed. */
  lemma {:induction false} TrimmedNonEmptySpec(parts: seq<string>)
    ensures forall k :: 0 <= k < |TrimmedNonEmpty(parts)| ==>
              TrimmedNonEmpty(parts)[k] != [] && Trim(TrimmedNonEmpty(parts)[k]) == TrimmedNonEmpty(parts)[k]
  {
    if parts != [] {
      TrimmedNonEmptySpec(parts[1..]);
      TrimIdempotent(parts[0]);
    }
  }

  /** A single piece survives, trimmed, exactly when it is not blank. */
  lemma TrimmedNonEmptySingle(p: string)
    ensures TrimmedNonEmpty([p]) == (if Trim(p) != [] then [Trim(p)] else [])
  {
    assert [p][1..] == [];
  }

  /** The filter keeps the order of the pieces: pieces a then b give the
   *  survivors of a followed by those of b. */
  lemma {:induction false} TrimmedNonEmptyAppend(a: seq<string>, b: seq<string>)
    ensures TrimmedNonEmpty(a + b) == TrimmedNonEmpty(a) + TrimmedNonEmpty(b)
  {
    if a != [] {
      assert (a + b)[0] == a[0];
      assert (a + b)[1..] == a[1..] + b;
      TrimmedNonEmptyAppend(a[1..], b);
    } else {
      assert a + b == b;
    }
  }

  function EnvPieces(qwenTokens: string): seq<string> {
    TrimmedNonEmpty(Split(qwenTokens, ','))
  }

  function EnvId(k: nat): string { "env_token_" + NatToString(k) }

  /** The record made from `QWEN_TOKEN`. */
  function SingleEnvToken(secret: string): Token {
    Token(EnvId(1), secret, "Environment Token", Env, false, None)
  }

  /** The record made from the piece at (0-based) position k of `QWEN_TOKENS`. */
  function ListedEnvToken(k: nat, secret: string): Token {
    Token(EnvId(k + 1), secret, "Environment Token " + NatToString(k + 1), Env, false, None)
  }

  /** The records made from the pieces of `QWEN_TOKENS`, numbered from
   *  `from`. */
  function ListedEnvTokens(pieces: seq<string>, from: nat): (r: seq<Token>)
    ensures |r| == |pieces|
  {
    if pieces == [] then [] else [ListedEnvToken(from, pieces[0])] + ListedEnvTokens(pieces[1..], from + 1)
  }

  /** The `QWEN_TOKEN` part of loadTokensFromEnv: one record when the
   *  trimmed value is non-empty. */
  function EnvSingle(qwenToken: string): (r: seq<Token>)
    ensures |r| <= 1
  {
    var token := Trim(qwenToken);
    if token != [] then [SingleEnvToken(token)] else []
  }

  /** loadTokensFromEnv as a value: the `QWEN_TOKEN` record, then the
   *  `QWEN_TOKENS` records. */
  function EnvTokens(qwenToken: string, qwenTokens: string): seq<Token> {
    EnvSingle(qwenToken) + ListedEnvTokens(EnvPieces(qwenTokens), 0)
  }

  lemma {:induction false} ListedAt(pieces: seq<string>, from: nat, k: nat)
    requires k < |pieces|
    ensures ListedEnvTokens(pieces, from)[k] == ListedEnvToken(from + k, pieces[k])
  {
    if k > 0 { ListedAt(pieces[1..], from + 1, k - 1); }
  }

  lemma {:induction false} ListedSnoc(pieces: seq<string>, x: string, from: nat)
    ensures ListedEnvTokens(pieces + [x], from)
         == ListedEnvTokens(pieces, from) + [ListedEnvToken(from + |pieces|, x)]
  {
    if pieces != [] {
      ListedSnoc(pieces[1..], x, from + 1);
      assert (pieces + [x])[1..] == pieces[1..] + [x];
    } else {
      assert pieces + [x] == [x];
    }
  }

  lemma ListedShape(pre: seq<Token>, pieces: seq<string>)
    ensures var ts := pre + ListedEnvTokens(pieces, 0);
            forall k :: 0 <= k < |pieces| ==> ts[|pre| + k] == ListedEnvToken(k, pieces[k])
  {
    var ts := pre + ListedEnvTokens(pieces, 0);
    forall k | 0 <= k < |pieces|
      ensures ts[|pre| + k] == ListedEnvToken(k, pieces[k])
    {
      ListedAt(pieces, 0, k);
    }
  }

  lemma ListedAllEnv(pieces: seq<string>, from: nat)
    ensures AllEnv(ListedEnvTokens(pieces, from))
  {
    forall k | 0 <= k < |pieces| ensures ListedEnvTokens(pieces, from)[k].source == Env {
      ListedAt(pieces, from, k);
    }
  }

  /** What loadTokensFromEnv produces, record by record: the `QWEN_TOKEN`
   *  entry first when its trimmed value is non-empty, then one entry per
   *  surviving piece of `QWEN_TOKENS`, the k-th (from 1) with id
   *  `env_token_k` and name `Environment Token k`; all env-sourced, valid
   *  and without cooldown. */
  lemma EnvTokensShape(qwenToken: string, qwenTokens: string)
    ensures |EnvTokens(qwenToken, qwenTokens)| == |EnvSingle(qwenToken)| + |EnvPieces(qwenTokens)|
    ensures |EnvSingle(qwenToken)| == 1 <==> Trim(qwenToken) != []
    ensures Trim(qwenToken) != [] ==>
              EnvTokens(qwenToken, qwenTokens)[0]
              == Token("env_token_1", Trim(qwenToken), "Environment Token", Env, false, None)
    ensures forall k :: 0 <= k < |EnvPieces(qwenTokens)| ==>
              EnvTokens(qwenToken, qwenTokens)[|EnvSingle(qwenToken)| + k]
              == ListedEnvToken(k, EnvPieces(qwenTokens)[k])
    ensures AllEnv(EnvTokens(qwenToken, qwenTokens))
  {
    var pre := EnvSingle(qwenToken);
    var pieces := EnvPieces(qwenTokens);
    EnvSingleSpec(qwenToken);
    EnvRecords(pre, pieces);
    assert EnvTokens(qwenToken, qwenTokens) == pre + ListedEnvTokens(pieces, 0);
  }

  lemma EnvSingleSpec(qwenToken: string)
    ensures |EnvSingle(qwenToken)| == 1 <==> Trim(qwenToken) != []
    ensures Trim(qwenToken) != [] ==>
              EnvSingle(qwenToken) == [Token("env_token_1", Trim(qwenToken), "Environment Token", Env, false, None)]
    ensures AllEnv(EnvSingle(qwenToken))
  {
    assert NatToString(1) == "1";
    assert EnvId(1) == "env_token_1";
  }

  /** The listed records after any env-sourced prefix. */
  lemma EnvRecords(pre: seq<Token>, pieces: seq<string>)
    requires AllEnv(pre)
    ensures |pre + ListedEnvTokens(pieces, 0)| == |pre| + |pieces|
    ensures forall k :: 0 <= k < |pieces| ==>
              (pre + ListedEnvTokens(pieces, 0))[|pre| + k] == ListedEnvToken(k, pieces[k])
    ensures AllEnv(pre + ListedEnvTokens(pieces, 0))
  {
    ListedShape(pre, pieces);
    ListedAllEnv(pieces, 0);
    AllEnvAppend(pre, ListedEnvTokens(pieces, 0));
  }

  lemma AllEnvAppend(a: seq<Token>, b: seq<Token>)
    requires AllEnv(a) && AllEnv(b)
    ensures AllEnv(a + b)
  {
    forall k | 0 <= k < |a + b| ensures (a + b)[k].source == Env {
      if k >= |a| { assert (a + b)[k] == b[k - |a|]; }
    }
  }

  /** The `QWEN_TOKENS` loop of loadTokensFromEnv: one record per piece,
   *  appended in order after `prefix`. */
  method AppendListedTokens(prefix: seq<Token>, tokens: seq<string>) returns (envTokens: seq<Token>)
    ensures envTokens == prefix + ListedEnvTokens(tokens, 0)
  {
    envTokens := prefix;
    var index := 0;
    while index < |tokens|
      invariant 0 <= index <= |tokens|
      invariant envTokens == prefix + ListedEnvTokens(tokens[..index], 0)
    {
      ListedSnoc(tokens[..index], tokens[index], 0);
      assert tokens[..index + 1] == tokens[..index] + [tokens[index]];
      envTokens := envTokens + [ListedEnvToken(index, tokens[index])];
      index := index + 1;
    }
    assert tokens[..index] == tokens;
  }

  /** loadTokensFromEnv (src/api/tokenManager.js:24-69). An unset variable is
   *  the empty string. */
  method LoadTokensFromEnv(qwenToken: string, qwenTokens: string) returns (envTokens: seq<Token>)
    ensures envTokens == EnvTokens(qwenToken, qwenTokens)
  {
    envTokens := [];
    if qwenToken != [] {
      var token := Trim(qwenToken);
      if token != [] {
        envTokens := envTokens + [SingleEnvToken(token)];
      }
    }
    assert envTokens == EnvSingle(qwenToken);
    if qwenTokens != [] {
      envTokens := AppendListedTokens(envTokens, EnvPieces(qwenTokens));
    } else {
      assert Split(qwenTokens, ',') == [[]];
      assert EnvPieces(qwenTokens) == [];
    }
  }

  /** The identifiers `env_token_k` for distinct k are distinct. */
  lemma EnvIdInjective(j: nat, k: nat)
    requires EnvId(j) == EnvId(k)
    ensures j == k
  {
    assert NatToString(j) == EnvId(j)[|"env_token_"|..];
    assert NatToString(k) == EnvId(k)[|"env_token_"|..];
    NatToStringRoundTrip(j);
    NatToStringRoundTrip(k);
  }

  /** Both variables set: the single token and the first listed token share
   *  the id `env_token_1`, so id lookups (which take the first match) can
   *  never reach the first `QWEN_TOKENS` entry. */
  lemma EnvIdCollision(qwenToken: string, qwenTokens: string)
    requires Trim(qwenToken) != [] && EnvPieces(qwenTokens) != []
    ensures var ts := EnvTokens(qwenToken, qwenTokens);
            |ts| >= 2 && ts[0].id == ts[1].id == "env_token_1"
  {
    EnvTokensShape(qwenToken, qwenTokens);
    var ts := EnvTokens(qwenToken, qwenTokens);
    assert ts[1] == ts[1 + 0];
  }

  // ---------------------------------------------------------------------
  // List operations
  // ---------------------------------------------------------------------

  /** saveTokens' filter: the entries whose source is not the environment. */
  function Persisted(ts: seq<Token>): (r: seq<Token>)
    ensures |r| <= |ts|
  {
    if ts == [] then []
    else (if ts[0].source != Env then [ts[0]] else []) + Persisted(ts[1..])
  }

  /** The eligible entries, in store order. */
  function EligibleTokens(ts: seq<Token>, now: int): (r: seq<Token>)
    ensures |r| <= |ts|
  {
    if ts == [] then []
    else (if Eligible(ts[0], now) then [ts[0]] else []) + EligibleTokens(ts[1..], now)
  }

  /** One entry is on the eligible list exactly when it is eligible. */
  lemma EligibleTokensSingle(t: Token, now: int)
    ensures EligibleTokens([t], now) == (if Eligible(t, now) then [t] else [])
  {
    assert [t][1..] == [];
  }

  /** The filter keeps the store's order, which the cursor indexes: the
   *  eligible entries of `a + b` are those of `a` followed by those of `b`. */
  lemma {:induction false} EligibleTokensAppend(a: seq<Token>, b: seq<Token>, now: int)
    ensures EligibleTokens(a + b, now) == EligibleTokens(a, now) + EligibleTokens(b, now)
  {
    if a != [] {
      assert (a + b)[0] == a[0];
      assert (a + b)[1..] == a[1..] + b;
      EligibleTokensAppend(a[1..], b, now);
    } else {
      assert a + b == b;
    }
  }

  /** The eligible list holds eligible entries of the store and every
   *  eligible entry of it. */
  lemma {:induction false} EligibleTokensSpec(ts: seq<Token>, now: int)
    ensures forall t :: t in EligibleTokens(ts, now) <==> t in ts && Eligible(t, now)
  {
    if ts != [] {
      EligibleTokensSpec(ts[1..], now);
      assert ts == [ts[0]] + ts[1..];
    }
  }

  /** `tokens.some(eligible)`. */
  function AnyEligible(ts: seq<Token>, now: int): (b: bool)
    ensures b <==> exists k :: 0 <= k < |ts| && Eligible(ts[k], now)
  {
    if ts == [] then false
    else if Eligible(ts[0], now) then true
    else
      assert forall k :: 1 <= k < |ts| ==> ts[k] == ts[1..][k - 1];
      AnyEligible(ts[1..], now)
  }

  /** `tokens.findIndex(t => t.id === id)`: the first index carrying `id`,
   *  or -1. */
  function FindIndex(ts: seq<Token>, id: string): (r: int)
    ensures -1 <= r < |ts|
    ensures r >= 0 ==> ts[r].id == id && forall j :: 0 <= j < r ==> ts[j].id != id
    ensures r == -1 <==> forall j :: 0 <= j < |ts| ==> ts[j].id != id
  {
    if ts == [] then -1
    else if ts[0].id == id then 0
    else
      var r := FindIndex(ts[1..], id);
      assert forall j :: 1 <= j < |ts| ==> ts[j] == ts[1..][j - 1];
      if r == -1 then -1 else r + 1
  }

  /** `tokens.filter(t => t.id !== id)`. */
  function RemoveId(ts: seq<Token>, id: string): (r: seq<Token>)
    ensures |r| <= |ts|
  {
    if ts == [] then []
    else (if ts[0].id != id then [ts[0]] else []) + RemoveId(ts[1..], id)
  }

  /** removeToken's filter keeps exactly the entries with another id. */
  lemma {:induction false} RemoveIdSpec(ts: seq<Token>, id: string)
    ensures forall t :: t in RemoveId(ts, id) <==> t in ts && t.id != id
  {
    if ts != [] {
      RemoveIdSpec(ts[1..], id);
      assert ts == [ts[0]] + ts[1..];
    }
  }

  /** The round-robin step: the entry at `pointer % n` and the advanced
   *  cursor, or nothing (cursor untouched) when the list is empty. */
  function Select(valid: seq<Token>, pointer: nat): (r: (Option<Token>, nat))
    ensures r.0.None? <==> valid == []
    ensures r.0.Some? ==> r.0.value in valid && r.1 < |valid|
    ensures r.0.None? ==> r.1 == pointer
  {
    if valid == [] then (None, pointer)
    else (Some(valid[pointer % |valid|]), (pointer + 1) % |valid|)
  }

  // ---------------------------------------------------------------------
  // The store as a value
  // ---------------------------------------------------------------------

  datatype Store = Store(env: seq<Token>, file: seq<Token>, pointer: nat) {

    /** loadTokens: environment entries first, then the persisted ones. */
    function Load(): seq<Token> { env + file }

    /** getAvailableToken. */
    function Acquire(now: int): (Option<Token>, Store) {
      var (t, p) := Select(EligibleTokens(Load(), now), pointer);
      (t, this.(pointer := p))
    }

    /** hasValidTokens. */
    function HasValid(now: int): bool { AnyEligible(Load(), now) }

    /** saveTokens(tokens): the persisted part becomes the non-env entries. */
    function Save(tokens: seq<Token>): Store { this.(file := Persisted(tokens)) }

    /** markRateLimited(id, hours). A reset time outside the range of a
     *  `Date` makes `toISOString` throw before anything is saved, so the
     *  store stays as it was (every caller goes on after the throw: the
     *  rate-limit branch of sendMessage swallows it). */
    function MarkRateLimited(id: string, hours: int, now: int): Store {
      var tokens := Load();
      var idx := FindIndex(tokens, id);
      if idx == -1 || !DateInRange(ResetTime(hours, now)) then this
      else Save(tokens[idx := tokens[idx].(resetAt := Some(ResetTime(hours, now)))])
    }

    /** markInvalid(id). */
    function MarkInvalid(id: string): Store {
      var tokens := Load();
      var idx := FindIndex(tokens, id);
      if idx == -1 then this else Save(tokens[idx := tokens[idx].(invalid := true)])
    }

    /** markValid(id, newToken); an absent `newToken` is the empty string. */
    function MarkValid(id: string, newToken: string): Store {
      var tokens := Load();
      var idx := FindIndex(tokens, id);
      if idx == -1 then this
      else Save(tokens[idx := Revalidated(tokens[idx], newToken)])
    }

    /** removeToken(id). */
    function Remove(id: string): Store { Save(RemoveId(Load(), id)) }
  }

  function Revalidated(t: Token, newToken: string): Token {
    t.(invalid := false, resetAt := None, secret := if newToken != [] then newToken else t.secret)
  }

  ghost predicate AllEnv(ts: seq<Token>) { forall k :: 0 <= k < |ts| ==> ts[k].source == Env }

  ghost predicate NoEnv(ts: seq<Token>) { forall k :: 0 <= k < |ts| ==> ts[k].source != Env }

  /** The store as loaded: environment entries all carry source `env`. */
  ghost predicate WellSourced(s: Store) { AllEnv(s.env) }

  /** ... and the persisted file holds no env-sourced record (it never does
   *  after a save). */
  ghost predicate Clean(s: Store) { AllEnv(s.env) && NoEnv(s.file) }

  // ---------------------------------------------------------------------
  // Lemmas about saving
  // ---------------------------------------------------------------------

  lemma {:induction false} PersistedAppend(a: seq<Token>, b: seq<Token>)
    ensures Persisted(a + b) == Persisted(a) + Persisted(b)
  {
    if a != [] {
      PersistedAppend(a[1..], b);
      assert (a + b)[1..] == a[1..] + b;
    } else {
      assert a + b == b;
    }
  }

  lemma {:induction false} PersistedAllEnv(ts: seq<Token>)
    requires AllEnv(ts)
    ensures Persisted(ts) == []
  {
    if ts != [] { PersistedAllEnv(ts[1..]); }
  }

  lemma {:induction false} PersistedNoEnv(ts: seq<Token>)
    requires NoEnv(ts)
    ensures Persisted(ts) == ts
  {
    if ts != [] { PersistedNoEnv(ts[1..]); }
  }

  /** saveTokens never writes an env-sourced record. */
  lemma {:induction false} PersistedSources(ts: seq<Token>, k: nat)
    requires k < |Persisted(ts)|
    ensures Persisted(ts)[k].source != Env && Persisted(ts)[k] in ts
  {
    if ts[0].source != Env {
      if k > 0 { PersistedSources(ts[1..], k - 1); }
    } else {
      PersistedSources(ts[1..], k);
    }
  }

  /** After any save the file holds no env-sourced record. */
  lemma SaveIsClean(s: Store, tokens: seq<Token>)
    requires WellSourced(s)
    ensures Clean(s.Save(tokens))
  {
    forall k | 0 <= k < |Persisted(tokens)| ensures Persisted(tokens)[k].source != Env {
      PersistedSources(tokens, k);
    }
  }

  /** Every operation of the store keeps it clean. */
  lemma OperationsKeepClean(s: Store, id: string, hours: int, now: int, newToken: string)
    requires Clean(s)
    ensures Clean(s.Acquire(now).1) && Clean(s.Remove(id)) && Clean(s.MarkInvalid(id))
    ensures Clean(s.MarkRateLimited(id, hours, now)) && Clean(s.MarkValid(id, newToken))
  {
    var ts := s.Load();
    var idx := FindIndex(ts, id);
    SaveIsClean(s, RemoveId(ts, id));
    if idx != -1 {
      SaveIsClean(s, ts[idx := ts[idx].(invalid := true)]);
      SaveIsClean(s, ts[idx := ts[idx].(resetAt := Some(ResetTime(hours, now)))]);
      SaveIsClean(s, ts[idx := Revalidated(ts[idx], newToken)]);
    }
  }

  /** saveTokens(loadTokens()) writes back exactly the persisted entries
   *  that are not env-sourced, in order; on a clean store it is the
   *  identity, and after any save the file is clean. */
  lemma SaveOfLoad(s: Store)
    requires WellSourced(s)
    ensures s.Save(s.Load()).file == Persisted(s.file)
    ensures Clean(s) ==> s.Save(s.Load()) == s
    ensures Clean(s.Save(s.Load()))
  {
    PersistedAppend(s.env, s.file);
    PersistedAllEnv(s.env);
    if Clean(s) {
      PersistedNoEnv(s.file);
      assert s.Save(s.Load()).file == s.file;
    }
    var f := Persisted(s.file);
    forall k | 0 <= k < |f| ensures f[k].source != Env {
      PersistedSources(s.file, k);
    }
  }

  /** Saving a load in which one entry was replaced: replacing an env entry
   *  leaves nothing behind; replacing a persisted entry (by a non-env one)
   *  is a point update of the file. */
  lemma PersistedUpdate(env: seq<Token>, file: seq<Token>, idx: nat, x: Token)
    requires AllEnv(env) && NoEnv(file) && idx < |env| + |file|
    requires idx < |env| ==> x.source == Env
    requires idx >= |env| ==> x.source != Env
    ensures idx < |env| ==> Persisted((env + file)[idx := x]) == file
    ensures idx >= |env| ==> Persisted((env + file)[idx := x]) == file[idx - |env| := x]
  {
    if idx < |env| {
      assert (env + file)[idx := x] == env[idx := x] + file;
      PersistedAppend(env[idx := x], file);
      PersistedAllEnv(env[idx := x]);
      PersistedNoEnv(file);
    } else {
      assert (env + file)[idx := x] == env + file[idx - |env| := x];
      PersistedAppend(env, file[idx - |env| := x]);
      PersistedAllEnv(env);
      PersistedNoEnv(file[idx - |env| := x]);
    }
  }

  // ---------------------------------------------------------------------
  // Lemmas about selection
  // ---------------------------------------------------------------------

  /** getAvailableToken returns null iff no loaded entry is eligible, and
   *  what it returns is an eligible loaded entry; after a successful call
   *  the cursor is below the number of eligible entries. */
  lemma AcquireSpec(s: Store, now: int)
    ensures s.Acquire(now).0.None? <==> forall k :: 0 <= k < |s.Load()| ==> !Eligible(s.Load()[k], now)
    ensures s.Acquire(now).0.Some? ==>
              var t := s.Acquire(now).0.value;
              t in s.Load() && Eligible(t, now)
              && s.Acquire(now).1.pointer < |EligibleTokens(s.Load(), now)|
    ensures s.Acquire(now).1.env == s.env && s.Acquire(now).1.file == s.file
  {
    var ts := s.Load();
    var valid := EligibleTokens(ts, now);
    EligibleTokensSpec(ts, now);
    if valid == [] {
      forall k | 0 <= k < |ts| ensures !Eligible(ts[k], now) {
        assert ts[k] in ts;
      }
    } else {
      assert valid[0] in ts;
    }
  }

  /** hasValidTokens() agrees with getAvailableToken() on the same store and
   *  time (and, being a query, moves no cursor). */
  lemma HasValidIffAcquire(s: Store, now: int)
    ensures s.HasValid(now) <==> s.Acquire(now).0.Some?
  {
    AcquireSpec(s, now);
  }

  /** The entries k consecutive getAvailableToken calls return when the
   *  eligible list stays the same. */
  function Picks(valid: seq<Token>, pointer: nat, k: nat): (r: seq<Token>)
    requires valid != []
    ensures |r| == k
    decreases k
  {
    if k == 0 then []
    else
      var (t, p) := Select(valid, pointer);
      [t.value] + Picks(valid, p, k - 1)
  }

  /** The cursor after k such calls. */
  function PointerAfter(valid: seq<Token>, pointer: nat, k: nat): nat
    requires valid != []
    decreases k
  {
    if k == 0 then pointer else PointerAfter(valid, Select(valid, pointer).1, k - 1)
  }

  lemma {:induction false} PicksSplit(valid: seq<Token>, p: nat, a: nat, b: nat)
    requires valid != []
    ensures Picks(valid, p, a + b) == Picks(valid, p, a) + Picks(valid, PointerAfter(valid, p, a), b)
    decreases a
  {
    if a > 0 {
      PicksSplit(valid, Select(valid, p).1, a - 1, b);
    }
  }

  /** From a cursor q inside the list, the next k calls walk forwards. */
  lemma {:induction false} PicksForward(valid: seq<Token>, q: nat, k: nat)
    requires q < |valid| && q + k <= |valid|
    ensures Picks(valid, q, k) == valid[q..q + k]
    ensures PointerAfter(valid, q, k) == (if q + k == |valid| then 0 else q + k)
    decreases k
  {
    var n := |valid|;
    if k > 0 {
      ModUnique(q, n, 0, q);
      if q + 1 < n {
        ModUnique(q + 1, n, 0, q + 1);
        PicksForward(valid, q + 1, k - 1);
        assert valid[q..q + k] == [valid[q]] + valid[q + 1..q + k];
      } else {
        ModUnique(q + 1, n, 1, 0);
        assert valid[q..q + k] == [valid[q]];
      }
    }
  }

  /** A rotation of a list holds the same entries. */
  lemma RotationMultiset(valid: seq<Token>, r: nat)
    requires r < |valid|
    ensures multiset([valid[r]] + valid[r + 1..] + valid[..r]) == multiset(valid)
  {
    assert valid == valid[..r] + [valid[r]] + valid[r + 1..];
  }

  /** The calls after the first, when the first did not land on the last
   *  entry: the tail after it, then the head before it. */
  lemma PicksWrap(valid: seq<Token>, q: nat)
    requires 0 < q < |valid|
    ensures Picks(valid, q, |valid| - 1) == valid[q..] + valid[..q - 1]
  {
    var n := |valid|;
    var a, b := n - q, q - 1;
    assert a + b == n - 1;
    PicksSplit(valid, q, a, b);
    PicksForward(valid, q, a);
    PicksForward(valid, 0, b);
    assert Picks(valid, q, a) == valid[q..];
    assert Picks(valid, 0, b) == valid[..q - 1];
  }

  /** The first call of a round lands on `pointer % N`; the rest walk on from
   *  there and wrap around. */
  lemma RotationPicks(valid: seq<Token>, pointer: nat)
    requires valid != []
    ensures Picks(valid, pointer, |valid|)
         == [valid[pointer % |valid|]] + valid[pointer % |valid| + 1..] + valid[..pointer % |valid|]
  {
    var n := |valid|;
    var r := pointer % n;
    FirstPick(valid, pointer);
    var head := [valid[r]];
    if r + 1 < n {
      PicksWrap(valid, r + 1);
      assert Picks(valid, pointer, n) == head + (valid[r + 1..] + valid[..r]);
      assert head + (valid[r + 1..] + valid[..r]) == head + valid[r + 1..] + valid[..r];
    } else {
      PicksFromStart(valid);
      assert Picks(valid, pointer, n) == head + valid[..r];
      assert head + valid[..r] == head + valid[r + 1..] + valid[..r];
    }
  }

  /** The first call takes `valid[pointer % N]` and the cursor moves on by
   *  one, wrapping at the end. */
  lemma FirstPick(valid: seq<Token>, pointer: nat)
    requires valid != []
    ensures var n := |valid|;
            var r := pointer % n;
            Picks(valid, pointer, n) == [valid[r]] + Picks(valid, if r + 1 < n then r + 1 else 0, n - 1)
  {
    ModStep(pointer, |valid|);
  }

  lemma PicksFromStart(valid: seq<Token>)
    requires valid != []
    ensures Picks(valid, 0, |valid| - 1) == valid[..|valid| - 1]
    ensures valid[|valid|..] == []
  {
    PicksForward(valid, 0, |valid| - 1);
    assert valid[0..0 + (|valid| - 1)] == valid[..|valid| - 1];
  }

  /** Rotation fairness: with a stable list of N eligible entries, N
   *  consecutive calls return every entry exactly once (the picks are a
   *  permutation of the list), starting wherever the cursor points. */
  lemma RotationFairness(valid: seq<Token>, pointer: nat)
    requires valid != []
    ensures multiset(Picks(valid, pointer, |valid|)) == multiset(valid)
  {
    RotationPicks(valid, pointer);
    RotationMultiset(valid, pointer % |valid|);
  }

  /** k successive getAvailableToken calls at the same time on a store
   *  that nothing else changes: what each returns, and the store after. */
  function AcquireRounds(s: Store, now: int, k: nat): (r: (seq<Option<Token>>, Store))
    ensures |r.0| == k
    decreases k
  {
    if k == 0 then ([], s)
    else
      var (t, s1) := s.Acquire(now);
      var (ts, s2) := AcquireRounds(s1, now, k - 1);
      ([t] + ts, s2)
  }

  function Wrapped(xs: seq<Token>): (r: seq<Option<Token>>)
    ensures |r| == |xs|
  {
    if xs == [] then [] else [Some(xs[0])] + Wrapped(xs[1..])
  }

  /** The calls return the round-robin picks over the eligible list, move
   *  only the cursor, and leave the entries as they were. */
  lemma {:induction false} AcquireRoundsPicks(s: Store, now: int, k: nat)
    requires EligibleTokens(s.Load(), now) != []
    ensures var valid := EligibleTokens(s.Load(), now);
            var (ts, s2) := AcquireRounds(s, now, k);
            && ts == Wrapped(Picks(valid, s.pointer, k))
            && s2 == s.(pointer := PointerAfter(valid, s.pointer, k))
    decreases k
  {
    if k > 0 {
      var valid := EligibleTokens(s.Load(), now);
      var s1 := s.Acquire(now).1;
      assert s1.Load() == s.Load();
      AcquireRoundsPicks(s1, now, k - 1);
      var picks := Picks(valid, s.pointer, k);
      assert picks[1..] == Picks(valid, s1.pointer, k - 1);
    }
  }

  /** Rotation fairness over the calls themselves: N calls on a store with
   *  N eligible entries return every one of them exactly once. */
  lemma AcquireRoundsFair(s: Store, now: int)
    requires EligibleTokens(s.Load(), now) != []
    ensures var valid := EligibleTokens(s.Load(), now);
            exists picks :: AcquireRounds(s, now, |valid|).0 == Wrapped(picks) && multiset(picks) == multiset(valid)
  {
    var valid := EligibleTokens(s.Load(), now);
    AcquireRoundsPicks(s, now, |valid|);
    RotationFairness(valid, s.pointer);
    var picks := Picks(valid, s.pointer, |valid|);
    assert AcquireRounds(s, now, |valid|).0 == Wrapped(picks);
  }

  lemma ModStep(p: nat, n: nat)
    requires n > 0
    ensures (p + 1) % n == (if p % n + 1 < n then p % n + 1 else 0)
  {
    var m := p / n;
    var r := p % n;
    assert p == m * n + r;
    if r + 1 < n {
      ModUnique(p + 1, n, m, r + 1);
    } else {
      assert p + 1 == (m + 1) * n + 0;
      ModUnique(p + 1, n, m + 1, 0);
    }
  }

  /** Euclidean division is unique. */
  lemma ModUnique(x: nat, n: nat, m: int, r: int)
    requires n > 0 && 0 <= r < n && x == m * n + r
    ensures x % n == r
  {
    var m' := x / n;
    var r' := x % n;
    assert x == m' * n + r';
    MulDistrib(m, m', n);
    var d := m - m';
    assert d * n == r' - r;
    if d > 0 { MulAtLeast(d, n); }
    if d < 0 { MulAtLeast(-d, n); }
  }

  lemma MulDistrib(a: int, b: int, n: int) ensures (a - b) * n == a * n - b * n {}

  lemma MulAtLeast(d: int, n: int) requires d >= 1 && n >= 0 ensures d * n >= n {}

  // ---------------------------------------------------------------------
  // Lemmas about point updates
  // ---------------------------------------------------------------------

  /** markInvalid: an unknown id changes nothing; hitting an env entry first
   *  leaves the persisted file as it was (so nothing lasts); hitting a
   *  persisted entry sets exactly its `invalid` flag. The cursor never
   *  moves. */
  lemma MarkInvalidEffect(s: Store, id: string)
    requires Clean(s)
    ensures var idx := FindIndex(s.Load(), id);
            var r := s.MarkInvalid(id);
            && r.env == s.env && r.pointer == s.pointer
            && (idx == -1 ==> r == s)
            && (0 <= idx < |s.env| ==> r == s)
            && (idx >= |s.env| ==>
                  r.file == s.file[idx - |s.env| := s.file[idx - |s.env|].(invalid := true)])
  {
    var ts := s.Load();
    var idx := FindIndex(ts, id);
    if idx != -1 {
      if idx >= |s.env| {
        assert ts[idx] == s.file[idx - |s.env|];
      }
      PersistedUpdate(s.env, s.file, idx, ts[idx].(invalid := true));
    }
  }

  /** markRateLimited: the same three cases, setting only `resetAt` to
   *  now + hours·3600·1000; a reset time outside the range of a `Date`
   *  throws and changes nothing. */
  lemma MarkRateLimitedEffect(s: Store, id: string, hours: int, now: int)
    requires Clean(s)
    ensures var idx := FindIndex(s.Load(), id);
            var r := s.MarkRateLimited(id, hours, now);
            && r.env == s.env && r.pointer == s.pointer
            && (idx == -1 ==> r == s)
            && (!DateInRange(now + hours * MillisPerHour) ==> r == s)
            && (0 <= idx < |s.env| ==> r == s)
            && (idx >= |s.env| && DateInRange(now + hours * MillisPerHour) ==>
                  r.file == s.file[idx - |s.env| :=
                              s.file[idx - |s.env|].(resetAt := Some(now + hours * MillisPerHour))])
  {
    var ts := s.Load();
    var idx := FindIndex(ts, id);
    if idx != -1 && DateInRange(ResetTime(hours, now)) {
      if idx >= |s.env| {
        assert ts[idx] == s.file[idx - |s.env|];
      }
      PersistedUpdate(s.env, s.file, idx, ts[idx].(resetAt := Some(now + hours * MillisPerHour)));
    }
  }

  /** markValid: clears `invalid` and `resetAt`, and replaces the secret
   *  only when a non-empty new one is given. */
  lemma MarkValidEffect(s: Store, id: string, newToken: string)
    requires Clean(s)
    ensures var idx := FindIndex(s.Load(), id);
            var r := s.MarkValid(id, newToken);
            && r.env == s.env && r.pointer == s.pointer
            && (idx == -1 ==> r == s)
            && (0 <= idx < |s.env| ==> r == s)
            && (idx >= |s.env| ==>
                  && |r.file| == |s.file|
                  && var old_ := s.file[idx - |s.env|];
                  var new_ := r.file[idx - |s.env|];
                  && (forall j :: 0 <= j < |s.file| && j != idx - |s.env| ==> r.file[j] == s.file[j])
                  && new_.id == old_.id && new_.name == old_.name && new_.source == old_.source
                  && !new_.invalid && new_.resetAt.None?
                  && new_.secret == (if newToken != [] then newToken else old_.secret))
  {
    var ts := s.Load();
    var idx := FindIndex(ts, id);
    if idx != -1 {
      if idx >= |s.env| {
        assert ts[idx] == s.file[idx - |s.env|];
      }
      PersistedUpdate(s.env, s.file, idx, Revalidated(ts[idx], newToken));
    }
  }

  /** removeToken(id): the persisted file loses every entry with that id and
   *  keeps the others in order; env entries with that id survive, since
   *  the environment is read again on the next load. */
  lemma RemoveEffect(s: Store, id: string)
    requires Clean(s)
    ensures s.Remove(id).file == RemoveId(s.file, id)
    ensures s.Remove(id).Load() == s.env + RemoveId(s.file, id)
    ensures forall t :: t in s.Remove(id).file ==> t.id != id
  {
    RemoveIdSpec(s.file, id);
    RemoveIdAppend(s.env, s.file, id);
    PersistedAppend(RemoveId(s.env, id), RemoveId(s.file, id));
    RemoveIdSources(s.env, id);
    PersistedAllEnv(RemoveId(s.env, id));
    RemoveIdSourcesNoEnv(s.file, id);
    PersistedNoEnv(RemoveId(s.file, id));
  }

  lemma {:induction false} RemoveIdAppend(a: seq<Token>, b: seq<Token>, id: string)
    ensures RemoveId(a + b, id) == RemoveId(a, id) + RemoveId(b, id)
  {
    if a != [] {
      RemoveIdAppend(a[1..], b, id);
      assert (a + b)[1..] == a[1..] + b;
    } else {
      assert a + b == b;
    }
  }

  lemma RemoveIdSources(ts: seq<Token>, id: string)
    requires AllEnv(ts)
    ensures AllEnv(RemoveId(ts, id))
  {
    var r := RemoveId(ts, id);
    RemoveIdSpec(ts, id);
    forall k | 0 <= k < |r| ensures r[k].source == Env {
      assert r[k] in ts;
    }
  }

  lemma RemoveIdSourcesNoEnv(ts: seq<Token>, id: string)
    requires NoEnv(ts)
    ensures NoEnv(RemoveId(ts, id))
  {
    var r := RemoveId(ts, id);
    RemoveIdSpec(ts, id);
    forall k | 0 <= k < |r| ensures r[k].source != Env {
      assert r[k] in ts;
    }
  }

  // ---------------------------------------------------------------------
  // Eligibility over time
  // ---------------------------------------------------------------------

  /** A cooldown of ten thousand million hours, as a server may ask for,
   *  ends beyond the range of a `Date`: the mark throws and nothing changes. */
  lemma HugeCooldownChangesNothing(s: Store, id: string, now: int)
    requires 0 <= now <= MaxDateMillis
    ensures s.MarkRateLimited(id, 10000000000, now) == s
  {
    assert !DateInRange(ResetTime(10000000000, now));
  }

  /** Rate-limit expiry: an entry cooled down for h > 0 hours is excluded
   *  before its reset time and eligible again from then on (if it is not
   *  invalid), with no call to unmark it. */
  lemma RateLimitExpiry(t: Token, hours: int, now: int, later: int)
    requires hours > 0
    ensures !Eligible(t.(resetAt := Some(now + hours * MillisPerHour)), now)
    ensures !t.invalid && later >= now + hours * MillisPerHour ==>
              Eligible(t.(resetAt := Some(now + hours * MillisPerHour)), later)
  {
  }

  /** Replacing one eligible entry by an ineligible one removes exactly one
   *  entry from the eligible list. */
  lemma {:induction false} EligibleCountDrops(ts: seq<Token>, idx: nat, x: Token, now: int)
    requires idx < |ts| && Eligible(ts[idx], now) && !Eligible(x, now)
    ensures |EligibleTokens(ts[idx := x], now)| + 1 == |EligibleTokens(ts, now)|
  {
    if idx == 0 {
      assert ts[idx := x][1..] == ts[1..];
    } else {
      EligibleCountDrops(ts[1..], idx - 1, x, now);
      assert ts[idx := x][1..] == ts[1..][idx - 1 := x];
    }
  }

  /** Marking invalid an eligible persisted entry that is the first with its
   *  id shrinks the eligible list by one. */
  lemma MarkInvalidShrinks(s: Store, id: string, now: int)
    requires Clean(s)
    requires FindIndex(s.Load(), id) >= |s.env|
    requires Eligible(s.Load()[FindIndex(s.Load(), id)], now)
    ensures |EligibleTokens(s.MarkInvalid(id).Load(), now)| + 1 == |EligibleTokens(s.Load(), now)|
  {
    var ts := s.Load();
    var idx := FindIndex(ts, id);
    MarkInvalidEffect(s, id);
    assert s.MarkInvalid(id).Load() == ts[idx := ts[idx].(invalid := true)];
    EligibleCountDrops(ts, idx, ts[idx].(invalid := true), now);
  }

  /** Marking an env entry (the first with its id) leaves the loaded list
   *  exactly as it was: the mark is dropped by the save. */
  lemma MarkInvalidEnvIsLost(s: Store, id: string)
    requires Clean(s)
    requires 0 <= FindIndex(s.Load(), id) < |s.env|
    ensures s.MarkInvalid(id) == s
  {
    MarkInvalidEffect(s, id);
  }

  // ---------------------------------------------------------------------
  // The module as an object
  // ---------------------------------------------------------------------

  /** The module-level state of tokenManager.js: the environment entries
   *  (fixed for the life of the process), the contents of tokens.json and
   *  the module-level rotation cursor `pointer`. */
  class TokenPool {
    const env: seq<Token>
    var file: seq<Token>
    var pointer: nat

    /** The environment part holds only env-sourced records and the file
     *  none (true after any save). */
    ghost predicate Valid() reads this { Clean(State()) }

    function State(): Store reads this { Store(env, file, pointer) }

    /** Starts with the environment read once and the given persisted
     *  contents; the cursor starts at 0 (src/api/tokenManager.js:13). */
    constructor (qwenToken: string, qwenTokens: string, stored: seq<Token>)
      ensures NoEnv(stored) ==> Valid()
      ensures env == EnvTokens(qwenToken, qwenTokens) && file == stored && pointer == 0
    {
      var e := LoadTokensFromEnv(qwenToken, qwenTokens);
      EnvTokensShape(qwenToken, qwenTokens);
      env := e;
      file := stored;
      pointer := 0;
    }

    function LoadTokens(): (ts: seq<Token>)
      reads this
      ensures ts == State().Load()
    {
      env + file
    }

    method SaveTokens(tokens: seq<Token>)
      modifies this`file
      ensures State() == old(State()).Save(tokens)
      ensures old(Valid()) ==> Valid()
    {
      file := Persisted(tokens);
      if old(Valid()) { SaveIsClean(old(State()), tokens); }
    }

    method GetAvailableToken(now: int) returns (token: Option<Token>)
      modifies this`pointer
      ensures (token, State()) == old(State()).Acquire(now)
      ensures old(Valid()) ==> Valid()
    {
      if Valid() { OperationsKeepClean(State(), [], 0, now, []); }
      var tokens := LoadTokens();
      var valid := EligibleTokens(tokens, now);
      if |valid| == 0 {
        return None;
      }
      token := Some(valid[pointer % |valid|]);
      pointer := (pointer + 1) % |valid|;
    }

    function HasValidTokens(now: int): (b: bool)
      reads this
      ensures b == State().HasValid(now)
    {
      AnyEligible(LoadTokens(), now)
    }

    method MarkRateLimited(id: string, hours: int, now: int)
      modifies this`file
      ensures State() == old(State()).MarkRateLimited(id, hours, now)
      ensures old(Valid()) ==> Valid()
    {
      if Valid() { OperationsKeepClean(State(), id, hours, now, []); }
      var tokens := LoadTokens();
      var idx := FindIndex(tokens, id);
      var resetAt := now + hours * MillisPerHour;
      if idx != -1 && -MaxDateMillis <= resetAt <= MaxDateMillis {
        tokens := tokens[idx := tokens[idx].(resetAt := Some(resetAt))];
        SaveTokens(tokens);
      }
    }

    method RemoveToken(id: string)
      modifies this`file
      ensures State() == old(State()).Remove(id)
      ensures old(Valid()) ==> Valid()
    {
      if Valid() { OperationsKeepClean(State(), id, 0, 0, []); }
      SaveTokens(RemoveId(LoadTokens(), id));
    }

    method MarkInvalid(id: string)
      modifies this`file
      ensures State() == old(State()).MarkInvalid(id)
      ensures old(Valid()) ==> Valid()
    {
      if Valid() { OperationsKeepClean(State(), id, 0, 0, []); }
      var tokens := LoadTokens();
      var idx := FindIndex(tokens, id);
      if idx != -1 {
        tokens := tokens[idx := tokens[idx].(invalid := true)];
        SaveTokens(tokens);
      }
    }

    method MarkValid(id: string, newToken: string)
      modifies this`file
      ensures State() == old(State()).MarkValid(id, newToken)
      ensures old(Valid()) ==> Valid()
    {
      if Valid() { OperationsKeepClean(State(), id, 0, 0, newToken); }
      var tokens := LoadTokens();
      var idx := FindIndex(tokens, id);
      if idx != -1 {
        var t := tokens[idx].(invalid := false, resetAt := None);
        if newToken != [] {
          t := t.(secret := newToken);
        }
        tokens := tokens[idx := t];
        SaveTokens(tokens);
      }
    }
  }
}
