/** State scopes: splitting a delta by scope, merging scopes into the public view, and what a session handle shows. */
module StoreState {
  type State = map<string, string>

  const APP_PREFIX := "app:"
  const USER_PREFIX := "user:"
  const TEMP_PREFIX := "temp:"

  predicate HasPrefix(key: string, prefix: string) { prefix <= key }

  datatype Scope = SessionScope | AppScope | UserScope | TempScope

  /** Prefixes are tried in the order of the code; no key has two of them. */
  function ScopeOf(key: string): Scope {
    if HasPrefix(key, TEMP_PREFIX) then TempScope
    else if HasPrefix(key, APP_PREFIX) then AppScope
    else if HasPrefix(key, USER_PREFIX) then UserScope
    else SessionScope
  }

  datatype Split = Split(session: State, app: State, user: State)

  /** `m` holds exactly the keys of one scope, without their prefix. */
  ghost predicate IsScope(state: State, prefix: string, m: State) {
    && (forall k :: k in m ==> prefix + k in state && m[k] == state[prefix + k])
    && (forall k :: k in state && HasPrefix(k, prefix) ==> k[|prefix|..] in m)
  }

  ghost predicate IsSplit(state: State, s: Split) {
    && IsScope(state, APP_PREFIX, s.app) && IsScope(state, USER_PREFIX, s.user)
    && (forall k :: k in s.session <==> k in state && ScopeOf(k).SessionScope?)
    && (forall k :: k in s.session ==> s.session[k] == state[k])
  }

  function Trim(key: string, prefix: string): string
    requires HasPrefix(key, prefix)
  {
    key[|prefix|..]
  }

  lemma {:induction false} TrimPrefix(key: string, prefix: string)
    ensures HasPrefix(prefix + key, prefix) && Trim(prefix + key, prefix) == key
    ensures HasPrefix(key, prefix) ==> prefix + Trim(key, prefix) == key
  {}

  lemma {:induction false} ScopesOfPrefixed(key: string)
    ensures ScopeOf(APP_PREFIX + key) == AppScope && ScopeOf(USER_PREFIX + key) == UserScope && ScopeOf(TEMP_PREFIX + key) == TempScope
    ensures ScopeOf(key).AppScope? <==> HasPrefix(key, APP_PREFIX)
    ensures ScopeOf(key).UserScope? <==> HasPrefix(key, USER_PREFIX)
  {
    assert (APP_PREFIX + key)[0] == 'a' && (USER_PREFIX + key)[0] == 'u' && (TEMP_PREFIX + key)[0] == 't';
    TrimPrefix(key, APP_PREFIX);
    TrimPrefix(key, USER_PREFIX);
    TrimPrefix(key, TEMP_PREFIX);
  }

  lemma {:induction false} SplitOfNothing()
    ensures IsSplit(map[], Split(map[], map[], map[]))
  {}

  method SplitState(state: State) returns (s: Split)
    ensures IsSplit(state, s)
  {
    hide IsSplit;
    var session, app, user: State := map[], map[], map[];
    SplitOfNothing();
    var rest := state.Keys;
    ghost var done: State := map[];
    assert done == map k | k in state && k !in rest :: state[k];
    while rest != {}
      invariant rest <= state.Keys && done == (map k | k in state && k !in rest :: state[k])
      invariant IsSplit(done, Split(session, app, user))
    {
      var key :| key in rest;
      rest := rest - {key};
      SplitOne(done, Split(session, app, user), key, state[key]);
      done := done[key := state[key]];
      assert done == (map k | k in state && k !in rest :: state[k]);
      match ScopeOf(key) {
        case TempScope =>
        case AppScope => app := app[Trim(key, APP_PREFIX) := state[key]];
        case UserScope => user := user[Trim(key, USER_PREFIX) := state[key]];
        case SessionScope => session := session[key := state[key]];
      }
    }
    assert done == state;
    s := Split(session, app, user);
  }

  function SplitWith(s: Split, key: string, value: string): Split {
    match ScopeOf(key)
    case TempScope => s
    case AppScope => s.(app := s.app[key[|APP_PREFIX|..] := value])
    case UserScope => s.(user := s.user[key[|USER_PREFIX|..] := value])
    case SessionScope => s.(session := s.session[key := value])
  }

  lemma {:induction false} ScopeGrows(state: State, prefix: string, m: State, key: string, value: string)
    requires IsScope(state, prefix, m)
    ensures HasPrefix(key, prefix) ==> IsScope(state[key := value], prefix, m[Trim(key, prefix) := value])
    ensures !HasPrefix(key, prefix) ==> IsScope(state[key := value], prefix, m)
  {
    forall k: string ensures HasPrefix(prefix + k, prefix) && Trim(prefix + k, prefix) == k { TrimPrefix(k, prefix); }
    forall k: string | HasPrefix(k, prefix) ensures prefix + Trim(k, prefix) == k { TrimPrefix(k, prefix); }
  }

  lemma {:induction false} SplitOne(state: State, s: Split, key: string, value: string)
    requires IsSplit(state, s)
    ensures IsSplit(state[key := value], SplitWith(s, key, value))
  {
    hide IsScope;
    ScopeGrows(state, APP_PREFIX, s.app, key, value);
    ScopeGrows(state, USER_PREFIX, s.user, key, value);
    ScopesOfPrefixed(key);
  }

  lemma {:induction false} SplitUnique(state: State, s: Split, t: Split)
    requires IsSplit(state, s) && IsSplit(state, t)
    ensures s == t
  {
    ScopeUnique(state, APP_PREFIX, s.app, t.app);
    ScopeUnique(state, USER_PREFIX, s.user, t.user);
    assert s.session == t.session;
  }

  lemma {:induction false} ScopeUnique(state: State, prefix: string, m: State, n: State)
    requires IsScope(state, prefix, m) && IsScope(state, prefix, n)
    ensures m == n
  {
    forall k | k in m ensures k in n && n[k] == m[k] { TrimPrefix(k, prefix); assert prefix + k in state; }
    forall k | k in n ensures k in m { TrimPrefix(k, prefix); assert prefix + k in state; }
  }

  method WithoutTemporaryState(state: State) returns (filtered: State)
    ensures filtered == map k | k in state && !ScopeOf(k).TempScope? :: state[k]
  {
    filtered := map[];
    var rest := state.Keys;
    while rest != {}
      invariant rest <= state.Keys
      invariant filtered == map k | k in state && k !in rest && !ScopeOf(k).TempScope? :: state[k]
    {
      var key :| key in rest;
      rest := rest - {key};
      if !HasPrefix(key, TEMP_PREFIX) { filtered := filtered[key := state[key]]; }
    }
  }

  /** The public view: session keys as they are, shared keys under their prefix; shared keys win. */
  ghost predicate IsMerge(session: State, app: State, user: State, merged: State) {
    forall k: string ::
      match ScopeOf(k)
      case AppScope => Agree(merged, k, app, k[|APP_PREFIX|..], session, k)
      case UserScope => Agree(merged, k, user, k[|USER_PREFIX|..], session, k)
      case _ => (k in merged <==> k in session) && (k in session ==> merged[k] == session[k])
  }

  /** merged[k] is shared[j] when there is one, else session[i]. */
  ghost predicate Agree(merged: State, k: string, shared: State, j: string, session: State, i: string) {
    if j in shared then k in merged && merged[k] == shared[j]
    else (k in merged <==> i in session) && (i in session ==> merged[k] == session[i])
  }

  lemma {:induction false} MergeOfNothing(session: State)
    ensures IsMerge(session, map[], map[], session)
  {}

  method MergeState(session: State, app: State, user: State) returns (merged: State)
    ensures IsMerge(session, app, user, merged)
  {
    hide IsMerge, ScopeOf;
    merged := session;
    MergeOfNothing(session);
    var apps := app.Keys;
    assert (map k | k in app && k !in apps :: app[k]) == map[];
    while apps != {}
      invariant apps <= app.Keys
      invariant IsMerge(session, map k | k in app && k !in apps :: app[k], map[], merged)
    {
      var key :| key in apps;
      ghost var before := map k | k in app && k !in apps :: app[k];
      apps := apps - {key};
      assert (map k | k in app && k !in apps :: app[k]) == before[key := app[key]];
      MergeOneApp(session, before, map[], merged, key, app[key]);
      merged := merged[APP_PREFIX + key := app[key]];
    }
    assert (map k | k in app && k !in apps :: app[k]) == app;
    var users := user.Keys;
    assert (map k | k in user && k !in users :: user[k]) == map[];
    while users != {}
      invariant users <= user.Keys
      invariant IsMerge(session, app, map k | k in user && k !in users :: user[k], merged)
    {
      var key :| key in users;
      ghost var before := map k | k in user && k !in users :: user[k];
      users := users - {key};
      assert (map k | k in user && k !in users :: user[k]) == before[key := user[key]];
      MergeOneUser(session, app, before, merged, key, user[key]);
      merged := merged[USER_PREFIX + key := user[key]];
    }
    assert (map k | k in user && k !in users :: user[k]) == user;
  }

  lemma {:induction false} MergeOneApp(session: State, app: State, user: State, merged: State, key: string, value: string)
    requires IsMerge(session, app, user, merged)
    ensures IsMerge(session, app[key := value], user, merged[APP_PREFIX + key := value])
  {
    ScopesOfPrefixed(key);
    TrimPrefix(key, APP_PREFIX);
    forall k: string | ScopeOf(k).AppScope? ensures APP_PREFIX + k[|APP_PREFIX|..] == k { ScopesOfPrefixed(k); TrimPrefix(k, APP_PREFIX); }
  }

  lemma {:induction false} MergeOneUser(session: State, app: State, user: State, merged: State, key: string, value: string)
    requires IsMerge(session, app, user, merged)
    ensures IsMerge(session, app, user[key := value], merged[USER_PREFIX + key := value])
  {
    ScopesOfPrefixed(key);
    TrimPrefix(key, USER_PREFIX);
    forall k: string | ScopeOf(k).UserScope? ensures USER_PREFIX + k[|USER_PREFIX|..] == k { ScopesOfPrefixed(k); TrimPrefix(k, USER_PREFIX); }
  }

  lemma {:induction false} MergeUnique(session: State, app: State, user: State, m: State, n: State)
    requires IsMerge(session, app, user, m) && IsMerge(session, app, user, n)
    ensures m == n
  {
    forall k: string ensures (k in m <==> k in n) && (k in m ==> m[k] == n[k]) {
      match ScopeOf(k)
      case AppScope => assert Agree(m, k, app, k[|APP_PREFIX|..], session, k) && Agree(n, k, app, k[|APP_PREFIX|..], session, k);
      case UserScope => assert Agree(m, k, user, k[|USER_PREFIX|..], session, k) && Agree(n, k, user, k[|USER_PREFIX|..], session, k);
      case _ =>
    }
  }

  /** Splitting and merging again loses exactly the temporary keys. */
  lemma {:induction false} MergeOfSplit(state: State, s: Split, merged: State)
    requires IsSplit(state, s) && IsMerge(s.session, s.app, s.user, merged)
    ensures merged == map k | k in state && !ScopeOf(k).TempScope? :: state[k]
  {
    forall k: string
      ensures k in merged <==> k in state && !ScopeOf(k).TempScope?
      ensures k in merged ==> merged[k] == state[k]
    {
      ScopesOfPrefixed(k);
      TrimPrefix(k, APP_PREFIX);
      TrimPrefix(k, USER_PREFIX);
    }
  }

  /** `merged` carries `shared` under `prefix`, and nothing else there. */
  ghost predicate Carries(merged: State, prefix: string, shared: State) {
    forall k: string | HasPrefix(k, prefix) ::
      (k in merged <==> Trim(k, prefix) in shared) && (k in merged ==> merged[k] == shared[Trim(k, prefix)])
  }

  lemma {:induction false} CarriedApp(session: State, app: State, user: State, merged: State)
    requires forall k :: k in session ==> ScopeOf(k).SessionScope?
    requires IsMerge(session, app, user, merged)
    ensures Carries(merged, APP_PREFIX, app)
  {
    forall k: string | HasPrefix(k, APP_PREFIX)
      ensures (k in merged <==> Trim(k, APP_PREFIX) in app) && (k in merged ==> merged[k] == app[Trim(k, APP_PREFIX)])
    {
      ScopesOfPrefixed(k);
      assert Agree(merged, k, app, k[|APP_PREFIX|..], session, k);
    }
  }

  lemma {:induction false} CarriedUser(session: State, app: State, user: State, merged: State)
    requires forall k :: k in session ==> ScopeOf(k).SessionScope?
    requires IsMerge(session, app, user, merged)
    ensures Carries(merged, USER_PREFIX, user)
  {
    forall k: string | HasPrefix(k, USER_PREFIX)
      ensures (k in merged <==> Trim(k, USER_PREFIX) in user) && (k in merged ==> merged[k] == user[Trim(k, USER_PREFIX)])
    {
      ScopesOfPrefixed(k);
      assert Agree(merged, k, user, k[|USER_PREFIX|..], session, k);
    }
  }

  lemma {:induction false} ScopeReadBack(merged: State, prefix: string, shared: State, m: State)
    requires Carries(merged, prefix, shared) && IsScope(merged, prefix, m)
    ensures m == shared
  {
    forall k: string ensures (k in m <==> k in shared) && (k in shared ==> m[k] == shared[k]) {
      TrimPrefix(k, prefix);
      assert HasPrefix(prefix + k, prefix);
    }
  }

  /** The scopes of a merged view are the scopes it was merged from. */
  lemma {:induction false} SplitOfMerge(session: State, app: State, user: State, merged: State, s: Split)
    requires forall k :: k in session ==> ScopeOf(k).SessionScope?
    requires IsMerge(session, app, user, merged) && IsSplit(merged, s)
    ensures s == Split(session, app, user)
  {
    hide IsScope, Carries, Agree, ScopeOf;
    CarriedApp(session, app, user, merged);
    CarriedUser(session, app, user, merged);
    ScopeReadBack(merged, APP_PREFIX, app, s.app);
    ScopeReadBack(merged, USER_PREFIX, user, s.user);
    forall k: string ensures k in s.session <==> k in session {
      if ScopeOf(k).SessionScope? { assert k in merged <==> k in session; }
    }
    assert s.session == session;
  }

  /** A merged view, key by key: shared keys under "app:" and "user:", all others as the session has them. */
  lemma {:induction false} MergedKeys(session: State, app: State, user: State, merged: State, k: string)
    requires IsMerge(session, app, user, merged)
    ensures k in app ==> "app:" + k in merged && merged["app:" + k] == app[k]
    ensures k in user ==> "user:" + k in merged && merged["user:" + k] == user[k]
    ensures !("app:" <= k) && !("user:" <= k) ==> (k in merged <==> k in session) && (k in session ==> merged[k] == session[k])
  {
    ScopesOfPrefixed(k);
    TrimPrefix(k, APP_PREFIX);
    TrimPrefix(k, USER_PREFIX);
    if k in app { assert Agree(merged, APP_PREFIX + k, app, (APP_PREFIX + k)[|APP_PREFIX|..], session, APP_PREFIX + k); }
    if k in user { assert Agree(merged, USER_PREFIX + k, user, (USER_PREFIX + k)[|USER_PREFIX|..], session, USER_PREFIX + k); }
  }

  /** A split delta, key by key. */
  lemma {:induction false} SplitKeys(delta: State, s: Split, k: string)
    requires IsSplit(delta, s)
    ensures k in s.app <==> "app:" + k in delta
    ensures k in s.app ==> s.app[k] == delta["app:" + k]
    ensures k in s.user <==> "user:" + k in delta
    ensures k in s.user ==> s.user[k] == delta["user:" + k]
    ensures k in s.session <==> k in delta && !("app:" <= k) && !("user:" <= k) && !("temp:" <= k)
    ensures k in s.session ==> s.session[k] == delta[k]
  {
    ScopesOfPrefixed(k);
    TrimPrefix(k, APP_PREFIX);
    TrimPrefix(k, USER_PREFIX);
  }
}
