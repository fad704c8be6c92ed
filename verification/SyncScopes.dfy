/** Which part of the bucket a user may touch, and which manifest a key belongs to. */
module SyncScopes {
  import opened Common
  import opened ObjectKeys

  const MANIFEST_KEY: Key := ".donut-sync-manifest"

  datatype Mode = SelfHosted | Cloud

  /** `teamPrefix` is empty when the user has no team. */
  datatype UserContext = UserContext(mode: Mode, prefix: Key, teamPrefix: Key)

  function ScopeKey(ctx: UserContext, key: Key): Key {
    if ctx.mode.SelfHosted? then key
    else if ctx.teamPrefix != "" && ctx.teamPrefix <= key then key
    else ctx.prefix + key
  }

  function ScopesFor(ctx: UserContext): seq<Key> {
    if ctx.mode.SelfHosted? then [""]
    else [ctx.prefix] + if ctx.teamPrefix != "" then [ctx.teamPrefix] else []
  }

  function ScopeForKey(ctx: UserContext, scopedKey: Key): Option<Key> {
    if ctx.mode.SelfHosted? then Some("")
    else if ctx.teamPrefix != "" && ctx.teamPrefix <= scopedKey then Some(ctx.teamPrefix)
    else if ctx.prefix <= scopedKey then Some(ctx.prefix)
    else None
  }

  /** `validateKeyAccess` returns normally. */
  predicate KeyAllowed(ctx: UserContext, key: Key) {
    || ctx.mode.SelfHosted?
    || ctx.prefix <= key
    || (ctx.teamPrefix != "" && ctx.teamPrefix <= key)
  }

  /** A scoped key always passes validation and is owned by one of the user's own scopes. */
  lemma ScopedKeyIsOwned(ctx: UserContext, key: Key)
    ensures KeyAllowed(ctx, ScopeKey(ctx, key))
    ensures var owner := ScopeForKey(ctx, ScopeKey(ctx, key));
            owner.Some? && owner.value in ScopesFor(ctx) && owner.value <= ScopeKey(ctx, key)
  {
    var scopes := ScopesFor(ctx);
    assert scopes[0] in scopes;
    if |scopes| == 2 { assert scopes[1] in scopes; }
  }

  /** The validated keys are exactly the keys some scope of the user owns. */
  lemma AllowedIffOwned(ctx: UserContext, key: Key)
    ensures KeyAllowed(ctx, key) <==> ScopeForKey(ctx, key).Some?
    ensures KeyAllowed(ctx, key) <==> exists s :: s in ScopesFor(ctx) && s <= key
  {
    var scopes := ScopesFor(ctx);
    assert scopes[0] in scopes;
    if |scopes| == 2 { assert scopes[1] in scopes; }
  }

  /** No scope prefix lies inside another one, as with `users/{id}/` and `teams/{id}/`. */
  ghost predicate Separated(scopes: set<Key>) {
    forall p, q :: p in scopes && q in scopes && p <= q ==> p == q
  }

  /** A key is kept when it is self-hosted or names the team's own scope; any other lands in the user's scope. */
  lemma ScopeKeyKeeps(ctx: UserContext, key: Key)
    ensures ctx.mode.SelfHosted? || (ctx.teamPrefix != "" && ctx.teamPrefix <= key) ==> ScopeKey(ctx, key) == key
    ensures ctx.mode.Cloud? && !(ctx.teamPrefix != "" && ctx.teamPrefix <= key) ==>
              && |ScopeKey(ctx, key)| == |ctx.prefix| + |key|
              && ScopeKey(ctx, key)[..|ctx.prefix|] == ctx.prefix && ScopeKey(ctx, key)[|ctx.prefix|..] == key
  {
  }

  /** With separated prefixes no two keys of a user become one object. */
  lemma ScopeKeyIsInjective(ctx: UserContext, a: Key, b: Key)
    requires NoDup(ScopesFor(ctx)) && Separated(Elements(ScopesFor(ctx)))
    requires ScopeKey(ctx, a) == ScopeKey(ctx, b)
    ensures a == b
  {
    ScopeKeyKeeps(ctx, a);
    ScopeKeyKeeps(ctx, b);
    var scopes, k := ScopesFor(ctx), ScopeKey(ctx, a);
    if ctx.mode.Cloud? && ctx.teamPrefix != "" && ctx.prefix <= k && ctx.teamPrefix <= k {
      assert scopes[0] in Elements(scopes) && scopes[1] in Elements(scopes);
      OwnerIsUnique(Elements(scopes), scopes[0], scopes[1], k);
    }
  }

  lemma PrefixesCompare(p: Key, q: Key, k: Key)
    requires p <= k && q <= k
    ensures p <= q || q <= p
  {
    if |p| <= |q| {
      assert p == k[..|q|][..|p|];
    } else {
      assert q == k[..|p|][..|q|];
    }
  }

  lemma OwnerIsUnique(scopes: set<Key>, p: Key, q: Key, k: Key)
    requires Separated(scopes) && p in scopes && q in scopes
    requires p <= k && q <= k
    ensures p == q
  {
    PrefixesCompare(p, q, k);
  }
}
