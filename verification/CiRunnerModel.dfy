/**
 Saving and building the CI runner settings, on values: which vault keys hold a runner's
 secrets, what a save makes of each [[runners]] block, and what the runner's config.toml is
 built from. A parsed config.toml is a list of runners with the fields the save looks at.
 */
module CiRunnerModel {
  import opened Wrappers
  import opened Text

  datatype SecretField = AccessKey | SecretKey | SessionToken | PrivateKey | AccountKey
  datatype Slot = TokenSlot | CacheSlot(f: SecretField)

  const AllFields: set<SecretField> := {AccessKey, SecretKey, SessionToken, PrivateKey, AccountKey}
  const AllSlots: set<Slot> := {TokenSlot, CacheSlot(AccessKey), CacheSlot(SecretKey), CacheSlot(SessionToken),
                                CacheSlot(PrivateKey), CacheSlot(AccountKey)}

  /** A TOML field: Other is a value that is not a string. */
  datatype Field = Absent | Str(s: string) | Other

  type Cache = m: map<SecretField, Field> | m.Keys == AllFields
    witness map[AccessKey := Absent, SecretKey := Absent, SessionToken := Absent, PrivateKey := Absent,
                AccountKey := Absent]

  datatype Runner = Runner(idField: Field, token: Field, cache: Cache, url: Field, name: Field, executor: Field)

  /** Stands in a stored config for a secret kept in the vault. */
  const Marker := "(saved in the vault)"
  const MaxRunners := 16

  function TextOf(f: Field): string {
    if f.Str? then f.s else ""
  }

  // ---- vault keys ----

  function Path(f: SecretField): string {
    match f
    case AccessKey => "s3.AccessKey"
    case SecretKey => "s3.SecretKey"
    case SessionToken => "s3.SessionToken"
    case PrivateKey => "gcs.PrivateKey"
    case AccountKey => "azure.AccountKey"
  }

  /** p is this machine's prefix. */
  function Key(p: string, id: string, slot: Slot): string {
    match slot
    case TokenSlot => p + ("token:" + id)
    case CacheSlot(f) => p + ("secret:" + (id + (":" + Path(f))))
  }

  lemma PathHasNoColon(f: SecretField)
    ensures ':' !in Path(f)
  {
  }

  lemma PathInjective(f: SecretField, g: SecretField)
    requires Path(f) == Path(g)
    ensures f == g
  {
    assert Path(f)[3] == Path(g)[3] && Path(f)[4] == Path(g)[4];
  }

  lemma StripPrefix(p: string, a: string, b: string)
    requires p + a == p + b
    ensures a == b
  {
    assert (p + a)[|p|..] == a && (p + b)[|p|..] == b;
  }

  lemma ColonSplit(a: string, x: string, b: string, y: string)
    requires a + (":" + x) == b + (":" + y) && ':' !in x && ':' !in y
    ensures a == b && x == y
  {
    var s, t := a + (":" + x), b + (":" + y);
    assert s[|a|] == ':' && t[|b|] == ':';
    assert forall k :: |a| < k < |s| ==> s[k] == x[k - |a| - 1];
    assert forall k :: |b| < k < |t| ==> t[k] == y[k - |b| - 1];
    assert |a| == |b|;
    assert s[..|a|] == a && t[..|b|] == b;
    StripPrefix(a, ":" + x, ":" + y);
    StripPrefix(":", x, y);
  }

  /** No two runners share a vault key, nor do two secrets of one runner. */
  lemma KeyInjective(p: string, i: string, s: Slot, j: string, t: Slot)
    requires Key(p, i, s) == Key(p, j, t)
    ensures i == j && s == t
  {
    assert Key(p, i, s)[|p|] == if s.TokenSlot? then 't' else 's';
    assert Key(p, j, t)[|p|] == if t.TokenSlot? then 't' else 's';
    if s.TokenSlot? {
      StripPrefix(p, "token:" + i, "token:" + j);
      StripPrefix("token:", i, j);
    } else {
      StripPrefix(p, "secret:" + (i + (":" + Path(s.f))), "secret:" + (j + (":" + Path(t.f))));
      StripPrefix("secret:", i + (":" + Path(s.f)), j + (":" + Path(t.f)));
      PathHasNoColon(s.f);
      PathHasNoColon(t.f);
      ColonSplit(i, Path(s.f), j, Path(t.f));
      PathInjective(s.f, t.f);
    }
  }

  // ---- saving one block ----

  type VaultMap = map<string, string>

  predicate Has(v: VaultMap, key: string) {
    key in v && v[key] != ""
  }

  lemma KeysDistinct(p: string, id: string)
    ensures forall s, t :: Key(p, id, s) == Key(p, id, t) ==> s == t
  {
    forall s, t | Key(p, id, s) == Key(p, id, t) ensures s == t { KeyInjective(p, id, s, id, t); }
  }

  /** What ciCopySecrets puts: the secrets runner from holds, under runner to. */
  function Copies(p: string, v: VaultMap, from: string, to: string, slots: set<Slot>): (m: VaultMap)
    ensures forall s :: s in slots && Key(p, from, s) in v ==>
        Key(p, to, s) in m && m[Key(p, to, s)] == v[Key(p, from, s)]
    ensures forall k :: k in m ==> exists s :: s in slots && Key(p, from, s) in v && k == Key(p, to, s)
  {
    KeysDistinct(p, to);
    map s | s in slots && Key(p, from, s) in v :: Key(p, to, s) := v[Key(p, from, s)]
  }

  function Typed(f: Field): bool {
    TrimSpace(TextOf(f)) != "" && TrimSpace(TextOf(f)) != Marker
  }

  predicate Blank(f: Field) {
    TrimSpace(TextOf(f)) == ""
  }

  /** What stashing a runner's cache secrets puts. */
  function StashPuts(p: string, id: string, c: Cache, fs: set<SecretField>): (m: VaultMap)
    ensures forall f :: f in fs && f in c && Typed(c[f]) ==>
        Key(p, id, CacheSlot(f)) in m && m[Key(p, id, CacheSlot(f))] == TrimSpace(TextOf(c[f]))
    ensures forall k :: k in m ==> exists f :: f in fs && f in c && Typed(c[f]) && k == Key(p, id, CacheSlot(f))
  {
    KeysDistinct(p, id);
    map f | f in fs && f in c && Typed(c[f]) :: Key(p, id, CacheSlot(f)) := TrimSpace(TextOf(c[f]))
  }

  /** What stashing leaves in the config. */
  function StashField(p: string, v: VaultMap, id: string, c: Cache, f: SecretField): Field
    requires f in AllFields
  {
    var t := TrimSpace(TextOf(c[f]));
    if t == Marker then (if Has(v, Key(p, id, CacheSlot(f))) then c[f] else Str(""))
    else if t == "" then c[f]
    else Str(Marker)
  }

  function Stashed(p: string, v: VaultMap, id: string, c: Cache): Cache {
    map f | f in AllFields :: StashField(p, v, id, c, f)
  }

  /** The keys of emptied secrets, to delete after the save. */
  function StashGone(p: string, v: VaultMap, id: string, c: Cache, fs: set<SecretField>): set<string> {
    set f | f in fs && f in c && Blank(c[f]) && Has(v, Key(p, id, CacheSlot(f))) :: Key(p, id, CacheSlot(f))
  }

  function ClearMarkers(r: Runner): Runner {
    r.(token := if r.token == Str(Marker) then Absent else r.token,
       cache := map f | f in AllFields :: if r.cache[f] == Str(Marker) then Str("") else r.cache[f])
  }

  /** The same runner at the same place of a config stored before ids. */
  predicate SameLegacyRunner(prev: seq<Runner>, i: nat, r: Runner) {
    && i < |prev|
    && TextOf(prev[i].idField) == ""
    && !prev[i].url.Other? && !r.url.Other? && TextOf(prev[i].url) == TextOf(r.url)
    && !prev[i].name.Other? && !r.name.Other? && TextOf(prev[i].name) == TextOf(r.name)
  }

  /** A save under way: the vault so far, the tokens still to be put, the keys to delete once
      the setting is saved, and the blocks written so far. */
  datatype Draft = Draft(vault: VaultMap, seen: set<string>, tokens: map<string, string>,
                         legacy: set<string>, removed: set<string>, out: seq<Runner>)

  function OwnId(d: Draft, r: Runner): string {
    if TextOf(r.idField) in d.seen then "" else TextOf(r.idField)
  }

  function Settled(d: Draft, r: Runner): Runner {
    if TextOf(r.idField) in d.seen then ClearMarkers(r) else r
  }

  predicate Inherits(prev: seq<Runner>, i: nat, r: Runner) {
    r.idField == Absent && SameLegacyRunner(prev, i, r)
  }

  /** Copies the index's secrets to the new id, if the block inherits them. */
  function TakeOver(p: string, prev: seq<Runner>, d: Draft, r: Runner, id: string): Draft {
    if OwnId(d, r) == "" && Inherits(prev, |d.out|, r) then
      d.(vault := d.vault + Copies(p, d.vault, Decimal(|d.out|), id, AllSlots),
         legacy := d.legacy + set s | s in AllSlots && Key(p, Decimal(|d.out|), s) in d.vault ::
             Key(p, Decimal(|d.out|), s))
    else d
  }

  predicate Emptied(f: Field) {
    f != Absent && Blank(f)
  }

  /** Stores the block under its id. */
  function Store(p: string, d: Draft, r: Runner, id: string): Draft {
    var tokenKey := Key(p, id, TokenSlot);
    var token := if Typed(r.token) || (!Emptied(r.token) && Has(d.vault, tokenKey)) then Str(Marker) else Absent;
    Draft(d.vault + StashPuts(p, id, r.cache, AllFields),
          d.seen + {id},
          if Typed(r.token) then d.tokens[id := TrimSpace(TextOf(r.token))] else d.tokens,
          d.legacy,
          d.removed + (if Emptied(r.token) then {tokenKey} else {}) + StashGone(p, d.vault, id, r.cache, AllFields),
          d.out + [r.(idField := Str(id), token := token, cache := Stashed(p, d.vault, id, r.cache))])
  }

  function IdFor(d: Draft, r: Runner, newId: string): string {
    if OwnId(d, r) == "" then newId else OwnId(d, r)
  }

  function SaveOne(p: string, prev: seq<Runner>, d: Draft, r: Runner, newId: string): Draft {
    var id := IdFor(d, r, newId);
    Store(p, TakeOver(p, prev, d, r, id), Settled(d, r), id)
  }

  /** The first n blocks of rs; newIds are the ids ciNewID would hand out. */
  function SaveUpTo(p: string, prev: seq<Runner>, v: VaultMap, rs: seq<Runner>, newIds: seq<string>, n: nat): (d: Draft)
    requires n <= |rs| == |newIds|
    ensures |d.out| == n
  {
    if n == 0 then Draft(v, {}, map[], {}, {}, [])
    else SaveOne(p, prev, SaveUpTo(p, prev, v, rs, newIds, n - 1), rs[n - 1], newIds[n - 1])
  }

  function TokenPuts(p: string, tokens: map<string, string>): (m: VaultMap)
    ensures forall id :: id in tokens ==> Key(p, id, TokenSlot) in m && m[Key(p, id, TokenSlot)] == tokens[id]
    ensures forall k :: k in m ==> exists id :: id in tokens && k == Key(p, id, TokenSlot)
  {
    TokenKeysDistinct(p);
    map id | id in tokens :: Key(p, id, TokenSlot) := tokens[id]
  }

  lemma TokenKeysDistinct(p: string)
    ensures forall i, j :: Key(p, i, TokenSlot) == Key(p, j, TokenSlot) ==> i == j
  {
    forall i, j | Key(p, i, TokenSlot) == Key(p, j, TokenSlot) ensures i == j {
      KeyInjective(p, i, TokenSlot, j, TokenSlot);
    }
  }

  /** The vault after all puts of a save, before its deletes. */
  function Written(p: string, d: Draft): VaultMap {
    d.vault + TokenPuts(p, d.tokens)
  }

  /** v is was with some of the doomed keys deleted; a delete that fails leaves its key. */
  ghost predicate CleanedUp(was: VaultMap, v: VaultMap, doomed: set<string>) {
    forall k :: Lookup(v, k) == Lookup(was, k) || (k in doomed && k !in v)
  }

  // ---- building one block ----

  function RunnerId(r: Runner, i: nat): string {
    if TextOf(r.idField) != "" then TextOf(r.idField) else Decimal(i)
  }

  function FillField(p: string, v: VaultMap, id: string, f: SecretField, x: Field): Field {
    if x != Str(Marker) then x
    else Str(if Key(p, id, CacheSlot(f)) in v then v[Key(p, id, CacheSlot(f))] else "")
  }

  /** Block i as the runner container gets it. */
  function BuildRunner(p: string, v: VaultMap, r: Runner, i: nat): Result<Runner> {
    var id := RunnerId(r, i);
    var key := Key(p, id, TokenSlot);
    if r.executor != Str("docker") then Err("only the docker executor")
    else if !Has(v, key) then Err("runner has no token")
    else Ok(r.(idField := Absent, token := Str(v[key]),
               cache := map f | f in AllFields :: FillField(p, v, id, f, r.cache[f])))
  }
}
