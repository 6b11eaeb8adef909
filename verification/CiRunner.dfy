/**
 CIRunnerSet and ciBuildTOML as the app runs them: a vault any of whose calls can fail, the
 undo journal, blocks rewritten one by one. A failed save is proved to leave the vault and the
 setting as they were, a successful one to write exactly what CiRunnerModel says; what that
 gives the runners is CiRunnerProofs.
 */
module CiRunner {
  import opened Wrappers
  import opened Text
  import M = CiRunnerModel
  import P = CiRunnerProofs

  /** The secret store: every call may fail, and a write that reports failure may have happened. */
  class Vault {
    var data: map<string, string>
    ghost var deleted: set<string>   // every key a delete was tried on
    ghost var failures: nat          // how many calls failed

    constructor (data: map<string, string>)
      ensures this.data == data && deleted == {} && failures == 0
    {
      this.data := data;
      deleted, failures := {}, 0;
    }

    method Get(key: string) returns (r: Result<Option<string>>)
      modifies this`failures
      ensures failures == old(failures) + if r.Ok? then 0 else 1
      ensures r.Ok? ==> r.value == Lookup(data, key)
    {
      var ok: bool := *;
      if !ok { failures := failures + 1; return Err("vault: read failed"); }
      return Ok(Lookup(data, key));
    }

    method Put(key: string, value: string) returns (ok: bool)
      modifies this`data, this`failures
      ensures failures == old(failures) + if ok then 0 else 1
      ensures ok ==> data == old(data)[key := value]
      ensures !ok ==> data == old(data) || data == old(data)[key := value]
    {
      var written: bool := *;
      if written { data := data[key := value]; }
      var reported: bool := *;
      ok := written && reported;
      if !ok { failures := failures + 1; }
    }

    method Delete(key: string) returns (ok: bool)
      modifies this
      ensures failures == old(failures) + if ok then 0 else 1
      ensures ok ==> data == old(data) - {key}
      ensures !ok ==> data == old(data) || data == old(data) - {key}
      ensures deleted == old(deleted) + {key}
    {
      deleted := deleted + {key};
      var gone: bool := *;
      if gone { data := data - {key}; }
      var reported: bool := *;
      ok := gone && reported;
      if !ok { failures := failures + 1; }
    }

    /** Whether the key has a nonempty value; when the read fails nothing is said about it. */
    method Has(key: string) returns (r: Result<bool>)
      modifies this`failures
      ensures failures == old(failures) + if r.Ok? then 0 else 1
      ensures r.Ok? ==> r.value == M.Has(data, key)
    {
      var v := Get(key);
      if v.Err? { return Err("vault"); }
      return Ok(v.value.Some? && v.value.value != "");
    }
  }

  /** What a save overwrote. orig is the vault when the save began. */
  class VaultJournal {
    const vault: Vault
    var prev: map<string, Option<string>>
    ghost const orig: map<string, string>

    /** Every key the journal does not hold is as it was, and it holds the earlier value of every
        other; nothing that was there is missing. */
    ghost predicate Valid()
      reads this, vault
    {
      && (forall k :: k in prev ==> prev[k] == Lookup(orig, k))
      && (forall k :: k !in prev ==> Lookup(vault.data, k) == Lookup(orig, k))
      && orig.Keys <= vault.data.Keys
    }

    constructor (vault: Vault)
      ensures this.vault == vault && orig == vault.data && Valid() && prev == map[]
    {
      this.vault := vault;
      prev := map[];
      orig := vault.data;
    }

    method Put(key: string, value: string) returns (ok: bool)
      requires Valid()
      modifies this`prev, vault`data, vault`failures
      ensures Valid() && vault.failures == old(vault.failures) + if ok then 0 else 1
      ensures ok ==> vault.data == old(vault.data)[key := value]
    {
      if key !in prev {
        var v := vault.Get(key);
        if v.Err? { return false; }
        prev := prev[key := v.value];
      }
      ok := vault.Put(key, value);
    }

    /** Puts every value back, in any order; stuck are the keys whose restoring call failed. */
    method Rollback() returns (ghost stuck: set<string>)
      requires Valid()
      modifies vault
      ensures forall k :: k !in stuck ==> Lookup(vault.data, k) == Lookup(orig, k)
      ensures vault.deleted - old(vault.deleted) !! orig.Keys
      ensures old(vault.failures) <= vault.failures && (stuck == {} <==> vault.failures == old(vault.failures))
    {
      stuck := {};
      var keys := prev.Keys;
      while keys != {}
        invariant keys <= prev.Keys
        invariant forall k :: k !in keys && k !in stuck ==> Lookup(vault.data, k) == Lookup(orig, k)
        invariant vault.deleted - old(vault.deleted) !! orig.Keys
        invariant old(vault.failures) <= vault.failures && (stuck == {} <==> vault.failures == old(vault.failures))
      {
        var key :| key in keys;
        var ok;
        match prev[key] {
          case None => ok := vault.Delete(key);
          case Some(v) => ok := vault.Put(key, v);
        }
        if !ok { stuck := stuck + {key}; }
        keys := keys - {key};
      }
    }
  }

  /** A config.toml as stored: none, one that does not parse, or its runners. */
  datatype Toml = NoToml | BadToml | Toml(runners: seq<M.Runner>)

  /** Outcomes outside this model: the form's checks, printing the file, and writing the setting. */
  datatype Checks = Checks(hostsOk: bool, urlOk: bool, marshalOk: bool, settingOk: bool)

  datatype Config = Config(url: string, name: string, toml: Toml)

  class App {
    const vault: Vault
    const prefix: string           // this machine's vault key prefix
    var setting: Config

    constructor (vault: Vault, prefix: string, setting: Config)
      ensures this.vault == vault && this.prefix == prefix && this.setting == setting
    {
      this.vault, this.prefix, this.setting := vault, prefix, setting;
    }

    /** Copies a runner's secrets to another id and returns the keys copied from. */
    method CopySecrets(j: VaultJournal, source: string, to: string) returns (r: Result<set<string>>)
      requires j.vault == vault && j.Valid()
      modifies j`prev, vault`data, vault`failures
      ensures j.Valid() && vault.failures == old(vault.failures) + if r.Ok? then 0 else 1
      ensures r.Ok? ==> vault.data == old(vault.data) + M.Copies(prefix, old(vault.data), source, to, M.AllSlots)
      ensures r.Ok? ==> r.value == CopiedFrom(old(vault.data), source, M.AllSlots)
    {
      hide M.Copies, M.Key;
      ghost var v0 := vault.data;
      var todo, copied: set<string> := M.AllSlots, {};
      ghost var done: set<M.Slot> := {};
      NothingCopied(v0, source, to);
      while todo != {}
        invariant todo + done == M.AllSlots && j.Valid() && vault.failures == old(vault.failures)
        invariant vault.data == v0 + M.Copies(prefix, v0, source, to, done)
        invariant copied == CopiedFrom(v0, source, done)
      {
        var s :| s in todo;
        CopiedSoFar(v0, source, to, done, s);
        var v := vault.Get(M.Key(prefix, source, s));
        if v.Err? { return Err("runner secrets"); }
        if v.value.Some? {
          var ok := j.Put(M.Key(prefix, to, s), v.value.value);
          if !ok { return Err("runner secrets"); }
          copied := copied + {M.Key(prefix, source, s)};
        }
        todo, done := todo - {s}, done + {s};
      }
      assert done == M.AllSlots;
      return Ok(copied);
    }

    /** The keys copying these slots reads. */
    ghost function CopiedFrom(v: map<string, string>, source: string, slots: set<M.Slot>): set<string> {
      set s | s in slots && M.Key(prefix, source, s) in v :: M.Key(prefix, source, s)
    }

    lemma NothingCopied(v: map<string, string>, source: string, to: string)
      ensures v + M.Copies(prefix, v, source, to, {}) == v
    {
    }

    /** Copying more of a runner's secrets does not change what is left to copy. */
    lemma CopiedSoFar(v: map<string, string>, source: string, to: string, done: set<M.Slot>, s: M.Slot)
      ensures Lookup(v + M.Copies(prefix, v, source, to, done), M.Key(prefix, source, s)) ==
          Lookup(v, M.Key(prefix, source, s))
      ensures v + M.Copies(prefix, v, source, to, done + {s}) ==
              if M.Key(prefix, source, s) in v
              then (v + M.Copies(prefix, v, source, to, done))[M.Key(prefix, to, s) := v[M.Key(prefix, source, s)]]
              else v + M.Copies(prefix, v, source, to, done)
      ensures CopiedFrom(v, source, done + {s}) ==
              CopiedFrom(v, source, done) + if M.Key(prefix, source, s) in v then {M.Key(prefix, source, s)} else {}
    {
      hide M.Key, M.Copies;
      CopiesGrow(v, source, to, done, s);
      forall t | t in done && M.Key(prefix, source, s) == M.Key(prefix, to, t) ensures source == to && s == t {
        M.KeyInjective(prefix, source, s, to, t);
      }
    }

    lemma CopiesGrow(v: map<string, string>, source: string, to: string, done: set<M.Slot>, s: M.Slot)
      ensures M.Copies(prefix, v, source, to, done + {s}) ==
              if M.Key(prefix, source, s) in v
              then M.Copies(prefix, v, source, to, done)[M.Key(prefix, to, s) := v[M.Key(prefix, source, s)]]
              else M.Copies(prefix, v, source, to, done)
    {
      hide M.Key, M.Copies;
      M.KeysDistinct(prefix, to);
      var m, m' := M.Copies(prefix, v, source, to, done), M.Copies(prefix, v, source, to, done + {s});
      forall x | x in m ensures x in m' && m'[x] == m[x] {
        var t :| t in done && M.Key(prefix, source, t) in v && x == M.Key(prefix, to, t);
      }
      forall x | x in m' ensures x in m || (M.Key(prefix, source, s) in v && x == M.Key(prefix, to, s)) {
        var t :| t in done + {s} && M.Key(prefix, source, t) in v && x == M.Key(prefix, to, t);
      }
    }

    /** The vault with a typed secret put. */
    ghost function Stashing(v: map<string, string>, id: string, c: M.Cache, f: M.SecretField): map<string, string>
      requires f in M.AllFields
    {
      if M.Typed(c[f]) then v[M.Key(prefix, id, M.CacheSlot(f)) := TrimSpace(M.TextOf(c[f]))] else v
    }

    /** The key of an emptied secret the vault holds. */
    ghost function Gone(v: map<string, string>, id: string, c: M.Cache, f: M.SecretField): set<string>
      requires f in M.AllFields
    {
      var k := M.Key(prefix, id, M.CacheSlot(f));
      if M.Blank(c[f]) && M.Has(v, k) then {k} else {}
    }

    /** One cache secret: the field the config keeps, and its key if it was emptied. */
    method StashOne(j: VaultJournal, id: string, c: M.Cache, f: M.SecretField)
        returns (r: Result<(M.Field, set<string>)>)
      requires j.vault == vault && j.Valid() && f in M.AllFields
      modifies j`prev, vault`data, vault`failures
      ensures j.Valid() && vault.failures == old(vault.failures) + if r.Ok? then 0 else 1
      ensures r.Ok? ==> vault.data == Stashing(old(vault.data), id, c, f)
      ensures r.Ok? ==> r.value.0 == M.StashField(prefix, old(vault.data), id, c, f)
      ensures r.Ok? ==> r.value.1 == Gone(old(vault.data), id, c, f)
    {
      hide M.Key, TrimSpace;
      var key := M.Key(prefix, id, M.CacheSlot(f));
      var v := TrimSpace(M.TextOf(c[f]));
      if v == M.Marker {
        var has := vault.Has(key);
        if has.Err? { return Err("vault"); }
        return Ok((if has.value then c[f] else M.Str(""), {}));
      } else if v == "" {
        var has := vault.Has(key);
        if has.Err? { return Err("vault"); }
        return Ok((c[f], if has.value then {key} else {}));
      } else {
        var ok := j.Put(key, v);
        if !ok { return Err("runner cache secret"); }
        return Ok((M.Str(M.Marker), {}));
      }
    }

    /** Only the field's own key matters to it. */
    lemma FieldSame(v: map<string, string>, w: map<string, string>, id: string, c: M.Cache, f: M.SecretField)
      requires f in M.AllFields && Lookup(v, M.Key(prefix, id, M.CacheSlot(f))) ==
          Lookup(w, M.Key(prefix, id, M.CacheSlot(f)))
      ensures M.StashField(prefix, v, id, c, f) == M.StashField(prefix, w, id, c, f)
      ensures M.Has(v, M.Key(prefix, id, M.CacheSlot(f))) == M.Has(w, M.Key(prefix, id, M.CacheSlot(f)))
    {
    }

    /** Every typed cache secret of a runner goes to the vault; the result is what the config keeps
        instead, and the keys of the emptied ones. */
    method StashCacheSecrets(j: VaultJournal, id: string, c: M.Cache) returns (r: Result<(M.Cache, set<string>)>)
      requires j.vault == vault && j.Valid()
      modifies j`prev, vault`data, vault`failures
      ensures j.Valid() && vault.failures == old(vault.failures) + if r.Ok? then 0 else 1
      ensures r.Ok? ==> vault.data == old(vault.data) + M.StashPuts(prefix, id, c, M.AllFields)
      ensures r.Ok? ==> r.value.0 == M.Stashed(prefix, old(vault.data), id, c)
      ensures r.Ok? ==> r.value.1 == M.StashGone(prefix, old(vault.data), id, c, M.AllFields)
    {
      hide M.StashPuts, M.StashGone, M.StashField, M.Key, TrimSpace, M.TextOf, M.Typed, M.Blank, M.Has;
      ghost var v0 := vault.data;
      var todo, removed: set<string> := M.AllFields, {};
      var cache := c;
      ghost var done: set<M.SecretField> := {};
      NothingStashed(v0, id, c);
      while todo != {}
        invariant todo + done == M.AllFields && todo !! done && j.Valid() && vault.failures == old(vault.failures)
        invariant vault.data == v0 + M.StashPuts(prefix, id, c, done)
        invariant removed == M.StashGone(prefix, v0, id, c, done)
        invariant forall f :: f in done ==> cache[f] == M.StashField(prefix, v0, id, c, f)
        invariant forall f :: f in todo ==> cache[f] == c[f]
      {
        var f :| f in todo;
        StashedSoFar(v0, id, c, done, f);
        GoneSoFar(v0, id, c, done, f);
        FieldSame(v0, vault.data, id, c, f);
        var one := StashOne(j, id, c, f);
        if one.Err? { return Err(one.error); }
        cache := cache[f := one.value.0];
        removed := removed + one.value.1;
        todo, done := todo - {f}, done + {f};
      }
      assert done == M.AllFields;
      AllStashed(v0, id, c, cache);
      return Ok((cache, removed));
    }

    lemma AllStashed(v: map<string, string>, id: string, c: M.Cache, d: M.Cache)
      requires forall f :: f in M.AllFields ==> d[f] == M.StashField(prefix, v, id, c, f)
      ensures d == M.Stashed(prefix, v, id, c)
    {
    }

    lemma NothingStashed(v: map<string, string>, id: string, c: M.Cache)
      ensures v + M.StashPuts(prefix, id, c, {}) == v && M.StashGone(prefix, v, id, c, {}) == {}
    {
    }

    /** Stashing more of a runner's fields does not change what is left to stash. */
    lemma StashedSoFar(v: map<string, string>, id: string, c: M.Cache, done: set<M.SecretField>, f: M.SecretField)
      requires f in M.AllFields && f !in done
      ensures
        var k := M.Key(prefix, id, M.CacheSlot(f));
        Lookup(v + M.StashPuts(prefix, id, c, done), k) == Lookup(v, k)
      ensures v + M.StashPuts(prefix, id, c, done + {f}) ==
              Stashing(v + M.StashPuts(prefix, id, c, done), id, c, f)
    {
      hide M.Key, TrimSpace, M.Typed, M.StashPuts, M.TextOf;
      var k := M.Key(prefix, id, M.CacheSlot(f));
      var m, m' := M.StashPuts(prefix, id, c, done), M.StashPuts(prefix, id, c, done + {f});
      NotPutYet(id, c, done, f);
      KeptPuts(id, c, done, f);
      if M.Typed(c[f]) { OneMoreKey(v, m, m', k); } else { SameKeys(v, m, m'); }
    }

    lemma NotPutYet(id: string, c: M.Cache, done: set<M.SecretField>, f: M.SecretField)
      requires f in M.AllFields && f !in done
      ensures M.Key(prefix, id, M.CacheSlot(f)) !in M.StashPuts(prefix, id, c, done)
    {
      hide M.Key, TrimSpace, M.Typed, M.StashPuts, M.TextOf;
      M.KeysDistinct(prefix, id);
    }

    lemma OneMoreKey(v: map<string, string>, m: map<string, string>, m': map<string, string>, k: string)
      requires (forall x :: x in m ==> x in m' && m'[x] == m[x]) && forall x :: x in m' ==> x in m || x == k
      requires k !in m && k in m'
      ensures v + m' == (v + m)[k := m'[k]]
    {
    }

    lemma SameKeys(v: map<string, string>, m: map<string, string>, m': map<string, string>)
      requires (forall x :: x in m ==> x in m' && m'[x] == m[x]) && forall x :: x in m' ==> x in m
      ensures v + m' == v + m
    {
    }

    lemma KeptPuts(id: string, c: M.Cache, done: set<M.SecretField>, f: M.SecretField)
      requires f in M.AllFields
      ensures var m, m' := M.StashPuts(prefix, id, c, done), M.StashPuts(prefix, id, c, done + {f});
        && (forall x :: x in m ==> x in m' && m'[x] == m[x])
        && (forall x :: x in m' ==> x in m || (M.Typed(c[f]) && x == M.Key(prefix, id, M.CacheSlot(f))))
    {
      hide M.Key, TrimSpace, M.Typed, M.StashPuts, M.TextOf;
      var m, m' := M.StashPuts(prefix, id, c, done), M.StashPuts(prefix, id, c, done + {f});
      forall x | x in m ensures x in m' && m'[x] == m[x] {
        var g :| g in done && g in c && M.Typed(c[g]) && x == M.Key(prefix, id, M.CacheSlot(g));
      }
      forall x | x in m' ensures x in m || (M.Typed(c[f]) && x == M.Key(prefix, id, M.CacheSlot(f))) {
        var g :| g in done + {f} && g in c && M.Typed(c[g]) && x == M.Key(prefix, id, M.CacheSlot(g));
      }
    }

    lemma GoneSoFar(v: map<string, string>, id: string, c: M.Cache, done: set<M.SecretField>, f: M.SecretField)
      requires f in M.AllFields
      ensures M.StashGone(prefix, v, id, c, done + {f}) ==
              M.StashGone(prefix, v, id, c, done) + Gone(v, id, c, f)
    {
      hide M.Key, M.Blank, M.Has;
    }

    /** One [[runners]] block of a save. d holds what the blocks before it left, the vault's present
        contents included; newId is what ciNewID hands out, None if it fails. */
    method SaveBlock(j: VaultJournal, prev: seq<M.Runner>, d: M.Draft, block: M.Runner, newId: Option<string>)
        returns (r: Result<M.Draft>)
      requires j.vault == vault && j.Valid() && d.vault == vault.data
      modifies j`prev, vault`data, vault`failures
      ensures j.Valid() && old(vault.failures) <= vault.failures && (r.Ok? ==> vault.failures == old(vault.failures))
      ensures r.Err? && vault.failures == old(vault.failures) ==> newId.None?
      ensures r.Ok? ==> r.value == M.SaveOne(prefix, prev, d, block, if newId.Some? then newId.value else "")
      ensures r.Ok? ==> r.value.vault == vault.data
    {
      hide M.Key, TrimSpace, M.Copies, M.StashPuts, M.StashGone, M.Stashed, M.ClearMarkers, M.Inherits;
      var id, b, t := M.TextOf(block.idField), block, d;
      if id in d.seen {
        // Its id belongs to an earlier block: it gets a new one and loses its markers.
        id, b := "", M.ClearMarkers(block);
      }
      if id == "" {
        if newId.None? { return Err("no id"); }
        id := newId.value;
        if M.Inherits(prev, |d.out|, block) {
          var copied := CopySecrets(j, Decimal(|d.out|), id);
          if copied.Err? { return Err(copied.error); }
          t := d.(vault := vault.data, legacy := d.legacy + copied.value);
        }
      }
      assert t == M.TakeOver(prefix, prev, d, block, id);
      r := StoreBlock(j, t, b, id);
    }

    method StoreBlock(j: VaultJournal, d: M.Draft, b: M.Runner, id: string) returns (r: Result<M.Draft>)
      requires j.vault == vault && j.Valid() && d.vault == vault.data
      modifies j`prev, vault`data, vault`failures
      ensures j.Valid() && vault.failures == old(vault.failures) + if r.Ok? then 0 else 1
      ensures r.Ok? ==> r.value == M.Store(prefix, d, b, id) && r.value.vault == vault.data
    {
      hide M.Key, TrimSpace, M.StashPuts, M.StashGone, M.Stashed;
      var tokenKey := M.Key(prefix, id, M.TokenSlot);
      var has := vault.Has(tokenKey);
      if has.Err? { return Err("vault"); }
      var tokens, removed, token := d.tokens, d.removed, M.Absent;
      var t := TrimSpace(M.TextOf(b.token));
      if t != "" && t != M.Marker {
        tokens, token := tokens[id := t], M.Str(M.Marker);
      } else if b.token != M.Absent && t == "" {
        removed := removed + {tokenKey};
      } else if has.value {
        token := M.Str(M.Marker);
      }
      var stashed := StashCacheSecrets(j, id, b.cache);
      if stashed.Err? { return Err(stashed.error); }
      removed := removed + stashed.value.1;
      r := Ok(M.Draft(vault.data, d.seen + {id}, tokens, d.legacy, removed,
                      d.out + [b.(idField := M.Str(id), token := token, cache := stashed.value.0)]));
    }

    ghost function IdsOf(newIds: seq<Option<string>>, n: nat): (ids: seq<string>)
      ensures |ids| == n
    {
      seq(n, i requires 0 <= i < n => if i < |newIds| && newIds[i].Some? then newIds[i].value else "")
    }

    /** Making the first n new ids worked. */
    predicate AllGiven(newIds: seq<Option<string>>, n: nat)
      requires n <= |newIds|
    {
      forall i :: 0 <= i < n ==> newIds[i].Some?
    }

    /** All blocks, in order. */
    method SaveBlocks(j: VaultJournal, prev: seq<M.Runner>, rs: seq<M.Runner>, newIds: seq<Option<string>>)
        returns (r: Result<M.Draft>)
      requires j.vault == vault && j.Valid() && |rs| <= |newIds|
      modifies j`prev, vault`data, vault`failures
      ensures j.Valid() && old(vault.failures) <= vault.failures && (r.Ok? ==> vault.failures == old(vault.failures))
      ensures r.Err? && vault.failures == old(vault.failures) ==> !AllGiven(newIds, |rs|)
      ensures r.Ok? ==> r.value == M.SaveUpTo(prefix, prev, old(vault.data), rs, IdsOf(newIds, |rs|), |rs|)
      ensures r.Ok? ==> r.value.vault == vault.data
    {
      hide M.SaveOne, M.Key;
      var d := M.Draft(vault.data, {}, map[], {}, {}, []);
      for i := 0 to |rs|
        invariant j.Valid() && d.vault == vault.data && vault.failures == old(vault.failures)
        invariant d == M.SaveUpTo(prefix, prev, old(vault.data), rs, IdsOf(newIds, |rs|), i)
      {
        r := SaveBlock(j, prev, d, rs[i], newIds[i]);
        if r.Err? { return; }
        d := r.value;
      }
      r := Ok(d);
    }

    /** Puts the typed tokens, in any order. */
    method PutTokens(j: VaultJournal, tokens: map<string, string>) returns (ok: bool)
      requires j.vault == vault && j.Valid()
      modifies j`prev, vault`data, vault`failures
      ensures j.Valid() && vault.failures == old(vault.failures) + if ok then 0 else 1
      ensures ok ==> vault.data == old(vault.data) + M.TokenPuts(prefix, tokens)
    {
      hide M.Key, M.TokenPuts;
      M.TokenKeysDistinct(prefix);
      ghost var done: map<string, string> := map[];
      var todo := tokens.Keys;
      while todo != {}
        invariant j.Valid() && vault.failures == old(vault.failures)
        invariant todo + done.Keys == tokens.Keys && todo !! done.Keys
        invariant forall id :: id in done ==> done[id] == tokens[id]
        invariant vault.data == old(vault.data) + M.TokenPuts(prefix, done)
      {
        var id :| id in todo;
        ok := j.Put(M.Key(prefix, id, M.TokenSlot), tokens[id]);
        if !ok { return; }
        TokenPutsGrow(old(vault.data), done, id, tokens[id]);
        done := done[id := tokens[id]];
        todo := todo - {id};
      }
      assert done == tokens;
      ok := true;
    }

    lemma TokenPutsGrow(v: map<string, string>, done: map<string, string>, id: string, t: string)
      ensures v + M.TokenPuts(prefix, done[id := t]) ==
          (v + M.TokenPuts(prefix, done))[M.Key(prefix, id, M.TokenSlot) := t]
    {
      hide M.Key, M.TokenPuts;
      M.TokenKeysDistinct(prefix);
      var m, m' := M.TokenPuts(prefix, done), M.TokenPuts(prefix, done[id := t]);
      forall x | x in m ensures x in m' {
        var i :| i in done && x == M.Key(prefix, i, M.TokenSlot);
        assert i in done[id := t];
      }
      assert M.Key(prefix, id, M.TokenSlot) in m';
      forall x | x in m' ensures x == M.Key(prefix, id, M.TokenSlot) || (x in m && m[x] == m'[x]) {
        var i :| i in done[id := t] && x == M.Key(prefix, i, M.TokenSlot);
      }
    }

    /** The setting is saved before anything is deleted from the vault: base is what had been when
        the save began. */
    method SaveSetting(c: Config, settingOk: bool, ghost base: set<string>) returns (ok: bool)
      requires vault.deleted == base
      modifies this`setting
      ensures ok == settingOk && setting == if ok then c else old(setting)
    {
      if settingOk { setting := c; }
      return settingOk;
    }

    /** Deletes emptied and legacy keys; a failed delete is only logged. */
    method CleanUp(doomed: set<string>)
      modifies vault
      ensures M.CleanedUp(old(vault.data), vault.data, doomed)
      ensures old(vault.failures) <= vault.failures
      ensures vault.failures == old(vault.failures) ==> vault.data.Keys !! doomed
    {
      var todo := doomed;
      while todo != {}
        invariant todo <= doomed
        invariant M.CleanedUp(old(vault.data), vault.data, doomed)
        invariant old(vault.failures) <= vault.failures
        invariant vault.failures == old(vault.failures) ==> vault.data.Keys !! doomed - todo
      {
        var k :| k in todo;
        var _ := vault.Delete(k);
        todo := todo - {k};
      }
    }

    ghost function PrevRunners(): seq<M.Runner>
      reads this`setting
    {
      if setting.toml.Toml? then setting.toml.runners else []
    }

    lemma NothingDoomed(written: map<string, string>, v: map<string, string>)
      requires M.CleanedUp(written, v, {})
      ensures v == written
    {
      SameLookups(v, written, {});
    }

    lemma CleanedUpAfter(s: P.Save, written: map<string, string>, v: map<string, string>)
      requires |s.rs| == |s.newIds| && written == P.Saved(s).vault + M.TokenPuts(s.p, P.Saved(s).tokens)
      requires M.CleanedUp(written, v, P.Saved(s).legacy + P.Saved(s).removed)
      ensures P.VaultAfter(s, v)
    {
      hide M.SaveUpTo, M.TokenPuts, M.CleanedUp;
    }

    /** A save the program takes. */
    predicate Acceptable(c: Config, x: Checks) {
      x.hostsOk && x.settingOk &&
      match c.toml
      case BadToml => false
      case NoToml => TrimSpace(c.url) == "" || x.urlOk
      case Toml(rs) => 0 < |rs| <= M.MaxRunners && x.marshalOk
    }

    /** Every emptied and legacy key is gone. */
    ghost predicate AllCleaned(s: P.Save, v: map<string, string>) {
      |s.rs| == |s.newIds| && v.Keys !! P.Saved(s).legacy + P.Saved(s).removed
    }

    /** The save itself; every vault write before the setting is journalled. */
    method TrySet(j: VaultJournal, c: Config, token: string, newIds: seq<Option<string>>, x: Checks)
      returns (r: Result<Config>)
      requires j.vault == vault && j.Valid() && j.orig == vault.data && |newIds| >= M.MaxRunners
      modifies this`setting, j`prev, vault
      ensures old(vault.failures) <= vault.failures
      ensures r.Err? ==> j.Valid() && setting == old(setting) && vault.deleted == old(vault.deleted)
      ensures r.Err? && vault.failures == old(vault.failures) ==>
        !Acceptable(c, x) || (c.toml.Toml? && |c.toml.runners| <= |newIds| && !AllGiven(newIds, |c.toml.runners|))
      ensures r.Ok? ==> Acceptable(c, x)
      ensures r.Ok? ==> setting == r.value && r.value.url == TrimSpace(c.url) && r.value.name == TrimSpace(c.name)
      ensures r.Ok? && c.toml.Toml? ==>
        var s := P.Save(prefix, old(PrevRunners()), old(vault.data), c.toml.runners, IdsOf(newIds, |c.toml.runners|));
        && r.value.toml == Toml(P.Saved(s).out) && P.VaultAfter(s, vault.data)
        && (vault.failures == old(vault.failures) ==> AllCleaned(s, vault.data))
      ensures r.Ok? && !c.toml.Toml? ==>
        c.toml == NoToml == r.value.toml
        && vault.data == old(vault.data) +
            M.TokenPuts(prefix, if TrimSpace(token) != "" then map["0" := TrimSpace(token)] else map[])
    {
      hide P.VaultAfter, M.TokenPuts, M.SaveUpTo, TrimSpace, M.CleanedUp, M.Key, AllGiven;
      if !x.hostsOk { return Err("extra hosts"); }
      var prev := if setting.toml.Toml? then setting.toml.runners else [];
      var trimmed := c.(url := TrimSpace(c.url), name := TrimSpace(c.name));
      var saved, tokens, doomed: set<string> := trimmed, map[], {};
      match c.toml {
        case BadToml => return Err("config.toml");
        case NoToml =>
          if trimmed.url != "" && !x.urlOk { return Err("GitLab URL"); }
          if TrimSpace(token) != "" { tokens := map["0" := TrimSpace(token)]; }
        case Toml(rs) =>
          if |rs| == 0 { return Err("config.toml has no [[runners]]"); }
          if |rs| > M.MaxRunners { return Err("too many runners"); }
          var d := SaveBlocks(j, prev, rs, newIds);
          if d.Err? { return Err(d.error); }
          if !x.marshalOk { return Err("config.toml"); }
          saved, tokens, doomed := trimmed.(toml := Toml(d.value.out)), d.value.tokens,
              d.value.legacy + d.value.removed;
      }
      var put := PutTokens(j, tokens);
      if !put { return Err("runner token"); }
      var set_ := SaveSetting(saved, x.settingOk, old(vault.deleted));
      if !set_ { return Err("setting"); }
      ghost var written := vault.data;
      CleanUp(doomed);
      if c.toml.Toml? {
        var ids := IdsOf(newIds, |c.toml.runners|);
        CleanedUpAfter(P.Save(prefix, old(PrevRunners()), old(vault.data), c.toml.runners, ids), written, vault.data);
      } else {
        NothingDoomed(written, vault.data);
      }
      return Ok(saved);
    }

    /** Saves the settings, or leaves the vault and the setting as they were: stuck are the keys the
        vault refused to restore. What a failed save deletes had not been there before. While no call to
        the vault fails, exactly the acceptable saves go through, nothing is stuck, and everything to
        delete is deleted. */
    method CIRunnerSet(c: Config, token: string, newIds: seq<Option<string>>, x: Checks)
      returns (r: Result<Config>, ghost stuck: set<string>)
      requires |newIds| >= M.MaxRunners
      modifies this`setting, vault
      ensures r.Err? ==> setting == old(setting)
      ensures r.Err? ==> forall k :: k !in stuck ==> Lookup(vault.data, k) == Lookup(old(vault.data), k)
      ensures r.Err? && (stuck == {} || vault.failures == old(vault.failures)) ==> vault.data == old(vault.data)
      ensures r.Err? ==> vault.deleted - old(vault.deleted) !! old(vault.data).Keys
      ensures r.Err? && vault.failures == old(vault.failures) ==>
        !Acceptable(c, x) || (c.toml.Toml? && |c.toml.runners| <= |newIds| && !AllGiven(newIds, |c.toml.runners|))
      ensures r.Ok? ==> Acceptable(c, x)
      ensures r.Ok? ==> setting == r.value && r.value.url == TrimSpace(c.url) && r.value.name == TrimSpace(c.name)
      ensures r.Ok? && c.toml.Toml? ==>
        var s := P.Save(prefix, old(PrevRunners()), old(vault.data), c.toml.runners, IdsOf(newIds, |c.toml.runners|));
        && r.value.toml == Toml(P.Saved(s).out) && P.VaultAfter(s, vault.data)
        && (vault.failures == old(vault.failures) ==> AllCleaned(s, vault.data))
      ensures r.Ok? && !c.toml.Toml? ==>
        c.toml == NoToml == r.value.toml
        && vault.data == old(vault.data) +
            M.TokenPuts(prefix, if TrimSpace(token) != "" then map["0" := TrimSpace(token)] else map[])
    {
      hide P.VaultAfter, M.TokenPuts, M.SaveUpTo, TrimSpace, Acceptable, AllGiven, AllCleaned;
      var j := new VaultJournal(vault);
      stuck := {};
      r := TrySet(j, c, token, newIds, x);
      if r.Err? {
        stuck := j.Rollback();
        SameLookups(vault.data, old(vault.data), stuck);
      }
    }

    lemma SameLookups(v: map<string, string>, w: map<string, string>, stuck: set<string>)
      requires forall k :: k !in stuck ==> Lookup(v, k) == Lookup(w, k)
      ensures stuck == {} ==> v == w
    {
      if stuck == {} {
        assert forall k :: k in v ==> k in w && v[k] == w[k] by {
          forall k | k in v ensures k in w && v[k] == w[k] { assert Lookup(v, k) == Lookup(w, k); }
        }
        assert forall k :: k in w ==> k in v by {
          forall k | k in w ensures k in v { assert Lookup(v, k) == Lookup(w, k); }
        }
      }
    }

    lemma FilledWith(id: string, f: M.SecretField, x: M.Field)
      ensures M.FillField(prefix, vault.data, id, f, x) ==
        if x != M.Str(M.Marker) then x
        else
          var v := Lookup(vault.data, M.Key(prefix, id, M.CacheSlot(f)));
          M.Str(if v.Some? then v.value else "")
    {
    }

    /** One runner's cache secrets back from the vault. */
    method FillCacheSecrets(id: string, c: M.Cache) returns (r: Result<M.Cache>)
      modifies vault`failures
      ensures vault.failures == old(vault.failures) + if r.Ok? then 0 else 1
      ensures r.Ok? ==> forall f :: f in M.AllFields ==> r.value[f] == M.FillField(prefix, vault.data, id, f, c[f])
    {
      hide M.Key, M.FillField;
      var todo, cache := M.AllFields, c;
      while todo != {}
        invariant todo <= M.AllFields && vault.failures == old(vault.failures)
        invariant forall f :: f in M.AllFields ==>
            cache[f] == if f in todo then c[f] else M.FillField(prefix, vault.data, id, f, c[f])
      {
        var f :| f in todo;
        if cache[f] == M.Str(M.Marker) {
          var v := vault.Get(M.Key(prefix, id, M.CacheSlot(f)));
          if v.Err? { return Err("runner cache secret"); }
          cache := cache[f := M.Str(if v.value.Some? then v.value.value else "")];
        }
        FilledWith(id, f, c[f]);
        todo := todo - {f};
      }
      return Ok(cache);
    }

    /** A config the vault has the tokens of. */
    predicate Buildable(c: Config)
      reads vault`data
    {
      && !c.toml.BadToml? && !(c.toml.NoToml? && c.url == "") && Blocks(c) != []
      && forall i :: 0 <= i < |Blocks(c)| ==> M.BuildRunner(prefix, vault.data, Blocks(c)[i], i).Ok?
    }

    /** The runners of the config.toml the container gets: the imported ones or the form's one, with
        their secrets back in - exactly when the config is buildable and no call to the vault fails. */
    method BuildToml(c: Config) returns (r: Result<seq<M.Runner>>)
      modifies vault`failures
      ensures r.Ok? <==> Buildable(c) && vault.failures == old(vault.failures)
      ensures r.Ok? ==> |r.value| == |Blocks(c)|
      ensures r.Ok? ==> forall i :: 0 <= i < |r.value| ==>
          M.BuildRunner(prefix, vault.data, Blocks(c)[i], i) == Ok(r.value[i])
      ensures c.toml.Toml? && r.Ok? ==> |r.value| == |c.toml.runners|
      ensures c.toml.NoToml? && r.Ok? ==>
        && |r.value| == 1 && r.value[0].url == M.Str(c.url) && r.value[0].executor == M.Str("docker")
        && r.value[0].name == M.Str(if c.name == "" then "ssh-tool" else c.name)
        && (forall f :: f in M.AllFields ==> r.value[0].cache[f] == M.Absent)
        && Lookup(vault.data, M.Key(prefix, "0", M.TokenSlot)) == Some(M.TextOf(r.value[0].token))
    {
      hide M.Key, M.FillField, M.BuildRunner, Decimal;
      if c.toml.BadToml? { return Err("config.toml"); }
      if c.toml.NoToml? && c.url == "" { return Err("no GitLab URL and no imported config.toml"); }
      var rs := Blocks(c);
      if |rs| == 0 { return Err("config.toml has no [[runners]]"); }
      var built: seq<M.Runner> := [];
      for i := 0 to |rs|
        invariant |built| == i && vault.failures == old(vault.failures)
        invariant forall k :: 0 <= k < i ==> M.BuildRunner(prefix, vault.data, rs[k], k) == Ok(built[k])
      {
        BuiltFrom(rs[i], i);
        if rs[i].executor != M.Str("docker") { return Err("only the docker executor"); }
        var id := M.RunnerId(rs[i], i);
        var t := vault.Get(M.Key(prefix, id, M.TokenSlot));
        if t.Err? { return Err("runner token"); }
        if t.value.None? || t.value.value == "" { return Err("runner has no token"); }
        var cache := FillCacheSecrets(id, rs[i].cache);
        if cache.Err? { return Err(cache.error); }
        SameCache(id, rs[i].cache, cache.value, vault.data);
        built := built + [rs[i].(idField := M.Absent, token := M.Str(t.value.value), cache := cache.value)];
      }
      if c.toml.NoToml? { FormBuilt(c, built[0]); }
      return Ok(built);
    }

    /** The one runner of the form: its own url and name, and the token stored under index 0. */
    lemma FormBuilt(c: Config, r: M.Runner)
      requires c.toml.NoToml? && |Blocks(c)| > 0 && M.BuildRunner(prefix, vault.data, Blocks(c)[0], 0) == Ok(r)
      ensures |Blocks(c)| == 1 && r.url == M.Str(c.url) && r.executor == M.Str("docker")
      ensures r.name == M.Str(if c.name == "" then "ssh-tool" else c.name)
      ensures forall f :: f in M.AllFields ==> r.cache[f] == M.Absent
      ensures Lookup(vault.data, M.Key(prefix, "0", M.TokenSlot)) == Some(M.TextOf(r.token))
    {
      assert Decimal(0) == "0";
      hide M.Key;
    }

    lemma BuiltFrom(x: M.Runner, i: nat)
      ensures
        var key := M.Key(prefix, M.RunnerId(x, i), M.TokenSlot);
        M.BuildRunner(prefix, vault.data, x, i) ==
          if x.executor != M.Str("docker") then Err("only the docker executor")
          else if !M.Has(vault.data, key) then Err("runner has no token")
          else
            Ok(x.(idField := M.Absent, token := M.Str(vault.data[key]),
                  cache := map f | f in M.AllFields ::
                             M.FillField(prefix, vault.data, M.RunnerId(x, i), f, x.cache[f])))
    {
    }

    lemma SameCache(id: string, c: M.Cache, d: M.Cache, v: map<string, string>)
      requires forall f :: f in M.AllFields ==> d[f] == M.FillField(prefix, v, id, f, c[f])
      ensures d == map f | f in M.AllFields :: M.FillField(prefix, v, id, f, c[f])
    {
    }

    /** The blocks of an imported config, or the one built from the form. */
    function Blocks(c: Config): seq<M.Runner> {
      match c.toml
      case Toml(rs) => rs
      case BadToml => []
      case NoToml =>
        [M.Runner(M.Absent, M.Absent, map f | f in M.AllFields :: M.Absent, M.Str(c.url),
                  M.Str(if c.name != "" then c.name else "ssh-tool"), M.Str("docker"))]
    }
  }
}
