/** What a save followed by a build gives each runner. */
module CiRunnerProofs {
  import opened Wrappers
  import opened Text
  import opened CiRunnerModel

  /** A save of rs: prev are the blocks stored before, v the vault before. */
  datatype Save = Save(p: string, prev: seq<Runner>, v: VaultMap, rs: seq<Runner>, newIds: seq<string>)

  /** New ids are 16 characters, pairwise distinct and unused, and no id in the file is a block index. */
  predicate FreshIds(c: Save) {
    && |c.newIds| == |c.rs| <= MaxRunners
    && (forall i :: 0 <= i < |c.rs| ==> |c.newIds[i]| == 16)
    && (forall i, j :: 0 <= i < j < |c.rs| ==> c.newIds[i] != c.newIds[j])
    && (forall i, j :: 0 <= i < |c.rs| && 0 <= j < |c.rs| ==> c.newIds[i] != TextOf(c.rs[j].idField))
    && (forall i, s :: 0 <= i < |c.rs| && s in AllSlots ==> Key(c.p, c.newIds[i], s) !in c.v)
    && (forall j, k :: 0 <= j < |c.rs| && 0 <= k < MaxRunners ==> TextOf(c.rs[j].idField) != Decimal(k))
  }

  function Drafted(c: Save, n: nat): Draft
    requires n <= |c.rs| == |c.newIds|
  {
    SaveUpTo(c.p, c.prev, c.v, c.rs, c.newIds, n)
  }

  /** The block keeps its id: it has one, and no earlier block has the same. */
  predicate Keeps(c: Save, j: nat)
    requires j < |c.rs|
  {
    TextOf(c.rs[j].idField) != "" && forall i :: 0 <= i < j ==> TextOf(c.rs[i].idField) != TextOf(c.rs[j].idField)
  }

  function FinalId(c: Save, j: nat): string
    requires j < |c.rs| == |c.newIds|
  {
    if Keeps(c, j) then TextOf(c.rs[j].idField) else c.newIds[j]
  }

  // What a save and a build promise is said of the fields below, in terms of its own: nothing here is
  // shared with the code's predicates in CiRunnerModel.

  /** Two optional strings are the same: a missing one is empty, one of another type like none. */
  predicate SameText(a: Field, b: Field) {
    match a
    case Absent => b == Absent || b == Str("")
    case Str(s) => b == Str(s) || (s == "" && b == Absent)
    case Other => false
  }

  /** The block is the runner the stored config had at this place before there were ids. */
  predicate WasHere(prev: seq<Runner>, i: nat, r: Runner) {
    && i < |prev| && r.idField == Absent && (prev[i].idField.Str? ==> prev[i].idField.s == "")
    && SameText(prev[i].url, r.url) && SameText(prev[i].name, r.name)
  }

  /** The secret typed into a field, if one is. */
  function Entered(f: Field): Option<string> {
    match f
    case Str(s) => if TrimSpace(s) == "" || TrimSpace(s) == Marker then None else Some(TrimSpace(s))
    case _ => None
  }

  /** Nothing but space stands in the field. */
  predicate Empty(f: Field) {
    match f
    case Str(s) => TrimSpace(s) == ""
    case _ => true
  }

  lemma InheritsWhatWasHere(prev: seq<Runner>, i: nat, r: Runner)
    ensures Inherits(prev, i, r) <==> WasHere(prev, i, r)
  {
  }

  lemma FieldMeaning(f: Field)
    ensures Typed(f) <==> Entered(f).Some?
    ensures Typed(f) ==> Entered(f) == Some(TrimSpace(TextOf(f)))
    ensures Blank(f) <==> Empty(f)
    ensures Emptied(f) <==> f != Absent && Empty(f)
  {
    assert TrimSpace("") == "";
  }

  /** Where the block's secrets were before the save: under its own id, or under its index when it
      is the same runner of a config stored before ids, or nowhere. */
  function EarlierId(c: Save, j: nat): Option<string>
    requires j < |c.rs|
  {
    if Keeps(c, j) then Some(TextOf(c.rs[j].idField))
    else if WasHere(c.prev, j, c.rs[j]) then Some(Decimal(j))
    else None
  }

  function Earlier(c: Save, j: nat, s: Slot): Option<string>
    requires j < |c.rs|
  {
    match EarlierId(c, j)
    case Some(id) => Lookup(c.v, Key(c.p, id, s))
    case None => None
  }

  lemma FinalIdsDistinct(c: Save, i: nat, j: nat)
    requires FreshIds(c) && i < |c.rs| && j < |c.rs| && i != j
    ensures FinalId(c, i) != FinalId(c, j)
  {
  }

  lemma FinalIdNoIndex(c: Save, j: nat, k: nat)
    requires FreshIds(c) && j < |c.rs| && k < MaxRunners
    ensures FinalId(c, j) != Decimal(k)
  {
    DecimalShort(k);
  }

  lemma {:induction false} FirstKeeper(c: Save, n: nat, j: nat) returns (i: nat)
    requires j < n <= |c.rs| && TextOf(c.rs[j].idField) != ""
    ensures i <= j && Keeps(c, i) && TextOf(c.rs[i].idField) == TextOf(c.rs[j].idField)
  {
    if Keeps(c, j) {
      i := j;
    } else {
      var k :| 0 <= k < j && TextOf(c.rs[k].idField) == TextOf(c.rs[j].idField);
      i := FirstKeeper(c, n, k);
    }
  }

  predicate SeenOk(c: Save, n: nat, seen: set<string>)
    requires n <= |c.rs| == |c.newIds|
  {
    && (forall j :: 0 <= j < n ==> FinalId(c, j) in seen)
    && (forall id :: id in seen ==> exists j :: 0 <= j < n && id == FinalId(c, j))
  }

  lemma IdForBlock(c: Save, n: nat, d: Draft)
    requires FreshIds(c) && n < |c.rs| && SeenOk(c, n, d.seen)
    ensures TextOf(c.rs[n].idField) in d.seen <==> !Keeps(c, n) && TextOf(c.rs[n].idField) != ""
    ensures IdFor(d, c.rs[n], c.newIds[n]) == FinalId(c, n)
    ensures OwnId(d, c.rs[n]) == if Keeps(c, n) then FinalId(c, n) else ""
  {
    var own := TextOf(c.rs[n].idField);
    if own != "" && !Keeps(c, n) {
      var j :| 0 <= j < n && TextOf(c.rs[j].idField) == own;
      var i := FirstKeeper(c, n, j);
      assert FinalId(c, i) == own;
    }
    if own in d.seen {
      var j :| 0 <= j < n && own == FinalId(c, j);
      assert Keeps(c, j);
    }
  }

  /** What runner j's key holds after n > j blocks. */
  function Kept(c: Save, j: nat, s: Slot): Option<string>
    requires j < |c.rs|
  {
    if s.CacheSlot? && s.f in AllFields && Entered(c.rs[j].cache[s.f]).Some? then Entered(c.rs[j].cache[s.f])
    else Earlier(c, j, s)
  }

  predicate Owned(c: Save, n: nat, k: string)
    requires n <= |c.rs| == |c.newIds|
  {
    exists j, s :: 0 <= j < n && s in AllSlots && k == Key(c.p, FinalId(c, j), s)
  }

  ghost predicate VaultOk(c: Save, n: nat, v: VaultMap)
    requires n <= |c.rs| == |c.newIds|
  {
    && (forall j, s :: 0 <= j < n && s in AllSlots ==> Lookup(v, Key(c.p, FinalId(c, j), s)) == Kept(c, j, s))
    && (forall k :: !Owned(c, n, k) ==> Lookup(v, k) == Lookup(c.v, k))
  }

  /** What block n finds under its id once it has taken over what it inherits. */
  lemma TakenOver(c: Save, n: nat, d: Draft, s: Slot)
    requires FreshIds(c) && n < |c.rs| && |d.out| == n && SeenOk(c, n, d.seen) && VaultOk(c, n, d.vault)
    requires s in AllSlots
    ensures Lookup(TakeOver(c.p, c.prev, d, c.rs[n], FinalId(c, n)).vault, Key(c.p, FinalId(c, n), s)) ==
        Earlier(c, n, s)
  {
    var id := FinalId(c, n);
    IdForBlock(c, n, d);
    InheritsWhatWasHere(c.prev, n, c.rs[n]);
    NotOwned(c, n, id, s);
    assert Lookup(d.vault, Key(c.p, id, s)) == Lookup(c.v, Key(c.p, id, s));
    if OwnId(d, c.rs[n]) == "" && Inherits(c.prev, n, c.rs[n]) {
      NotOwnedIndex(c, n, n, s);
      assert Lookup(d.vault, Key(c.p, Decimal(n), s)) == Lookup(c.v, Key(c.p, Decimal(n), s));
      KeysDistinct(c.p, id);
    }
  }

  lemma NotOwned(c: Save, n: nat, id: string, s: Slot)
    requires FreshIds(c) && n < |c.rs| && id == FinalId(c, n)
    ensures !Owned(c, n, Key(c.p, id, s))
  {
    forall j, t | 0 <= j < n && t in AllSlots ensures Key(c.p, id, s) != Key(c.p, FinalId(c, j), t) {
      FinalIdsDistinct(c, j, n);
      if Key(c.p, id, s) == Key(c.p, FinalId(c, j), t) { KeyInjective(c.p, id, s, FinalId(c, j), t); }
    }
  }

  lemma NotOwnedIndex(c: Save, n: nat, i: nat, s: Slot)
    requires FreshIds(c) && n <= |c.rs| && i < MaxRunners
    ensures !Owned(c, n, Key(c.p, Decimal(i), s))
  {
    forall j, t | 0 <= j < n && t in AllSlots ensures Key(c.p, Decimal(i), s) != Key(c.p, FinalId(c, j), t) {
      FinalIdNoIndex(c, j, i);
      if Key(c.p, Decimal(i), s) == Key(c.p, FinalId(c, j), t) { KeyInjective(c.p, Decimal(i), s, FinalId(c, j), t); }
    }
  }

  /** The draft after block n, given the one before. */
  function Next(c: Save, n: nat, d: Draft): Draft
    requires n < |c.rs| == |c.newIds|
  {
    Store(c.p, TakeOver(c.p, c.prev, d, c.rs[n], FinalId(c, n)), Settled(d, c.rs[n]), FinalId(c, n))
  }

  lemma ClearedTyped(r: Runner, f: SecretField)
    requires f in AllFields
    ensures Typed(ClearMarkers(r).cache[f]) == Typed(r.cache[f])
    ensures Typed(r.cache[f]) ==> ClearMarkers(r).cache[f] == r.cache[f]
    ensures Typed(ClearMarkers(r).token) == Typed(r.token)
    ensures Typed(r.token) ==> ClearMarkers(r).token == r.token
  {
    assert TrimSpace("") == "";
    MarkerTrimmed();
  }

  lemma MarkerTrimmed()
    ensures TrimSpace(Marker) == Marker && Marker != ""
  {
    assert TrimLeft(Marker) == Marker;
    assert TrimRight(Marker) == Marker;
  }

  predicate UnderId(p: string, id: string, k: string) {
    exists u :: u in AllSlots && k == Key(p, id, u)
  }

  lemma TakeOverTouches(p: string, prev: seq<Runner>, d: Draft, r: Runner, id: string, k: string)
    requires !UnderId(p, id, k)
    ensures Lookup(TakeOver(p, prev, d, r, id).vault, k) == Lookup(d.vault, k)
  {
  }

  lemma StoreTouches(p: string, d: Draft, r: Runner, id: string, k: string)
    requires !UnderId(p, id, k)
    ensures Lookup(Store(p, d, r, id).vault, k) == Lookup(d.vault, k)
  {
    assert forall f :: f in AllFields ==> CacheSlot(f) in AllSlots;
  }

  lemma StashPutsAt(p: string, v: VaultMap, id: string, c: Cache, s: Slot)
    requires s in AllSlots
    ensures Lookup(v + StashPuts(p, id, c, AllFields), Key(p, id, s)) ==
      if s.CacheSlot? && s.f in AllFields && Typed(c[s.f]) then Some(TrimSpace(TextOf(c[s.f])))
      else Lookup(v, Key(p, id, s))
  {
    hide Key, StashPuts, Typed, TrimSpace, TextOf;
    KeysDistinct(p, id);
    if s.CacheSlot? { assert s.f in AllFields; }
  }

  lemma StorePuts(p: string, d: Draft, r: Runner, id: string, s: Slot)
    requires s in AllSlots
    ensures Lookup(Store(p, d, r, id).vault, Key(p, id, s)) ==
      if s.CacheSlot? && s.f in AllFields && Typed(r.cache[s.f]) then Some(TrimSpace(TextOf(r.cache[s.f])))
      else Lookup(d.vault, Key(p, id, s))
  {
    hide Key, StashPuts, StashGone, Stashed, Typed, TrimSpace, TextOf;
    StashPutsAt(p, d.vault, id, r.cache, s);
  }

  lemma StoredSlot(c: Save, n: nat, d: Draft, s: Slot)
    requires FreshIds(c) && n < |c.rs| && |d.out| == n && SeenOk(c, n, d.seen) && VaultOk(c, n, d.vault)
    requires s in AllSlots
    ensures Lookup(Next(c, n, d).vault, Key(c.p, FinalId(c, n), s)) == Kept(c, n, s)
  {
    hide Store, TakeOver, Key;
    var t := TakeOver(c.p, c.prev, d, c.rs[n], FinalId(c, n));
    TakenOver(c, n, d, s);
    StorePuts(c.p, t, Settled(d, c.rs[n]), FinalId(c, n), s);
    if s.CacheSlot? {
      assert s.f in AllFields;
      ClearedTyped(c.rs[n], s.f);
      FieldMeaning(c.rs[n].cache[s.f]);
    }
  }

  /** Storing block n touches only its own keys. */
  lemma OtherKeyKept(c: Save, n: nat, d: Draft, k: string)
    requires n < |c.rs| == |c.newIds| && !UnderId(c.p, FinalId(c, n), k)
    ensures Lookup(Next(c, n, d).vault, k) == Lookup(d.vault, k)
  {
    TakeOverTouches(c.p, c.prev, d, c.rs[n], FinalId(c, n), k);
    StoreTouches(c.p, TakeOver(c.p, c.prev, d, c.rs[n], FinalId(c, n)), Settled(d, c.rs[n]), FinalId(c, n), k);
  }

  lemma EarlierSlot(c: Save, n: nat, d: Draft, j: nat, s: Slot)
    requires FreshIds(c) && j < n < |c.rs| && VaultOk(c, n, d.vault) && s in AllSlots
    ensures Lookup(Next(c, n, d).vault, Key(c.p, FinalId(c, j), s)) == Kept(c, j, s)
  {
    FinalIdsDistinct(c, j, n);
    forall u | u in AllSlots ensures Key(c.p, FinalId(c, j), s) != Key(c.p, FinalId(c, n), u) {
      if Key(c.p, FinalId(c, j), s) == Key(c.p, FinalId(c, n), u) {
        KeyInjective(c.p, FinalId(c, j), s, FinalId(c, n), u);
      }
    }
    OtherKeyKept(c, n, d, Key(c.p, FinalId(c, j), s));
  }

  lemma VaultStep(c: Save, n: nat, d: Draft)
    requires FreshIds(c) && n < |c.rs| && |d.out| == n && SeenOk(c, n, d.seen) && VaultOk(c, n, d.vault)
    ensures VaultOk(c, n + 1, Next(c, n, d).vault)
  {
    forall j, s | 0 <= j < n + 1 && s in AllSlots
      ensures Lookup(Next(c, n, d).vault, Key(c.p, FinalId(c, j), s)) == Kept(c, j, s)
    {
      if j == n { StoredSlot(c, n, d, s); } else { EarlierSlot(c, n, d, j, s); }
    }
    forall k | !Owned(c, n + 1, k) ensures Lookup(Next(c, n, d).vault, k) == Lookup(c.v, k) {
      assert !Owned(c, n, k) && !UnderId(c.p, FinalId(c, n), k);
      OtherKeyKept(c, n, d, k);
    }
  }

  lemma SeenStep(c: Save, n: nat, d: Draft)
    requires FreshIds(c) && n < |c.rs| && SeenOk(c, n, d.seen)
    ensures SeenOk(c, n + 1, Next(c, n, d).seen)
  {
    hide TakeOver, StashPuts, StashGone, Stashed, Key, TrimSpace, FinalId;
    TakeOverKeeps(c.p, c.prev, d, c.rs[n], FinalId(c, n));
    assert Next(c, n, d).seen == d.seen + {FinalId(c, n)};
  }

  lemma {:induction false} SavedOk(c: Save, n: nat)
    requires FreshIds(c) && n <= |c.rs|
    ensures SeenOk(c, n, Drafted(c, n).seen) && VaultOk(c, n, Drafted(c, n).vault)
    ensures n > 0 ==> Drafted(c, n) == Next(c, n - 1, Drafted(c, n - 1))
  {
    if n > 0 {
      var d := Drafted(c, n - 1);
      SavedOk(c, n - 1);
      SeenStep(c, n - 1, d);
      VaultStep(c, n - 1, d);
      IdForBlock(c, n - 1, d);
    }
  }

  // ---- what is written, besides the vault ----

  /** The cache field the saved config holds. */
  function SavedField(c: Save, j: nat, f: SecretField): Field
    requires j < |c.rs| && f in AllFields
  {
    var x := c.rs[j].cache[f];
    if Entered(x).Some? then Str(Marker)
    else if Empty(x) then x
    else if NonEmpty(Earlier(c, j, CacheSlot(f))) then x
    else Str("")
  }

  predicate NonEmpty(v: Option<string>) {
    v.Some? && v.value != ""
  }

  lemma StoredField(c: Save, n: nat, d: Draft, f: SecretField)
    requires FreshIds(c) && n < |c.rs| && |d.out| == n && SeenOk(c, n, d.seen) && VaultOk(c, n, d.vault)
    requires f in AllFields
    ensures
      var v := TakeOver(c.p, c.prev, d, c.rs[n], FinalId(c, n)).vault;
      StashField(c.p, v, FinalId(c, n), Settled(d, c.rs[n]).cache, f) == SavedField(c, n, f)
  {
    hide TakeOver, Key, TrimSpace;
    IdForBlock(c, n, d);
    MarkerTrimmed();
    TakenOver(c, n, d, CacheSlot(f));
    ClearedTyped(c.rs[n], f);
    FieldMeaning(c.rs[n].cache[f]);
    EmptyTrimmed();
  }

  lemma EmptyTrimmed()
    ensures TrimSpace("") == ""
  {
  }

  predicate BlockWritten(c: Save, j: nat, r: Runner)
    requires j < |c.rs| == |c.newIds|
  {
    && r.idField == Str(FinalId(c, j))
    && r.executor == c.rs[j].executor && r.url == c.rs[j].url && r.name == c.rs[j].name
    && r.token == (if PromisedToken(c, j).Some? then Str(Marker) else Absent)
    && forall f :: f in AllFields ==> r.cache[f] == SavedField(c, j, f)
  }

  lemma TokenIs(p: string, d: Draft, r: Runner, id: string)
    ensures Store(p, d, r, id).out == d.out + [Store(p, d, r, id).out[|d.out|]]
    ensures Store(p, d, r, id).out[|d.out|].token ==
      if Typed(r.token) || (!Emptied(r.token) && Has(d.vault, Key(p, id, TokenSlot))) then Str(Marker) else Absent
  {
    hide Key, Typed, Emptied, Has, Stashed, StashPuts, StashGone;
  }

  /** The marker stands in the saved config exactly for a token the runner has. */
  lemma StoredToken(c: Save, n: nat, d: Draft)
    requires FreshIds(c) && n < |c.rs| && |d.out| == n && SeenOk(c, n, d.seen) && VaultOk(c, n, d.vault)
    ensures |Next(c, n, d).out| == n + 1
    ensures Next(c, n, d).out[n].token == if PromisedToken(c, n).Some? then Str(Marker) else Absent
  {
    var t := TakeOver(c.p, c.prev, d, c.rs[n], FinalId(c, n));
    IdForBlock(c, n, d);
    TakenOver(c, n, d, TokenSlot);
    TakeOverKeeps(c.p, c.prev, d, c.rs[n], FinalId(c, n));
    TokenIs(c.p, t, Settled(d, c.rs[n]), FinalId(c, n));
    SettledToken(c, n, d);
    FieldMeaning(c.rs[n].token);
    hide FreshIds, SeenOk, VaultOk, TakeOver, Store, Key, FinalId, TrimSpace, Settled, Typed, Emptied, Entered, Earlier;
  }

  /** Clearing a copied block's markers makes no difference to whether its token is typed or emptied. */
  lemma SettledToken(c: Save, n: nat, d: Draft)
    requires n < |c.rs|
    ensures Typed(Settled(d, c.rs[n]).token) == Typed(c.rs[n].token)
    ensures Emptied(Settled(d, c.rs[n]).token) == Emptied(c.rs[n].token)
  {
    hide TrimSpace;
    MarkerTrimmed();
    EmptyTrimmed();
  }

  lemma StoredBlock(c: Save, n: nat, d: Draft)
    requires FreshIds(c) && n < |c.rs| && |d.out| == n && SeenOk(c, n, d.seen) && VaultOk(c, n, d.vault)
    ensures Next(c, n, d).out[..n] == d.out && BlockWritten(c, n, Next(c, n, d).out[n])
  {
    StoredToken(c, n, d);
    hide StashField, TakeOver, Key, SavedField, StashPuts, StashGone, PromisedToken;
    TakeOverKeeps(c.p, c.prev, d, c.rs[n], FinalId(c, n));
    forall f | f in AllFields ensures Next(c, n, d).out[n].cache[f] == SavedField(c, n, f) {
      StoredField(c, n, d, f);
    }
  }

  lemma TakeOverKeeps(p: string, prev: seq<Runner>, d: Draft, r: Runner, id: string)
    ensures
      var t := TakeOver(p, prev, d, r, id);
      t.out == d.out && t.seen == d.seen && t.tokens == d.tokens && t.removed == d.removed
  {
  }

  lemma {:induction false} SavedBlock(c: Save, n: nat, j: nat)
    requires FreshIds(c) && j < n <= |c.rs|
    ensures BlockWritten(c, j, Drafted(c, n).out[j])
  {
    hide BlockWritten, Next, SaveUpTo, SeenOk, VaultOk;
    SavedOk(c, n);
    SavedOk(c, n - 1);
    StoredBlock(c, n - 1, Drafted(c, n - 1));
    if j < n - 1 { SavedBlock(c, n - 1, j); }
  }

  ghost predicate TokensOk(c: Save, n: nat, tokens: map<string, string>)
    requires n <= |c.rs| == |c.newIds|
  {
    && (forall j :: 0 <= j < n ==> Lookup(tokens, FinalId(c, j)) == Entered(c.rs[j].token))
    && (forall id :: id in tokens ==> exists j :: 0 <= j < n && id == FinalId(c, j))
  }

  lemma {:induction false} SavedTokens(c: Save, n: nat)
    requires FreshIds(c) && n <= |c.rs|
    ensures TokensOk(c, n, Drafted(c, n).tokens)
  {
    if n > 0 {
      SavedTokens(c, n - 1);
      SavedTokensStep(c, n);
    }
  }

  lemma SavedTokensStep(c: Save, n: nat)
    requires FreshIds(c) && 0 < n <= |c.rs| && TokensOk(c, n - 1, Drafted(c, n - 1).tokens)
    ensures TokensOk(c, n, Drafted(c, n).tokens)
  {
    hide TokensOk, Next, SaveUpTo, SeenOk, VaultOk;
    SavedOk(c, n);
    NextTokens(c, n - 1, Drafted(c, n - 1));
  }

  lemma NextTokenIs(c: Save, n: nat, d: Draft)
    requires FreshIds(c) && n < |c.rs|
    ensures Next(c, n, d).tokens ==
      if Typed(c.rs[n].token) then d.tokens[FinalId(c, n) := TrimSpace(TextOf(c.rs[n].token))] else d.tokens
  {
    hide TakeOver, StashPuts, StashGone, Stashed, Key, FinalId, TrimSpace, ClearMarkers, OwnId;
    TakeOverKeeps(c.p, c.prev, d, c.rs[n], FinalId(c, n));
    ClearedTyped(c.rs[n], AccessKey);
  }

  lemma NextTokens(c: Save, n: nat, d: Draft)
    requires FreshIds(c) && n < |c.rs| && TokensOk(c, n, d.tokens)
    ensures TokensOk(c, n + 1, Next(c, n, d).tokens)
  {
    NextTokenIs(c, n, d);
    FieldMeaning(c.rs[n].token);
    forall j | 0 <= j < n ensures FinalId(c, j) != FinalId(c, n) { FinalIdsDistinct(c, j, n); }
    hide Next, FinalId, TrimSpace, FreshIds, Typed, Entered;
    OneMoreToken(c, n, d.tokens, Next(c, n, d).tokens);
  }

  lemma OneMoreToken(c: Save, n: nat, was: map<string, string>, now: map<string, string>)
    requires n < |c.rs| == |c.newIds| && TokensOk(c, n, was)
    requires forall j :: 0 <= j < n ==> FinalId(c, j) != FinalId(c, n)
    requires now == if Entered(c.rs[n].token).Some? then was[FinalId(c, n) := Entered(c.rs[n].token).value] else was
    ensures TokensOk(c, n + 1, now)
  {
    hide FinalId, Entered;
  }

  /** The secret's field is there and empty: it is to go. */
  predicate EmptiedSlot(c: Save, j: nat, s: Slot)
    requires j < |c.rs|
  {
    match s
    case TokenSlot => c.rs[j].token != Absent && Empty(c.rs[j].token)
    case CacheSlot(f) => f in AllFields && Empty(c.rs[j].cache[f])
  }

  /** The key of a secret block j takes over from its index. */
  predicate LegacyKey(c: Save, j: nat, k: string)
    requires j < |c.rs|
  {
    WasHere(c.prev, j, c.rs[j]) && exists s :: s in AllSlots && k == Key(c.p, Decimal(j), s) && k in c.v
  }

  /** The key of a secret emptied in block j. */
  predicate EmptiedKey(c: Save, j: nat, k: string)
    requires j < |c.rs| == |c.newIds|
  {
    exists s :: s in AllSlots && EmptiedSlot(c, j, s) && k == Key(c.p, FinalId(c, j), s) &&
        (s == TokenSlot || NonEmpty(Earlier(c, j, s)))
  }

  /** The keys a save deletes once the setting is saved. */
  ghost predicate Doomed(c: Save, n: nat, k: string)
    requires n <= |c.rs| == |c.newIds|
  {
    exists j :: 0 <= j < n && (LegacyKey(c, j, k) || EmptiedKey(c, j, k))
  }

  lemma NextLegacy(c: Save, n: nat, d: Draft, k: string)
    requires FreshIds(c) && n < |c.rs| && |d.out| == n && SeenOk(c, n, d.seen) && VaultOk(c, n, d.vault)
    ensures k in Next(c, n, d).legacy <==> k in d.legacy || LegacyKey(c, n, k)
  {
    InheritsWhatWasHere(c.prev, n, c.rs[n]);
    IdForBlock(c, n, d);
    forall s | s in AllSlots
      ensures Lookup(d.vault, Key(c.p, Decimal(n), s)) == Lookup(c.v, Key(c.p, Decimal(n), s))
    {
      NotOwnedIndex(c, n, n, s);
    }
    hide FreshIds, SeenOk, VaultOk, Key, Keeps, FinalId, Stashed, StashPuts, StashGone, Inherits, WasHere, Owned,
        Settled;
  }

  lemma StoreRemoves(p: string, d: Draft, r: Runner, id: string, k: string)
    ensures k in Store(p, d, r, id).removed <==>
      || k in d.removed
      || (Emptied(r.token) && k == Key(p, id, TokenSlot))
      || exists f :: f in AllFields && Blank(r.cache[f]) && Has(d.vault, k) && k == Key(p, id, CacheSlot(f))
  {
    hide Key, Blank, Emptied, Has, Stashed, StashPuts;
  }

  lemma SettledBlank(d: Draft, r: Runner, f: SecretField)
    requires f in AllFields
    ensures Blank(r.cache[f]) ==> Blank(Settled(d, r).cache[f])
    ensures Blank(Settled(d, r).cache[f]) && !Blank(r.cache[f]) ==>
      TextOf(r.idField) in d.seen && r.cache[f] == Str(Marker)
  {
    EmptyTrimmed();
    hide TrimSpace;
  }

  /** Whether block n's emptied cache secret has a key to delete. */
  lemma CacheRemoved(c: Save, n: nat, d: Draft, f: SecretField)
    requires FreshIds(c) && n < |c.rs| && |d.out| == n && SeenOk(c, n, d.seen) && VaultOk(c, n, d.vault)
    requires f in AllFields
    ensures var v := TakeOver(c.p, c.prev, d, c.rs[n], FinalId(c, n)).vault;
      Blank(Settled(d, c.rs[n]).cache[f]) && Has(v, Key(c.p, FinalId(c, n), CacheSlot(f))) <==>
      EmptiedSlot(c, n, CacheSlot(f)) && NonEmpty(Earlier(c, n, CacheSlot(f)))
  {
    IdForBlock(c, n, d);
    TakenOver(c, n, d, CacheSlot(f));
    FieldMeaning(c.rs[n].cache[f]);
    SettledBlank(d, c.rs[n], f);
    hide TakeOver, Key, FinalId, TrimSpace, VaultOk, SeenOk, Settled, Blank, Empty, FreshIds;
  }

  /** Which of block n's secrets are to go, in the code's terms and in ours. */
  lemma EmptiedKeyIs(c: Save, n: nat, k: string, token: bool, cache: set<SecretField>)
    requires n < |c.rs| == |c.newIds|
    requires token == EmptiedSlot(c, n, TokenSlot)
    requires forall f :: f in cache <==>
      f in AllFields && EmptiedSlot(c, n, CacheSlot(f)) && NonEmpty(Earlier(c, n, CacheSlot(f)))
    ensures EmptiedKey(c, n, k) <==>
      || (token && k == Key(c.p, FinalId(c, n), TokenSlot))
      || exists f :: f in cache && k == Key(c.p, FinalId(c, n), CacheSlot(f))
  {
    hide Key, FinalId, EmptiedSlot, NonEmpty, Earlier;
    CacheSlots();
    if EmptiedKey(c, n, k) {
      var s :| s in AllSlots && EmptiedSlot(c, n, s) && k == Key(c.p, FinalId(c, n), s) &&
          (s == TokenSlot || NonEmpty(Earlier(c, n, s)));
      if s.CacheSlot? { assert s.f in cache; }
    }
  }

  lemma NextRemoved(c: Save, n: nat, d: Draft, k: string)
    requires FreshIds(c) && n < |c.rs| && |d.out| == n && SeenOk(c, n, d.seen) && VaultOk(c, n, d.vault)
    ensures k in Next(c, n, d).removed <==> k in d.removed || EmptiedKey(c, n, k)
  {
    assert |c.newIds| == |c.rs|;
    hide TakeOver, Store, Key, FinalId, VaultOk, SeenOk, FreshIds, Settled, Blank, Emptied, Empty, Has, Earlier,
        NonEmpty, EmptiedKey;
    var t := TakeOver(c.p, c.prev, d, c.rs[n], FinalId(c, n));
    StoreRemoves(c.p, t, Settled(d, c.rs[n]), FinalId(c, n), k);
    TakeOverKeeps(c.p, c.prev, d, c.rs[n], FinalId(c, n));
    SettledToken(c, n, d);
    FieldMeaning(c.rs[n].token);
    var gone := set f | f in AllFields && EmptiedSlot(c, n, CacheSlot(f)) && NonEmpty(Earlier(c, n, CacheSlot(f)));
    EmptiedKeyIs(c, n, k, EmptiedSlot(c, n, TokenSlot), gone);
    forall f | f in AllFields
      ensures f in gone <==>
              Blank(Settled(d, c.rs[n]).cache[f]) && Has(t.vault, Key(c.p, FinalId(c, n), CacheSlot(f)))
    {
      CacheRemoved(c, n, d, f);
    }
  }

  lemma CacheSlots()
    ensures forall s :: s in AllSlots <==> s == TokenSlot || (s.CacheSlot? && s.f in AllFields)
  {
  }

  /** A save deletes exactly the keys of emptied secrets the vault held and of those it took over from an
      index; emptied tokens' keys in any case. */
  lemma {:induction false} DeletesExactly(c: Save, n: nat, k: string)
    requires FreshIds(c) && n <= |c.rs|
    ensures k in Drafted(c, n).legacy + Drafted(c, n).removed <==> Doomed(c, n, k)
  {
    assert |c.newIds| == |c.rs|;
    hide FreshIds, Next, SeenOk, VaultOk, LegacyKey, EmptiedKey, Key, Doomed, SaveUpTo;
    if n == 0 {
      NoneDoomed(c, k);
    } else {
      SavedOk(c, n);
      SavedOk(c, n - 1);
      NextLegacy(c, n - 1, Drafted(c, n - 1), k);
      NextRemoved(c, n - 1, Drafted(c, n - 1), k);
      DeletesExactly(c, n - 1, k);
      OneMoreDoomed(c, n - 1, k);
    }
  }

  lemma NoneDoomed(c: Save, k: string)
    requires |c.rs| == |c.newIds|
    ensures !Doomed(c, 0, k) && Drafted(c, 0).legacy == Drafted(c, 0).removed == {} && Drafted(c, 0).out == []
  {
  }

  lemma OneMoreDoomed(c: Save, n: nat, k: string)
    requires n < |c.rs| == |c.newIds|
    ensures Doomed(c, n + 1, k) <==> Doomed(c, n, k) || LegacyKey(c, n, k) || EmptiedKey(c, n, k)
  {
    hide LegacyKey, EmptiedKey;
  }

  // ---- the round trip ----

  function Saved(c: Save): Draft
    requires |c.rs| == |c.newIds|
  {
    Drafted(c, |c.rs|)
  }

  /** v is the vault some time after the save: all puts made, some of the cleanup deletes done. */
  ghost predicate VaultAfter(c: Save, v: VaultMap)
    requires |c.rs| == |c.newIds|
  {
    CleanedUp(Written(c.p, Saved(c)), v, Saved(c).legacy + Saved(c).removed)
  }

  /** What the vault holds for slot s of block j after the puts. */
  function Final(c: Save, j: nat, s: Slot): Option<string>
    requires j < |c.rs|
  {
    if s == TokenSlot && Entered(c.rs[j].token).Some? then Entered(c.rs[j].token) else Kept(c, j, s)
  }

  lemma TokenPutsAt(p: string, v: VaultMap, tokens: map<string, string>, id: string, s: Slot)
    ensures Lookup(v + TokenPuts(p, tokens), Key(p, id, s)) ==
      if s == TokenSlot && id in tokens then Some(tokens[id]) else Lookup(v, Key(p, id, s))
  {
    hide Key, TokenPuts;
    var k := Key(p, id, s);
    forall i | i in tokens && k == Key(p, i, TokenSlot) ensures s == TokenSlot && i == id {
      KeyInjective(p, id, s, i, TokenSlot);
    }
  }

  lemma WrittenSlot(c: Save, j: nat, s: Slot)
    requires FreshIds(c) && j < |c.rs| && s in AllSlots
    ensures Lookup(Written(c.p, Saved(c)), Key(c.p, FinalId(c, j), s)) == Final(c, j, s)
  {
    hide FinalId, SaveUpTo, Key, TrimSpace, TokenPuts, Kept, Typed, SeenOk;
    SavedOk(c, |c.rs|);
    SavedTokens(c, |c.rs|);
    TokenPutsAt(c.p, Saved(c).vault, Saved(c).tokens, FinalId(c, j), s);
    KeptToken(c, j);
    assert Lookup(Saved(c).vault, Key(c.p, FinalId(c, j), s)) == Kept(c, j, s);
    assert Lookup(Saved(c).tokens, FinalId(c, j)) == Entered(c.rs[j].token);
  }

  lemma KeptToken(c: Save, j: nat)
    requires j < |c.rs|
    ensures Kept(c, j, TokenSlot) == Earlier(c, j, TokenSlot)
  {
  }

  /** No cleanup delete hits a key some block still uses. */
  lemma CleanupSparesUsed(c: Save, j: nat, s: Slot)
    requires FreshIds(c) && j < |c.rs| && s in AllSlots && Doomed(c, |c.rs|, Key(c.p, FinalId(c, j), s))
    ensures EmptiedSlot(c, j, s)
  {
    assert |c.newIds| == |c.rs|;
    hide Key, Keeps, TrimSpace, Decimal, WasHere, Earlier, FinalId, FreshIds;
    var k := Key(c.p, FinalId(c, j), s);
    var i :| 0 <= i < |c.rs| && (LegacyKey(c, i, k) || EmptiedKey(c, i, k));
    NoIndexKey(c, j, s, i);
    forall t | k == Key(c.p, FinalId(c, i), t) ensures i == j && s == t {
      KeyInjective(c.p, FinalId(c, j), s, FinalId(c, i), t);
      if i != j { FinalIdsDistinct(c, i, j); }
    }
  }

  lemma NoIndexKey(c: Save, j: nat, s: Slot, i: nat)
    requires FreshIds(c) && j < |c.rs| && i < |c.rs|
    ensures forall t :: Key(c.p, FinalId(c, j), s) != Key(c.p, Decimal(i), t)
  {
    hide Key, FinalId;
    FinalIdNoIndex(c, j, i);
    forall t ensures Key(c.p, FinalId(c, j), s) != Key(c.p, Decimal(i), t) {
      if Key(c.p, FinalId(c, j), s) == Key(c.p, Decimal(i), t) { KeyInjective(c.p, FinalId(c, j), s, Decimal(i), t); }
    }
  }

  lemma FinalSlot(c: Save, v: VaultMap, j: nat, s: Slot)
    requires FreshIds(c) && VaultAfter(c, v) && j < |c.rs| && s in AllSlots && !EmptiedSlot(c, j, s)
    ensures Lookup(v, Key(c.p, FinalId(c, j), s)) == Final(c, j, s)
  {
    hide FinalId, SaveUpTo, Key, Written, Doomed;
    var k := Key(c.p, FinalId(c, j), s);
    WrittenSlot(c, j, s);
    if k in Saved(c).legacy + Saved(c).removed {
      DeletesExactly(c, |c.rs|, k);
      CleanupSparesUsed(c, j, s);
    }
    assert Lookup(v, k) == Lookup(Written(c.p, Saved(c)), k);
  }

  /** The token the save promises block j: the typed one, or the vault's earlier one. */
  function PromisedToken(c: Save, j: nat): Option<string>
    requires j < |c.rs|
  {
    var t := c.rs[j].token;
    if Entered(t).Some? then Entered(t)
    else if (t != Absent && Empty(t)) || !NonEmpty(Earlier(c, j, TokenSlot)) then None
    else Earlier(c, j, TokenSlot)
  }

  /** The cache field it promises: the typed secret, the vault's earlier one behind a marker, or
      what stands there. */
  function PromisedField(c: Save, j: nat, f: SecretField): Field
    requires j < |c.rs| && f in AllFields
  {
    var x := c.rs[j].cache[f];
    if Entered(x).Some? then Str(Entered(x).value)
    else if Empty(x) then x
    else Str(if NonEmpty(Earlier(c, j, CacheSlot(f))) then Earlier(c, j, CacheSlot(f)).value else "")
  }

  /** A marker with space around it, for a secret the vault holds: the save takes it for the
      marker, the build does not. */
  predicate PaddedMarker(c: Save, j: nat, f: SecretField)
    requires j < |c.rs| && f in AllFields
  {
    var x := c.rs[j].cache[f];
    TrimSpace(TextOf(x)) == Marker && x != Str(Marker) && NonEmpty(Earlier(c, j, CacheSlot(f)))
  }

  /** Secrets are stored trimmed. */
  predicate TrimmedSecrets(c: Save)
  {
    forall j, f :: 0 <= j < |c.rs| && f in AllFields && Earlier(c, j, CacheSlot(f)).Some? ==>
      NoOuterSpace(Earlier(c, j, CacheSlot(f)).value)
  }

  /** The token was emptied, but its delete after the save failed: the vault still has it. */
  predicate OldTokenStays(c: Save, v: VaultMap, j: nat)
    requires j < |c.rs| == |c.newIds|
  {
    && c.rs[j].token != Absent && Empty(c.rs[j].token) && NonEmpty(Earlier(c, j, TokenSlot))
    && Key(c.p, FinalId(c, j), TokenSlot) in v
  }

  /** What the vault can hold for an emptied secret: the earlier one, or nothing. */
  lemma EmptiedWritten(c: Save, v: VaultMap, j: nat, s: Slot)
    requires FreshIds(c) && VaultAfter(c, v) && j < |c.rs| && s in AllSlots && EmptiedSlot(c, j, s)
    ensures Lookup(v, Key(c.p, FinalId(c, j), s)) in {None, Earlier(c, j, s)}
  {
    hide FinalId, SaveUpTo, Key, Written, TrimSpace;
    var k := Key(c.p, FinalId(c, j), s);
    WrittenSlot(c, j, s);
    assert Lookup(v, k) == Lookup(Written(c.p, Saved(c)), k) || k !in v;
  }

  function BuiltToken(r: Result<Runner>): Option<string> {
    if r.Ok? then Some(TextOf(r.value.token)) else None
  }

  /** Save then build, whatever cleanup deletes failed: a docker block is built exactly when its token
      is promised or an emptied one stays, with that token. So it gets what the save promised exactly
      when no emptied token stays. */
  lemma TokenRoundTrip(c: Save, v: VaultMap, j: nat)
    requires FreshIds(c) && VaultAfter(c, v) && j < |c.rs|
    ensures var r := BuildRunner(c.p, v, Saved(c).out[j], j);
      && (r.Ok? <==> c.rs[j].executor == Str("docker") && (PromisedToken(c, j).Some? || OldTokenStays(c, v, j)))
      && (r.Ok? ==> r.value.idField == Absent
                    && (OldTokenStays(c, v, j) ==> BuiltToken(r) == Earlier(c, j, TokenSlot))
                    && (!OldTokenStays(c, v, j) ==> BuiltToken(r) == PromisedToken(c, j)))
      && (c.rs[j].executor == Str("docker") ==> (BuiltToken(r) == PromisedToken(c, j) <==> !OldTokenStays(c, v, j)))
  {
    hide SaveUpTo, Key, VaultAfter, FinalId, TrimSpace;
    SavedBlock(c, |c.rs|, j);
    FinalIdNonEmpty(c, j);
    FieldMeaning(c.rs[j].token);
    if EmptiedSlot(c, j, TokenSlot) { EmptiedWritten(c, v, j, TokenSlot); } else { FinalSlot(c, v, j, TokenSlot); }
  }

  lemma EmptiedIsDoomed(c: Save, j: nat, s: Slot)
    requires FreshIds(c) && j < |c.rs| && s in AllSlots && EmptiedSlot(c, j, s)
    requires s == TokenSlot || NonEmpty(Earlier(c, j, s))
    ensures Key(c.p, FinalId(c, j), s) in Saved(c).legacy + Saved(c).removed
  {
    hide SaveUpTo, Key, FinalId, Earlier, EmptiedSlot;
    assert EmptiedKey(c, j, Key(c.p, FinalId(c, j), s));
    DeletesExactly(c, |c.rs|, Key(c.p, FinalId(c, j), s));
  }

  /** When the cleanup after a save deletes all it should, no emptied token stays: every block gets the
      promised one. */
  lemma CleanSaveKeepsPromises(c: Save, v: VaultMap, j: nat)
    requires FreshIds(c) && VaultAfter(c, v) && v.Keys !! Saved(c).legacy + Saved(c).removed && j < |c.rs|
    ensures !OldTokenStays(c, v, j)
    ensures c.rs[j].executor == Str("docker") ==>
      BuiltToken(BuildRunner(c.p, v, Saved(c).out[j], j)) == PromisedToken(c, j)
  {
    hide SaveUpTo, Key, FinalId, VaultAfter, BuildRunner, PromisedToken, Empty;
    if EmptiedSlot(c, j, TokenSlot) { EmptiedIsDoomed(c, j, TokenSlot); }
    TokenRoundTrip(c, v, j);
  }

  /** And it leaves nothing behind that was emptied, nor what a block has taken over from its index. */
  lemma CleanSaveForgets(c: Save, v: VaultMap, j: nat, s: Slot)
    requires FreshIds(c) && VaultAfter(c, v) && v.Keys !! Saved(c).legacy + Saved(c).removed
    requires j < |c.rs| && s in AllSlots
    ensures EmptiedSlot(c, j, s) ==> !NonEmpty(Lookup(v, Key(c.p, FinalId(c, j), s)))
    ensures WasHere(c.prev, j, c.rs[j]) ==> Key(c.p, Decimal(j), s) !in v
  {
    hide SaveUpTo, Key, FinalId, VaultAfter, Written, Kept, EmptiedSlot, WasHere, Empty;
    var k := Key(c.p, FinalId(c, j), s);
    if EmptiedSlot(c, j, s) {
      EmptiedWritten(c, v, j, s);
      if s == TokenSlot || NonEmpty(Earlier(c, j, s)) { EmptiedIsDoomed(c, j, s); }
    }
    if WasHere(c.prev, j, c.rs[j]) { IndexForgotten(c, v, j, s); }
  }

  lemma IndexForgotten(c: Save, v: VaultMap, j: nat, s: Slot)
    requires FreshIds(c) && VaultAfter(c, v) && v.Keys !! Saved(c).legacy + Saved(c).removed
    requires j < |c.rs| && s in AllSlots && WasHere(c.prev, j, c.rs[j])
    ensures Key(c.p, Decimal(j), s) !in v
  {
    assert |c.newIds| == |c.rs| <= MaxRunners;
    hide SaveUpTo, Key, FinalId, Written, WasHere, FreshIds;
    var k := Key(c.p, Decimal(j), s);
    if k in c.v {
      assert LegacyKey(c, j, k);
      DeletesExactly(c, |c.rs|, k);
    } else {
      NotOwnedIndex(c, |c.rs|, j, s);
      WrittenElsewhere(c, k);
      assert Lookup(v, k) == Lookup(Written(c.p, Saved(c)), k) || k !in v;
    }
  }

  /** A save writes no key but those of its own blocks. */
  lemma WrittenElsewhere(c: Save, k: string)
    requires FreshIds(c) && !Owned(c, |c.rs|, k)
    ensures Lookup(Written(c.p, Saved(c)), k) == Lookup(c.v, k)
  {
    assert |c.newIds| == |c.rs|;
    hide SaveUpTo, Key, FinalId, SeenOk, FreshIds, TokenPuts, Kept, TrimSpace, Entered;
    SavedOk(c, |c.rs|);
    SavedTokens(c, |c.rs|);
    var m := TokenPuts(c.p, Saved(c).tokens);
    forall x | x in m ensures Owned(c, |c.rs|, x) {
      var id :| id in Saved(c).tokens && x == Key(c.p, id, TokenSlot);
      var j :| 0 <= j < |c.rs| && id == FinalId(c, j);
      assert TokenSlot in AllSlots;
    }
  }

  /** Every other key of the vault is as it was, another runner's index keys and the form's token included. */
  lemma OtherKeysStay(c: Save, v: VaultMap, k: string)
    requires FreshIds(c) && VaultAfter(c, v) && !Owned(c, |c.rs|, k)
    requires forall j :: 0 <= j < |c.rs| ==> !LegacyKey(c, j, k)
    ensures Lookup(v, k) == Lookup(c.v, k)
  {
    assert |c.newIds| == |c.rs|;
    hide SaveUpTo, Key, FinalId, Written, FreshIds, LegacyKey, Earlier, EmptiedSlot;
    WrittenElsewhere(c, k);
    DeletesExactly(c, |c.rs|, k);
    forall j | 0 <= j < |c.rs| ensures EmptiedKey(c, j, k) ==> Owned(c, |c.rs|, k) { }
    assert Lookup(v, k) == Lookup(Written(c.p, Saved(c)), k);
  }

  lemma FinalIdNonEmpty(c: Save, j: nat)
    requires FreshIds(c) && j < |c.rs|
    ensures FinalId(c, j) != ""
  {
  }

  /** And with the promised cache secrets - exactly when no marker was padded with space. */
  lemma SecretRoundTrip(c: Save, v: VaultMap, j: nat, f: SecretField)
    requires FreshIds(c) && VaultAfter(c, v) && TrimmedSecrets(c) && j < |c.rs| && f in AllFields
    requires BuildRunner(c.p, v, Saved(c).out[j], j).Ok?
    ensures BuildRunner(c.p, v, Saved(c).out[j], j).value.cache[f] == PromisedField(c, j, f) <==> !PaddedMarker(c, j, f)
  {
    SecretFilled(c, v, j, f);
    hide SaveUpTo, Key, VaultAfter, FinalId, SavedField, FillField, PromisedField, PaddedMarker;
    SavedBlock(c, |c.rs|, j);
    FinalIdNonEmpty(c, j);
  }

  lemma SecretFilled(c: Save, v: VaultMap, j: nat, f: SecretField)
    requires FreshIds(c) && VaultAfter(c, v) && TrimmedSecrets(c) && j < |c.rs| && f in AllFields
    ensures FillField(c.p, v, FinalId(c, j), f, SavedField(c, j, f)) == PromisedField(c, j, f) <==>
        !PaddedMarker(c, j, f)
  {
    hide SaveUpTo, Key, VaultAfter, FinalId, TrimSpace;
    MarkerTrimmed();
    EmptyTrimmed();
    var x := c.rs[j].cache[f];
    if !Blank(x) {
      FinalSlot(c, v, j, CacheSlot(f));
      if PaddedMarker(c, j, f) { PaddedIsNotTrimmed(TextOf(x), Earlier(c, j, CacheSlot(f)).value); }
    }
  }

  lemma PaddedIsNotTrimmed(x: string, y: string)
    requires TrimSpace(x) == Marker && x != Marker && NoOuterSpace(y)
    ensures x != y
  {
    if x == y { TrimSpaceKeeps(y); }
  }

  /** No two runners read the same vault key, whatever ids the file repeats. */
  lemma RunnersReadOwnKeys(c: Save, i: nat, j: nat, s: Slot, t: Slot)
    requires FreshIds(c) && i < |c.rs| && j < |c.rs|
    requires Key(c.p, RunnerId(Saved(c).out[i], i), s) == Key(c.p, RunnerId(Saved(c).out[j], j), t)
    ensures i == j && s == t
  {
    hide SaveUpTo, FinalId;
    SavedBlock(c, |c.rs|, i);
    SavedBlock(c, |c.rs|, j);
    FinalIdNonEmpty(c, i);
    FinalIdNonEmpty(c, j);
    KeyInjective(c.p, FinalId(c, i), s, FinalId(c, j), t);
    if i != j { FinalIdsDistinct(c, i, j); }
  }

  /** Nothing else of a block changes on its way through save and build. */
  lemma BuiltAsSaved(c: Save, v: VaultMap, j: nat)
    requires FreshIds(c) && j < |c.rs| && BuildRunner(c.p, v, Saved(c).out[j], j).Ok?
    ensures var r, x := BuildRunner(c.p, v, Saved(c).out[j], j).value, c.rs[j];
      r.url == x.url && r.name == x.name && r.executor == x.executor == Str("docker") && r.idField == Absent
  {
    hide SaveUpTo, FinalId, Key;
    SavedBlock(c, |c.rs|, j);
  }

  /** A block that is neither a runner with an id of its own nor the one the stored config had at its
      place - same GitLab, same name, no id - inherits nothing: without a typed token it is not built, and
      with one it gets no cache secret but the typed ones. */
  lemma StrangerGetsNothing(c: Save, v: VaultMap, j: nat, f: SecretField)
    requires FreshIds(c) && VaultAfter(c, v) && j < |c.rs| && f in AllFields
    requires TextOf(c.rs[j].idField) == "" || exists i :: 0 <= i < j && c.rs[i].idField == c.rs[j].idField
    requires j >= |c.prev| || c.rs[j].idField != Absent || TextOf(c.prev[j].idField) != ""
      || !SameText(c.prev[j].url, c.rs[j].url) || !SameText(c.prev[j].name, c.rs[j].name)
    ensures var r := BuildRunner(c.p, v, Saved(c).out[j], j); var x := c.rs[j].cache[f];
      r.Ok? ==>
        && Entered(c.rs[j].token).Some? && r.value.token == Str(Entered(c.rs[j].token).value)
        && r.value.cache[f] ==
            if Entered(x).Some? then Str(Entered(x).value) else if Empty(x) then x else Str("")
  {
    assert EarlierId(c, j) == None;
    assert PromisedToken(c, j) == Entered(c.rs[j].token) && !OldTokenStays(c, v, j);
    hide SaveUpTo, Key, FinalId, VaultAfter, WasHere, SameText, Entered, Empty, EarlierId, BuildRunner, FillField,
        PromisedToken, OldTokenStays, FreshIds, SavedField, Keeps;
    TokenRoundTrip(c, v, j);
    BuiltFrom(c, v, j, f);
    StrangersField(c, v, j, f);
  }

  lemma BuiltFrom(c: Save, v: VaultMap, j: nat, f: SecretField)
    requires FreshIds(c) && j < |c.rs| && f in AllFields
    ensures var r := BuildRunner(c.p, v, Saved(c).out[j], j);
      r.Ok? ==> r.value.token.Str? && r.value.cache[f] == FillField(c.p, v, FinalId(c, j), f, SavedField(c, j, f))
  {
    hide SaveUpTo, Key, FinalId, SavedField, FillField;
    SavedBlock(c, |c.rs|, j);
    FinalIdNonEmpty(c, j);
  }

  lemma StrangersField(c: Save, v: VaultMap, j: nat, f: SecretField)
    requires FreshIds(c) && VaultAfter(c, v) && j < |c.rs| && f in AllFields && EarlierId(c, j) == None
    ensures FillField(c.p, v, FinalId(c, j), f, SavedField(c, j, f)) ==
      if Entered(c.rs[j].cache[f]).Some? then Str(Entered(c.rs[j].cache[f]).value)
      else if Empty(c.rs[j].cache[f]) then c.rs[j].cache[f]
      else Str("")
  {
    hide SaveUpTo, Key, VaultAfter, FinalId, TrimSpace;
    MarkerTrimmed();
    EmptyTrimmed();
    if Entered(c.rs[j].cache[f]).Some? { FinalSlot(c, v, j, CacheSlot(f)); }
  }

  /** A block copied with its id loses the markers it brought, whatever the vault holds under its new id:
      neither its token nor a cache secret of it stands for something stored. */
  lemma CopiedBlockLosesMarkers(p: string, prev: seq<Runner>, d: Draft, r: Runner, newId: string, f: SecretField)
    requires TextOf(r.idField) in d.seen && f in AllFields
    ensures Settled(d, r).token != Str(Marker)
    ensures var s := SaveOne(p, prev, d, r, newId).out;
      && |s| == |d.out| + 1 && s[|d.out|].idField == Str(newId)
      && (r.cache[f] == Str(Marker) ==> s[|d.out|].cache[f] == Str(""))
  {
    EmptyTrimmed();
    MarkerTrimmed();
    hide Key, TrimSpace, Copies, StashPuts, StashGone;
  }

  // ---- saving again ----

  /** A later save of the same file with its blocks reordered or removed, nothing typed: c2 starts
      from the vault the first save left, and its block k was block pick[k]. */
  ghost predicate Rearranged(c1: Save, v1: VaultMap, c2: Save, pick: seq<nat>) {
    && FreshIds(c1) && VaultAfter(c1, v1) && FreshIds(c2)
    && c2.p == c1.p && c2.v == v1 && |pick| == |c2.rs|
    && (forall k :: 0 <= k < |pick| ==> pick[k] < |c1.rs| && c2.rs[k] == Saved(c1).out[pick[k]])
    && (forall j, k :: 0 <= j < k < |pick| ==> pick[j] != pick[k])
  }

  lemma RearrangedKeeps(c1: Save, v1: VaultMap, c2: Save, pick: seq<nat>, k: nat)
    requires Rearranged(c1, v1, c2, pick) && k < |c2.rs|
    ensures Keeps(c2, k) && FinalId(c2, k) == FinalId(c1, pick[k])
    ensures BlockWritten(c1, pick[k], c2.rs[k])
  {
    hide SaveUpTo, FinalId;
    SavedBlock(c1, |c1.rs|, pick[k]);
    FinalIdNonEmpty(c1, pick[k]);
    forall i | 0 <= i < k ensures TextOf(c2.rs[i].idField) != TextOf(c2.rs[k].idField) {
      SavedBlock(c1, |c1.rs|, pick[i]);
      FinalIdsDistinct(c1, pick[i], pick[k]);
    }
    assert FinalId(c2, k) == TextOf(c2.rs[k].idField) by { KeptId(c2, k); }
  }

  lemma KeptId(c: Save, k: nat)
    requires FreshIds(c) && k < |c.rs| && Keeps(c, k)
    ensures FinalId(c, k) == TextOf(c.rs[k].idField)
    ensures forall s :: Earlier(c, k, s) == Lookup(c.v, Key(c.p, FinalId(c, k), s))
  {
  }

  /** What a saved config holds is never a typed secret again. */
  lemma NothingTyped(c: Save, j: nat, f: SecretField)
    requires j < |c.rs| && f in AllFields
    ensures Entered(SavedField(c, j, f)) == None
  {
    MarkerTrimmed();
    EmptyTrimmed();
    hide TrimSpace;
  }

  /** A field nothing is typed into. */
  lemma Untyped(c: Save, j: nat, f: SecretField)
    requires j < |c.rs| && f in AllFields && Entered(c.rs[j].cache[f]) == None
    ensures EmptiedSlot(c, j, CacheSlot(f)) <==> Empty(c.rs[j].cache[f])
    ensures Final(c, j, CacheSlot(f)) == Earlier(c, j, CacheSlot(f))
    ensures var x := c.rs[j].cache[f];
      SavedField(c, j, f) == if Empty(x) || NonEmpty(Earlier(c, j, CacheSlot(f))) then x else Str("")
  {
    hide Entered, Empty, Earlier;
  }

  /** A padded marker stays only for a secret the vault holds. */
  lemma PaddedKept(c: Save, j: nat, f: SecretField)
    requires j < |c.rs| && f in AllFields
    requires SavedField(c, j, f) != Str(Marker) && !Empty(SavedField(c, j, f))
    ensures NonEmpty(Final(c, j, CacheSlot(f))) && !EmptiedSlot(c, j, CacheSlot(f))
  {
    EmptyTrimmed();
    hide Earlier, TrimSpace;
  }

  /** A marker, or what a save makes of one the vault has nothing for, is filled with what its key holds. */
  lemma MarkedField(p: string, v: VaultMap, id: string, w: VaultMap, was: string, f: SecretField, saved: Field)
    requires Lookup(v, Key(p, id, CacheSlot(f))) == Lookup(w, Key(p, was, CacheSlot(f)))
    requires saved == if NonEmpty(Lookup(w, Key(p, was, CacheSlot(f)))) then Str(Marker) else Str("")
    ensures FillField(p, v, id, f, saved) == FillField(p, w, was, f, Str(Marker))
  {
    hide Key;
  }

  lemma UnmarkedField(p: string, v: VaultMap, id: string, f: SecretField, x: Field)
    requires x != Str(Marker)
    ensures FillField(p, v, id, f, x) == x
  {
  }

  lemma MarkerStands()
    ensures !Empty(Str(Marker)) && Entered(Str(Marker)) == None
  {
    MarkerTrimmed();
  }

  lemma RearrangedField(c1: Save, v1: VaultMap, c2: Save, v2: VaultMap, pick: seq<nat>, k: nat, f: SecretField)
    requires Rearranged(c1, v1, c2, pick) && VaultAfter(c2, v2) && k < |c2.rs| && f in AllFields
    ensures FillField(c1.p, v2, FinalId(c2, k), f, SavedField(c2, k, f)) ==
        FillField(c1.p, v1, FinalId(c1, pick[k]), f, SavedField(c1, pick[k], f))
  {
    assert |c1.newIds| == |c1.rs| && |c2.newIds| == |c2.rs|;
    hide SaveUpTo, Key, VaultAfter, FinalId, FreshIds, Entered, Empty, EmptiedSlot, SavedField, Final, FillField,
        Earlier, Keeps;
    RearrangedKeeps(c1, v1, c2, pick, k);
    KeptId(c2, k);
    NothingTyped(c1, pick[k], f);
    MarkerStands();
    var x := c2.rs[k].cache[f];
    Untyped(c2, k, f);
    if x == Str(Marker) {
      FinalSlot(c2, v2, k, CacheSlot(f));
      MarkedField(c1.p, v2, FinalId(c2, k), v1, FinalId(c1, pick[k]), f, SavedField(c2, k, f));
    } else {
      if !Empty(x) {
        PaddedKept(c1, pick[k], f);
        FinalSlot(c1, v1, pick[k], CacheSlot(f));
      }
      UnmarkedField(c1.p, v2, FinalId(c2, k), f, x);
      UnmarkedField(c1.p, v1, FinalId(c1, pick[k]), f, x);
    }
  }

  /** Two builds with the same token and cache secrets, wherever they come from. */
  lemma SameBuild(p: string, v: VaultMap, r: Runner, i: nat, w: VaultMap, q: Runner, k: nat)
    requires r.url == q.url && r.name == q.name && r.executor == q.executor
    requires Lookup(v, Key(p, RunnerId(r, i), TokenSlot)) == Lookup(w, Key(p, RunnerId(q, k), TokenSlot))
    requires forall f :: f in AllFields ==>
      FillField(p, v, RunnerId(r, i), f, r.cache[f]) == FillField(p, w, RunnerId(q, k), f, q.cache[f])
    ensures BuildRunner(p, v, r, i) == BuildRunner(p, w, q, k)
  {
    hide Key, FillField, RunnerId;
    assert (map f | f in AllFields :: FillField(p, v, RunnerId(r, i), f, r.cache[f])) ==
           (map f | f in AllFields :: FillField(p, w, RunnerId(q, k), f, q.cache[f]));
  }

  /** Reordering or removing blocks and saving again hands every remaining runner exactly the
      config it had: secrets follow the block, not its place. */
  lemma RearrangingChangesNothing(c1: Save, v1: VaultMap, c2: Save, v2: VaultMap, pick: seq<nat>, k: nat)
    requires Rearranged(c1, v1, c2, pick) && VaultAfter(c2, v2) && k < |c2.rs|
    ensures BuildRunner(c2.p, v2, Saved(c2).out[k], k) == BuildRunner(c1.p, v1, Saved(c1).out[pick[k]], pick[k])
  {
    assert |c1.newIds| == |c1.rs| && |c2.newIds| == |c2.rs|;
    hide SaveUpTo, Key, VaultAfter, FinalId, TrimSpace, FillField, SavedField, PromisedToken, BuildRunner, FreshIds;
    RearrangedKeeps(c1, v1, c2, pick, k);
    TokenRearranged(c1, v1, c2, v2, pick, k);
    SavedBlock(c2, |c2.rs|, k);
    FinalIdNonEmpty(c2, k);
    var r1, r2 := Saved(c1).out[pick[k]], Saved(c2).out[k];
    forall f | f in AllFields
      ensures FillField(c1.p, v2, FinalId(c2, k), f, r2.cache[f]) ==
              FillField(c1.p, v1, FinalId(c1, pick[k]), f, r1.cache[f])
    {
      RearrangedField(c1, v1, c2, v2, pick, k, f);
    }
    assert RunnerId(r1, pick[k]) == FinalId(c1, pick[k]) && RunnerId(r2, k) == FinalId(c2, k);
    SameBuild(c1.p, v2, r2, k, v1, r1, pick[k]);
  }

  lemma TokenRearranged(c1: Save, v1: VaultMap, c2: Save, v2: VaultMap, pick: seq<nat>, k: nat)
    requires Rearranged(c1, v1, c2, pick) && VaultAfter(c2, v2) && k < |c2.rs|
    ensures Lookup(v2, Key(c2.p, FinalId(c2, k), TokenSlot)) == Lookup(v1, Key(c1.p, FinalId(c1, pick[k]), TokenSlot))
  {
    hide SaveUpTo, Key, VaultAfter, FinalId, TrimSpace;
    RearrangedKeeps(c1, v1, c2, pick, k);
    KeptId(c2, k);
    MarkerTrimmed();
    EmptyTrimmed();
    FinalSlot(c2, v2, k, TokenSlot);
  }

  /** What a save stores is trimmed if what it found was. */
  lemma SecretsStayTrimmed(c: Save, j: nat, f: SecretField)
    requires TrimmedSecrets(c) && j < |c.rs| && f in AllFields && Final(c, j, CacheSlot(f)).Some?
    ensures NoOuterSpace(Final(c, j, CacheSlot(f)).value)
  {
    TrimSpaceTrims(TextOf(c.rs[j].cache[f]));
  }

  // ---- the first save with ids ----

  /** Block j is the stored one of a config without ids, with nothing typed into it. */
  predicate StoredBefore(c: Save, j: nat) {
    && j < |c.rs| && j < |c.prev| && c.rs[j] == c.prev[j] && c.rs[j].idField == Absent
    && c.rs[j].url != Other && c.rs[j].name != Other && c.rs[j].token in {Absent, Str(Marker)}
    && forall f :: f in AllFields ==> c.rs[j].cache[f] == Str(Marker) || Empty(c.rs[j].cache[f])
  }

  lemma StoredEarlier(c: Save, j: nat)
    requires StoredBefore(c, j)
    ensures !Keeps(c, j) && !EmptiedSlot(c, j, TokenSlot)
    ensures forall s :: Earlier(c, j, s) == Lookup(c.v, Key(c.p, Decimal(j), s))
    ensures Final(c, j, TokenSlot) == Earlier(c, j, TokenSlot)
  {
    MarkerTrimmed();
    hide Key, TrimSpace, Decimal;
  }

  lemma MigratedField(c: Save, v: VaultMap, j: nat, f: SecretField)
    requires FreshIds(c) && VaultAfter(c, v) && StoredBefore(c, j) && f in AllFields
    ensures FillField(c.p, v, FinalId(c, j), f, SavedField(c, j, f)) ==
            FillField(c.p, c.v, Decimal(j), f, c.rs[j].cache[f])
  {
    StoredEarlier(c, j);
    assert c.rs[j].cache[f] == Str(Marker) || Empty(c.rs[j].cache[f]);
    hide SaveUpTo, Key, VaultAfter, FinalId, FreshIds, Entered, Empty, EmptiedSlot, SavedField, Final, FillField,
        Earlier, Keeps, StoredBefore, Decimal;
    var x := c.rs[j].cache[f];
    MarkerStands();
    EmptyIsUntyped(x);
    Untyped(c, j, f);
    if x == Str(Marker) {
      FinalSlot(c, v, j, CacheSlot(f));
      MarkedField(c.p, v, FinalId(c, j), c.v, Decimal(j), f, SavedField(c, j, f));
    } else {
      UnmarkedField(c.p, v, FinalId(c, j), f, x);
      UnmarkedField(c.p, c.v, Decimal(j), f, x);
    }
  }

  lemma EmptyIsUntyped(x: Field)
    ensures Empty(x) ==> Entered(x) == None
  {
  }

  /** A config stored before ids, saved again as it is: every runner is built exactly as before, though its
      secrets are now under the id the save gave it. */
  lemma MigrationKeepsRunners(c: Save, v: VaultMap, j: nat)
    requires FreshIds(c) && VaultAfter(c, v) && StoredBefore(c, j)
    ensures BuildRunner(c.p, v, Saved(c).out[j], j) == BuildRunner(c.p, c.v, c.prev[j], j)
  {
    StoredEarlier(c, j);
    SavedBlock(c, |c.rs|, j);
    FinalIdNonEmpty(c, j);
    FinalSlot(c, v, j, TokenSlot);
    var r, was := Saved(c).out[j], c.prev[j];
    assert RunnerId(was, j) == Decimal(j) && RunnerId(r, j) == FinalId(c, j);
    forall f | f in AllFields
      ensures FillField(c.p, v, FinalId(c, j), f, r.cache[f]) == FillField(c.p, c.v, Decimal(j), f, was.cache[f])
    {
      MigratedField(c, v, j, f);
    }
    hide SaveUpTo, Key, VaultAfter, FinalId, FillField, SavedField, Decimal, Keeps, Earlier, Final, EmptiedSlot,
        BuildRunner, RunnerId, FreshIds, Empty, PromisedToken;
    SameBuild(c.p, v, r, j, c.v, was, j);
  }

  // ---- the padded marker, and form mode ----

  const PaddedCache: Cache :=
    map[AccessKey := Str(Marker + " "), SecretKey := Absent, SessionToken := Absent, PrivateKey := Absent,
        AccountKey := Absent]

  /** A runner with its token and S3 key in the vault, saved with a space after the key's marker. */
  function PaddedSave(p: string): Save {
    Save(p, [], map[Key(p, "r", TokenSlot) := "t"][Key(p, "r", CacheSlot(AccessKey)) := "AK"],
         [Runner(Str("r"), Str(Marker), PaddedCache, Absent, Absent, Str("docker"))], ["0123456789abcdef"])
  }

  lemma OneBlockFresh(p: string, v: VaultMap, r: Runner)
    requires r.idField == Str("r") && (forall k :: k in v ==> exists t :: t in AllSlots && k == Key(p, "r", t))
    ensures FreshIds(Save(p, [], v, [r], ["0123456789abcdef"]))
  {
    hide Key;
    forall s | s in AllSlots ensures Key(p, "0123456789abcdef", s) !in v {
      forall t | Key(p, "0123456789abcdef", s) == Key(p, "r", t) ensures false {
        KeyInjective(p, "0123456789abcdef", s, "r", t);
      }
    }
    forall k | 0 <= k < MaxRunners ensures "r" != Decimal(k) { assert '0' <= Decimal(k)[0] <= '9'; }
  }

  /** The save keeps the padded marker, and the build hands the runner the marker as its key. */
  lemma PaddedMarkerReachesRunner(p: string)
    ensures var c := PaddedSave(p); var v := Written(p, Saved(c)); var r := BuildRunner(p, v, Saved(c).out[0], 0);
      && FreshIds(c) && VaultAfter(c, v) && TrimmedSecrets(c)
      && PromisedField(c, 0, AccessKey) == Str("AK")
      && r.Ok? && r.value.cache[AccessKey] == Str(Marker + " ")
  {
    PaddedSaveTrimmed(p);
    NothingDeleted(PaddedSave(p));
    PaddedPromises(p);
    BuiltWith(PaddedSave(p), Written(p, Saved(PaddedSave(p))), AccessKey);
  }

  /** What a save of one docker block hands its runner, where no marker is left exactly. */
  lemma BuiltWith(c: Save, v: VaultMap, f: SecretField)
    requires FreshIds(c) && VaultAfter(c, v) && |c.rs| == 1 && c.rs[0].executor == Str("docker") && f in AllFields
    requires PromisedToken(c, 0).Some? && SavedField(c, 0, f) != Str(Marker)
    ensures BuildRunner(c.p, v, Saved(c).out[0], 0).Ok?
    ensures BuildRunner(c.p, v, Saved(c).out[0], 0).value.cache[f] == SavedField(c, 0, f)
  {
    hide FreshIds, VaultAfter, SaveUpTo, Key, FinalId, PromisedToken, SavedField, OldTokenStays;
    TokenRoundTrip(c, v, 0);
    SavedBlock(c, 1, 0);
  }

  lemma PaddedPromises(p: string)
    ensures var c := PaddedSave(p);
      && FreshIds(c) && PromisedToken(c, 0) == Some("t")
      && PromisedField(c, 0, AccessKey) == Str("AK") && SavedField(c, 0, AccessKey) == Str(Marker + " ")
  {
    hide Key;
    PaddedTrimmed();
    MarkerTrimmed();
    var c := PaddedSave(p);
    OneBlockFresh(p, c.v, c.rs[0]);
    assert Keeps(c, 0);
    if Key(p, "r", TokenSlot) == Key(p, "r", CacheSlot(AccessKey)) {
      KeyInjective(p, "r", TokenSlot, "r", CacheSlot(AccessKey));
    }
    assert Earlier(c, 0, CacheSlot(AccessKey)) == Some("AK") && Earlier(c, 0, TokenSlot) == Some("t");
  }

  lemma PaddedSaveTrimmed(p: string)
    ensures TrimmedSecrets(PaddedSave(p))
  {
    hide Key, TrimSpace;
  }

  lemma PaddedTrimmed()
    ensures TrimSpace(Marker + " ") == Marker && Marker + " " != Marker && |Marker + " "| != 0
  {
    assert (Marker + " ")[..|Marker + " "| - 1] == Marker;
    MarkerTrimmed();
    assert TrimLeft(Marker + " ") == Marker + " ";
  }

  /** A runner whose token is emptied in the file. */
  function EmptiedSave(p: string): Save {
    Save(p, [], map[Key(p, "r", TokenSlot) := "t"],
         [Runner(Str("r"), Str(""), NoCache, Absent, Absent, Str("docker"))], ["0123456789abcdef"])
  }

  const NoCache: Cache :=
    map[AccessKey := Absent, SecretKey := Absent, SessionToken := Absent, PrivateKey := Absent, AccountKey := Absent]

  lemma EmptiedPromises(p: string)
    ensures var c := EmptiedSave(p);
      && FreshIds(c) && Earlier(c, 0, TokenSlot) == Some("t") && EmptiedSlot(c, 0, TokenSlot)
      && PromisedToken(c, 0) == None
  {
    hide Key;
    EmptyTrimmed();
    var c := EmptiedSave(p);
    OneBlockFresh(p, c.v, c.rs[0]);
    assert Keeps(c, 0);
  }

  lemma NothingDeleted(c: Save)
    requires |c.rs| == |c.newIds|
    ensures VaultAfter(c, Written(c.p, Saved(c)))
  {
    hide Written, Saved;
  }

  /** When the delete after that save fails, the runner is built with the token the user took away. */
  lemma EmptiedTokenStaysInUse(p: string)
    ensures var c := EmptiedSave(p); var v := Written(p, Saved(c)); var r := BuildRunner(p, v, Saved(c).out[0], 0);
      && FreshIds(c) && VaultAfter(c, v) && PromisedToken(c, 0) == None
      && BuiltToken(r) == Some("t")
  {
    EmptiedPromises(p);
    NothingDeleted(EmptiedSave(p));
    OldTokenBuilt(EmptiedSave(p));
  }

  lemma OldTokenBuilt(c: Save)
    requires |c.rs| == |c.newIds| == 1 && c.rs[0].executor == Str("docker")
    requires FreshIds(c) && VaultAfter(c, Written(c.p, Saved(c)))
    requires EmptiedSlot(c, 0, TokenSlot) && NonEmpty(Earlier(c, 0, TokenSlot))
    ensures BuiltToken(BuildRunner(c.p, Written(c.p, Saved(c)), Saved(c).out[0], 0)) == Earlier(c, 0, TokenSlot)
  {
    hide FreshIds, VaultAfter, SaveUpTo, Written, Key, FinalId, BuildRunner, Earlier, TrimSpace, PromisedToken;
    WrittenSlot(c, 0, TokenSlot);
    KeptToken(c, 0);
    TokenRoundTrip(c, Written(c.p, Saved(c)), 0);
  }

  /** Form mode: a typed token reaches the one runner built from the form. */
  lemma FormRoundTrip(p: string, v: VaultMap, r: Runner, token: string)
    requires r.idField == Absent && r.executor == Str("docker") && TrimSpace(token) != ""
    ensures var b := BuildRunner(p, v + TokenPuts(p, map["0" := TrimSpace(token)]), r, 0);
      b.Ok? && b.value.token == Str(TrimSpace(token))
  {
    hide Key, TrimSpace;
    assert Decimal(0) == "0";
    var tokens := map["0" := TrimSpace(token)];
    assert "0" in tokens;
  }
}
